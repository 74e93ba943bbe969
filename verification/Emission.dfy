/** What an emit writes and what a decommission takes away again: the paths of one agent
    (plugin/gitops_emitter/harness/hermes.py:761-877, 969-1001,
    plugin/gitops_emitter/decommission_cli.py:129-147). */
module Emission {
  import opened Wrappers
  import opened Labels
  import opened Text
  import opened GitPaths
  import opened GitModel
  import opened PublishSpec
  import opened HeadSpec
  import opened Records

  /** A dashboard file: its path below the agent's own source tree, and its bytes. */
  datatype Asset = Asset(tail: string, data: Bytes)

  /** What one emit carries: the record, the authored contract, its provenance, the dashboard. */
  datatype Emit = Emit(record: Bytes, contract: Bytes, provenance: Bytes, dashboard: seq<Asset>)

  function SourceTree(name: string): string { "catalog/dashboard/sources/" + name }

  function RecordDir(cfg: Config, name: string): string { cfg.profilesPath + "/" + name }

  function CatalogueDir(name: string): string { "catalog/profiles/" + name }

  function Shown(name: string, a: Asset): File { File(SourceTree(name) + "/" + a.tail, a.data) }

  function ShownAll(name: string, assets: seq<Asset>): (fs: seq<File>)
    ensures |fs| == |assets| && forall i :: 0 <= i < |fs| ==> fs[i] == Shown(name, assets[i])
  {
    seq(|assets|, i requires 0 <= i < |assets| => Shown(name, assets[i]))
  }

  function RecordFile(cfg: Config, name: string, e: Emit): File {
    File(RecordDir(cfg, name) + "/" + "profile.yaml", e.record)
  }

  function ContractFile(name: string, e: Emit): File { File(CatalogueDir(name) + "/" + "contract.yaml", e.contract) }

  function ProvenanceFile(name: string, e: Emit): File {
    File(CatalogueDir(name) + "/" + "provenance.yaml", e.provenance)
  }

  function Catalogue(name: string, e: Emit): seq<File> {
    [ContractFile(name, e), ProvenanceFile(name, e)] + ShownAll(name, e.dashboard)
  }

  /** The publish an emit of `name` comes down to. */
  function EmitRequest(cfg: Config, name: string, e: Emit): Request {
    RecordRequest(name, RecordFile(cfg, name, e), Catalogue(name, e))
  }

  lemma EmittedFiles(cfg: Config, name: string, e: Emit, f: File)
    ensures f in EmitRequest(cfg, name, e).Files() <==>
      || f == RecordFile(cfg, name, e) || f == ContractFile(name, e) || f == ProvenanceFile(name, e)
      || exists a :: a in e.dashboard && f == Shown(name, a)
  {
    var shown := ShownAll(name, e.dashboard);
    assert EmitRequest(cfg, name, e).Files()
        == [RecordFile(cfg, name, e), ContractFile(name, e), ProvenanceFile(name, e)] + shown;
    if a :| a in e.dashboard && f == Shown(name, a) {
      var i :| 0 <= i < |e.dashboard| && e.dashboard[i] == a;
      assert shown[i] == f;
    }
  }

  // ----- Where the files land ---------------------------------------------

  /** A path glued from two reads as the one below the other. */
  lemma PartsOfGlued(a: string, b: string)
    ensures Parts(a + "/" + b) == Parts(a) + Parts(b)
  {
    assert a + "/" + b == a + ['/'] + b;
    SplitAppend(a, b, '/');
    DropDotsAppend(Split(a, '/'), Split(b, '/'));
  }

  /** All of an emit but the dashboard lies under the two directories a decommission removes. */
  lemma OnlyTheDashboardStays(cfg: Config, name: string, e: Emit, f: File)
    requires f in EmitRequest(cfg, name, e).Files() && !UnderAny(Place(f), RemovedRels(cfg, name))
    ensures exists a :: a in e.dashboard && f == Shown(name, a)
  {
    EmittedFiles(cfg, name, e, f);
    UnderADir(cfg, name, 0, "profile.yaml");
    UnderADir(cfg, name, 1, "contract.yaml");
    UnderADir(cfg, name, 1, "provenance.yaml");
  }

  lemma UnderADir(cfg: Config, name: string, i: nat, file: string)
    requires i < 2
    ensures UnderAny(Parts((if i == 0 then RecordDir(cfg, name) else CatalogueDir(name)) + "/" + file),
                     RemovedRels(cfg, name))
  {
    var rels := RemovedRels(cfg, name);
    PartsOfGlued(rels[i], file);
    assert AtOrUnder(Parts(rels[i] + "/" + file), Parts(rels[i]));
  }

  /** Decommissioning undoes an emit exactly when the repository held nothing of that name,
      the dashboard sweep found nothing, and every dashboard file was already there, byte for
      byte: those are not removed with the record. */
  lemma EmitThenDecommissionIff(t: Tree, cfg: Config, name: string, e: Emit)
    requires WellSpelled(EmitRequest(cfg, name, e)) && Consistent(EmitRequest(cfg, name, e).Files())
    ensures var req, rels := EmitRequest(cfg, name, e), RemovedRels(cfg, name);
      Removed(Delivered(t, req), rels) == t <==>
        && Removed(t, rels) == t
        && SweptFor(t, req) == t
        && forall a :: a in e.dashboard && !UnderAny(Place(Shown(name, a)), rels) ==>
             Lookup(t, Place(Shown(name, a))) == Some(a.data)
  {
    var req, rels := EmitRequest(cfg, name, e), RemovedRels(cfg, name);
    PublishThenRemove(t, req, rels);
    forall a | a in e.dashboard ensures Shown(name, a) in req.Files() {
      EmittedFiles(cfg, name, e, Shown(name, a));
    }
    forall f | f in req.Files() && !UnderAny(Place(f), rels)
      ensures exists a :: a in e.dashboard && f == Shown(name, a)
    {
      OnlyTheDashboardStays(cfg, name, e, f);
    }
  }

  // ----- Emits as they are made -------------------------------------------

  /** A relative path in normal spelling that never climbs. */
  predicate Plain(raw: string) { Normal(raw) && raw != "" && ".." !in Parts(raw) && raw[0] != '\\' }

  predicate Spelled(raw: string, p: Path) { Plain(raw) && Parts(raw) == p }

  predicate PlainSegment(seg: string) { ProperSegment(seg) && seg != ".." && seg[0] != '\\' }

  /** An emit as it is meant to be set up: a checked name, paths in normal spelling, one content
      per dashboard path, and a profiles path of its own, apart from the catalogue. */
  predicate Tidy(cfg: Config, name: string, e: Emit) {
    && NameOk(name)
    && Plain(cfg.profilesPath) && Parts(cfg.profilesPath)[..1] != ["catalog"]
    && (forall a :: a in e.dashboard ==> Plain(a.tail))
    && (forall a, b :: a in e.dashboard && b in e.dashboard && a.tail == b.tail ==> a.data == b.data)
  }

  /** Where an agent's dashboard files live. */
  function SourcePath(name: string): Path
    requires NameOk(name)
  {
    ["catalog", "dashboard", "sources", name]
  }

  lemma SpellingIsPlain(p: Path)
    requires p != [] && Proper(p) && ".." !in p && p[0][0] != '\\'
    ensures Spelled(Spelling(p), p)
  {
    PartsOfSpelling(p);
    assert Spelling(p)[0] == p[0][0];
  }

  lemma Below(dir: string, p: Path, seg: string)
    requires Spelled(dir, p) && PlainSegment(seg)
    ensures Spelled(dir + "/" + seg, p + [seg])
  {
    JoinAppend(p, [seg], '/');
    SpellingIsPlain(p + [seg]);
  }

  lemma GluedIsPlain(a: string, b: string)
    requires Plain(a) && Plain(b)
    ensures Spelled(a + "/" + b, Parts(a) + Parts(b))
  {
    JoinAppend(Parts(a), Parts(b), '/');
    PartsOfGlued(a, b);
  }

  lemma ThreeDeep(dir: string, a: string, b: string, c: string)
    requires PlainSegment(a) && PlainSegment(b) && PlainSegment(c) && dir == a + "/" + b + "/"
    ensures Spelled(dir + c, [a, b, c])
  {
    SpellingIsPlain([a]);
    Below(a, [a], b);
    Below(a + "/" + b, [a, b], c);
  }

  lemma FourDeep(dir: string, a: string, b: string, c: string, d: string)
    requires PlainSegment(a) && PlainSegment(b) && PlainSegment(c) && PlainSegment(d)
    requires dir == a + "/" + b + "/" + c + "/"
    ensures Spelled(dir + d, [a, b, c, d])
  {
    ThreeDeep(a + "/" + b + "/", a, b, c);
    Below(a + "/" + b + "/" + c, [a, b, c], d);
  }

  lemma SourceDir(name: string)
    requires NameOk(name)
    ensures Spelled(SourceTree(name), SourcePath(name))
  {
    FourDeep("catalog/dashboard/sources/", "catalog", "dashboard", "sources", name);
  }

  lemma CatalogueIsThere(name: string)
    requires NameOk(name)
    ensures Spelled(CatalogueDir(name), ["catalog", "profiles", name])
  {
    ThreeDeep("catalog/profiles/", "catalog", "profiles", name);
  }

  /** The directories of one agent, by their segments. */
  lemma AgentDirs(cfg: Config, name: string)
    requires NameOk(name) && Plain(cfg.profilesPath)
    ensures Spelled(SourceTree(name), SourcePath(name))
    ensures Spelled(CatalogueDir(name), ["catalog", "profiles", name])
    ensures Spelled(RecordDir(cfg, name), Parts(cfg.profilesPath) + [name])
  {
    SourceDir(name);
    CatalogueIsThere(name);
    Below(cfg.profilesPath, Parts(cfg.profilesPath), name);
  }

  /** Where the record and its catalogue land. */
  lemma RecordPlaces(cfg: Config, name: string, e: Emit)
    requires NameOk(name) && Plain(cfg.profilesPath)
    ensures Spelled(RecordFile(cfg, name, e).rel, Parts(cfg.profilesPath) + [name] + ["profile.yaml"])
    ensures Spelled(ContractFile(name, e).rel, ["catalog", "profiles", name] + ["contract.yaml"])
    ensures Spelled(ProvenanceFile(name, e).rel, ["catalog", "profiles", name] + ["provenance.yaml"])
  {
    AgentDirs(cfg, name);
    Below(RecordDir(cfg, name), Parts(cfg.profilesPath) + [name], "profile.yaml");
    Below(CatalogueDir(name), ["catalog", "profiles", name], "contract.yaml");
    Below(CatalogueDir(name), ["catalog", "profiles", name], "provenance.yaml");
  }

  lemma ShownPlace(cfg: Config, name: string, a: Asset)
    requires NameOk(name) && Plain(cfg.profilesPath) && Plain(a.tail)
    ensures Spelled(Shown(name, a).rel, SourcePath(name) + Parts(a.tail)) && Parts(a.tail) != []
  {
    AgentDirs(cfg, name);
    GluedIsPlain(SourceTree(name), a.tail);
  }

  /** Every file of a tidy emit, by where it lands. */
  lemma TidyPlace(cfg: Config, name: string, e: Emit, f: File)
    requires Tidy(cfg, name, e) && f in EmitRequest(cfg, name, e).Files()
    ensures Plain(f.rel)
    ensures Parts(cfg.profilesPath) <= Place(f) || ["catalog"] <= Place(f)
    ensures SourcePath(name) <= Place(f) <==> exists a :: a in e.dashboard && f == Shown(name, a)
  {
    EmittedFiles(cfg, name, e, f);
    RecordPlaces(cfg, name, e);
    if a :| a in e.dashboard && f == Shown(name, a) {
      ShownPlace(cfg, name, a);
      assert Place(f)[..1] == ["catalog"];
    } else if f == RecordFile(cfg, name, e) {
      assert Place(f)[..1] == Parts(cfg.profilesPath)[..1];
      assert !(SourcePath(name) <= Place(f)) by { assert SourcePath(name)[..1] == ["catalog"]; }
    } else {
      assert Place(f)[1] == "profiles" && SourcePath(name)[1] == "dashboard";
      assert Place(f)[..1] == ["catalog"];
    }
  }

  /** A tidy emit is a normal, consistent request: all that is proved of those holds of it. */
  lemma TidyIsNormal(cfg: Config, name: string, e: Emit)
    requires Tidy(cfg, name, e)
    ensures NormalRequest(EmitRequest(cfg, name, e)) && Consistent(EmitRequest(cfg, name, e).Files())
  {
    var req := EmitRequest(cfg, name, e);
    AgentDirs(cfg, name);
    NoOuterSlash(SourceTree(name));
    forall f | f in req.Files() ensures Normal(f.rel) && f.rel != "" {
      TidyPlace(cfg, name, e, f);
    }
    forall f, g | f in req.Files() && g in req.Files() && Place(f) == Place(g) ensures f.data == g.data {
      SamePlaceSameData(cfg, name, e, f, g);
    }
  }

  lemma SamePlaceSameData(cfg: Config, name: string, e: Emit, f: File, g: File)
    requires Tidy(cfg, name, e) && Place(f) == Place(g)
    requires f in EmitRequest(cfg, name, e).Files() && g in EmitRequest(cfg, name, e).Files()
    ensures f.data == g.data
  {
    TidyPlace(cfg, name, e, f);
    TidyPlace(cfg, name, e, g);
    assert f.rel == g.rel;
    if SourcePath(name) <= Place(f) {
      var a :| a in e.dashboard && f == Shown(name, a);
      var b :| b in e.dashboard && g == Shown(name, b);
      assert a.tail == f.rel[|SourceTree(name)| + 1..] == b.tail;
    } else {
      EmittedFiles(cfg, name, e, f);
      EmittedFiles(cfg, name, e, g);
      RecordPlaces(cfg, name, e);
      ApartFromTheCatalogue(cfg, name, e);
    }
  }

  lemma ApartFromTheCatalogue(cfg: Config, name: string, e: Emit)
    requires Tidy(cfg, name, e)
    ensures ContractFile(name, e).rel != ProvenanceFile(name, e).rel
    ensures RecordFile(cfg, name, e).rel !in {ContractFile(name, e).rel, ProvenanceFile(name, e).rel}
  {
    RecordPlaces(cfg, name, e);
    assert Place(RecordFile(cfg, name, e))[..1] == Parts(cfg.profilesPath)[..1];
    assert Place(ContractFile(name, e))[..1] == ["catalog"] == Place(ProvenanceFile(name, e))[..1];
    assert Place(ContractFile(name, e))[3] != Place(ProvenanceFile(name, e))[3];
  }

  /** A plain path neither starts nor ends with a slash. */
  lemma NoOuterSlash(raw: string)
    requires Plain(raw)
    ensures raw[0] != '/' && raw[|raw| - 1] != '/' && RStripSlashes(raw) == raw
  {
    SplitOfJoin(Parts(raw), '/');
    if raw[0] == '/' || raw[|raw| - 1] == '/' {
      OuterSlash(raw);
    }
  }

  lemma OuterSlash(raw: string)
    requires raw != "" && (raw[0] == '/' || raw[|raw| - 1] == '/')
    ensures exists i :: 0 <= i < |Split(raw, '/')| && Split(raw, '/')[i] == ""
  {
    if raw[0] == '/' {
      assert Split(raw, '/')[0] == "";
    } else {
      var r := raw[..|raw| - 1];
      assert raw == r + ['/'] + "";
      SplitAppend(r, "", '/');
      assert Split(raw, '/')[|Split(r, '/')|] == "";
    }
  }

  /** A tidy emit passes the emitter's allowlist, and so does its removal. */
  lemma TidyIsWithin(cfg: Config, name: string, e: Emit)
    requires Tidy(cfg, name, e)
    ensures RequestWithin(EmitRequest(cfg, name, e), RemovalPrefixes(cfg)) && RemovalAllowed(cfg, name)
  {
    var req := EmitRequest(cfg, name, e);
    AgentDirs(cfg, name);
    forall f | f in req.Files() ensures Within(f.rel, RemovalPrefixes(cfg)) {
      TidyPlace(cfg, name, e, f);
      OwnTreesAreAllowed(cfg, f.rel);
    }
    assert ["catalog"] <= SourcePath(name);
    OwnTreesAreAllowed(cfg, SourceTree(name));
    OwnTreesAreAllowed(cfg, CatalogueDir(name));
    OwnTreesAreAllowed(cfg, RecordDir(cfg, name));
  }

  lemma OwnTreesAreAllowed(cfg: Config, raw: string)
    requires Plain(raw) && Plain(cfg.profilesPath)
    requires Parts(cfg.profilesPath) <= Parts(raw) || ["catalog"] <= Parts(raw)
    ensures Within(raw, RemovalPrefixes(cfg)) && Cleaned(RemovalPrefixes(cfg)) != []
  {
    NoOuterSlash(raw);
    if Parts(cfg.profilesPath) <= Parts(raw) {
      NoOuterSlash(cfg.profilesPath);
      OwnTree(RemovalPrefixes(cfg), cfg.profilesPath, Parts(cfg.profilesPath), raw);
    } else {
      OwnTree(RemovalPrefixes(cfg), "catalog", ["catalog"], raw);
    }
  }

  lemma OwnTree(prefixes: seq<string>, pre: string, p: Path, raw: string)
    requires pre in prefixes && pre != "" && pre[0] != '/' && pre[|pre| - 1] != '/'
    requires p != [] && Proper(p) && pre == Spelling(p) && p <= Parts(raw)
    ensures Inside(Parts(raw), prefixes) && Cleaned(prefixes) != []
  {
    CleanedKeeps(prefixes, pre);
    SplitOfJoin(p, '/');
    assert AtOrUnder(Parts(raw), Split(pre, '/'));
  }

  /** The dashboard sources of `name` in the tree are exactly the ones this emit carries. */
  predicate SourcesAre(t: Tree, name: string, e: Emit)
    requires NameOk(name)
  {
    && (forall a :: a in e.dashboard ==> Lookup(t, SourcePath(name) + Parts(a.tail)) == Some(a.data))
    && (forall p :: p in t && StrictlyUnder(p, SourcePath(name)) ==> IsShown(p, name, e))
  }

  predicate IsShown(p: Path, name: string, e: Emit)
    requires NameOk(name)
  {
    exists a :: a in e.dashboard && p == SourcePath(name) + Parts(a.tail)
  }

  /** For a tidy emit the condition is about the base alone: it holds nothing of the name, and
      its dashboard sources of that name are already exactly the ones emitted. */
  lemma EmitIsUndoneIff(t: Tree, cfg: Config, name: string, e: Emit)
    requires WellFormed(t) && Tidy(cfg, name, e)
    ensures Removed(Delivered(t, EmitRequest(cfg, name, e)), RemovedRels(cfg, name)) == t <==>
      (forall p :: p in t ==> !UnderAny(p, RemovedRels(cfg, name))) && SourcesAre(t, name, e)
  {
    var req, rels := EmitRequest(cfg, name, e), RemovedRels(cfg, name);
    TidyIsNormal(cfg, name, e);
    NormalIsWellSpelled(req);
    EmitThenDecommissionIff(t, cfg, name, e);
    forall a | a in e.dashboard
      ensures Place(Shown(name, a)) == SourcePath(name) + Parts(a.tail) && !UnderAny(Place(Shown(name, a)), rels)
    {
      DashboardIsKept(cfg, name, e, a);
    }
    SweepFindsNothingIff(t, cfg, name, e);
    NothingRemovedIff(t, rels);
  }

  lemma NothingRemovedIff(t: Tree, rels: seq<string>)
    ensures Removed(t, rels) == t <==> forall p :: p in t ==> !UnderAny(p, rels)
  {
    if Removed(t, rels) == t {
      forall p | p in t ensures !UnderAny(p, rels) { assert p in Removed(t, rels); }
    }
  }

  /** No dashboard file is removed with the record. */
  lemma DashboardIsKept(cfg: Config, name: string, e: Emit, a: Asset)
    requires Tidy(cfg, name, e) && a in e.dashboard
    ensures Place(Shown(name, a)) == SourcePath(name) + Parts(a.tail)
    ensures !UnderAny(Place(Shown(name, a)), RemovedRels(cfg, name))
  {
    AgentDirs(cfg, name);
    ShownPlace(cfg, name, a);
    var rels, p := RemovedRels(cfg, name), Place(Shown(name, a));
    assert p[..1] == ["catalog"] && p[1] == "dashboard";
    assert rels == [RecordDir(cfg, name), CatalogueDir(name)];
    assert (Parts(cfg.profilesPath) + [name])[..1] == Parts(cfg.profilesPath)[..1];
    forall i | 0 <= i < |rels| ensures !AtOrUnder(p, Parts(rels[i])) {
      if i == 1 {
        assert Parts(rels[i])[1] == "profiles";
      }
    }
  }

  /** The sweep leaves a tree alone exactly when nothing but the emitted dashboard is in its place. */
  lemma SweepFindsNothingIff(t: Tree, cfg: Config, name: string, e: Emit)
    requires WellFormed(t) && Tidy(cfg, name, e)
    ensures SweptFor(t, EmitRequest(cfg, name, e)) == t <==>
      forall p :: p in t && StrictlyUnder(p, SourcePath(name)) ==> IsShown(p, name, e)
  {
    var req := EmitRequest(cfg, name, e);
    AgentDirs(cfg, name);
    assert req.trees == [SourceTree(name)];
    forall p | p in t ensures IsStale(p, req.trees, Keep(req.Files())) <==>
      StrictlyUnder(p, SourcePath(name)) && !IsShown(p, name, e)
    {
      assert UnderSome(p, req.trees) <==> StrictlyUnder(p, Parts(req.trees[0]));
      if StrictlyUnder(p, SourcePath(name)) {
        KeptUnderSource(p, cfg, name, e);
      }
    }
    if SweptFor(t, req) == t {
      forall p | p in t ensures !IsStale(p, req.trees, Keep(req.Files())) { assert p in SweptFor(t, req); }
    }
  }

  lemma KeptUnderSource(p: Path, cfg: Config, name: string, e: Emit)
    requires Tidy(cfg, name, e) && Proper(p) && StrictlyUnder(p, SourcePath(name))
    ensures Spelling(p) in Keep(EmitRequest(cfg, name, e).Files()) <==> IsShown(p, name, e)
  {
    var req := EmitRequest(cfg, name, e);
    PartsOfSpelling(p);
    if Spelling(p) in Keep(req.Files()) {
      var f :| f in req.Files() && f.rel == Spelling(p);
      TidyPlace(cfg, name, e, f);
      var a :| a in e.dashboard && f == Shown(name, a);
      ShownPlace(cfg, name, a);
    }
    if IsShown(p, name, e) {
      var a :| a in e.dashboard && p == SourcePath(name) + Parts(a.tail);
      EmittedFiles(cfg, name, e, Shown(name, a));
      ShownPlace(cfg, name, a);
      assert Shown(name, a).rel in Keep(req.Files());
    }
  }

  /** A first emit with a dashboard, decommissioned again: the dashboard stays. */
  lemma FirstDashboardSurvives(cfg: Config, name: string, e: Emit)
    requires Tidy(cfg, name, e)
    ensures Removed(Delivered(map[], EmitRequest(cfg, name, e)), RemovedRels(cfg, name)) == map[] <==> e.dashboard == []
  {
    EmitIsUndoneIff(map[], cfg, name, e);
    if e.dashboard != [] {
      assert e.dashboard[0] in e.dashboard;
    }
  }

  /** The smallest one: the default profiles path, an agent `a`, a single dashboard file. */
  lemma DashboardSurvivesExample(cfg: Config, e: Emit)
    requires cfg.profilesPath == "profiles" && e.dashboard == [Asset("main.yaml", [1])]
    ensures var req := EmitRequest(cfg, "a", e);
      && RequestWithin(req, RemovalPrefixes(cfg)) && Writable(map[], req.Files())
      && Removed(Delivered(map[], req), RemovedRels(cfg, "a")) != map[]
  {
    OneDashboardFileSurvives(cfg, "a", e, "profiles", "main.yaml");
  }

  lemma OneDashboardFileSurvives(cfg: Config, name: string, e: Emit, profiles: string, tail: string)
    requires PlainSegment(profiles) && profiles != "catalog" && PlainSegment(tail) && NameOk(name)
    requires cfg.profilesPath == profiles && |e.dashboard| == 1 && e.dashboard[0].tail == tail
    ensures var req := EmitRequest(cfg, name, e);
      && RequestWithin(req, RemovalPrefixes(cfg)) && Writable(map[], req.Files())
      && Removed(Delivered(map[], req), RemovedRels(cfg, name)) != map[]
  {
    ExampleIsTidy(cfg, name, e, profiles, tail);
    TidyIsWithin(cfg, name, e);
    FirstDashboardSurvives(cfg, name, e);
    ExampleIsApart(cfg, name, e, profiles, tail);
    WritableWhenApart(map[], EmitRequest(cfg, name, e).Files());
  }

  lemma ExampleIsTidy(cfg: Config, name: string, e: Emit, profiles: string, tail: string)
    requires PlainSegment(profiles) && profiles != "catalog" && PlainSegment(tail) && NameOk(name)
    requires cfg.profilesPath == profiles && |e.dashboard| == 1 && e.dashboard[0].tail == tail
    ensures Tidy(cfg, name, e) && Parts(profiles) == [profiles] && Parts(tail) == [tail]
  {
    SpellingIsPlain([profiles]);
    SpellingIsPlain([tail]);
  }

  lemma ExampleIsApart(cfg: Config, name: string, e: Emit, profiles: string, tail: string)
    requires PlainSegment(profiles) && profiles != "catalog" && PlainSegment(tail) && NameOk(name)
    requires cfg.profilesPath == profiles && |e.dashboard| == 1 && e.dashboard[0].tail == tail
    ensures forall f, g :: f in EmitRequest(cfg, name, e).Files() && g in EmitRequest(cfg, name, e).Files() ==>
      !(Place(f) < Place(g))
  {
    var req, d := EmitRequest(cfg, name, e), e.dashboard[0];
    ExampleIsTidy(cfg, name, e, profiles, tail);
    RecordPlaces(cfg, name, e);
    ShownPlace(cfg, name, d);
    forall f | f in req.Files() ensures ExamplePlace(Place(f), profiles, name, tail) {
      EmittedFiles(cfg, name, e, f);
    }
    forall f, g | f in req.Files() && g in req.Files() ensures !(Place(f) < Place(g)) {
      ApartPlaces(Place(f), Place(g), profiles, name, tail);
    }
  }

  predicate ExamplePlace(p: Path, profiles: string, name: string, tail: string) {
    || p == [profiles, name, "profile.yaml"]
    || p == ["catalog", "profiles", name, "contract.yaml"] || p == ["catalog", "profiles", name, "provenance.yaml"]
    || p == ["catalog", "dashboard", "sources", name, tail]
  }

  lemma ApartPlaces(p: Path, q: Path, profiles: string, name: string, tail: string)
    requires profiles != "catalog" && ExamplePlace(p, profiles, name, tail) && ExamplePlace(q, profiles, name, tail)
    ensures !(p < q)
  {
    assert |p| < |q| ==> p[0] != q[0] || p[1] != q[1];
  }

  /** Files none of which lies below another, or in the way of what is there, can be written. */
  lemma {:induction false} WritableWhenApart(t: Tree, files: seq<File>)
    requires forall f, p :: f in files && p in t ==> !(p < Place(f)) && !(Place(f) < p)
    requires forall f, g :: f in files && g in files ==> !(Place(f) < Place(g))
    ensures Writable(t, files)
    decreases |files|
  {
    if files != [] {
      assert files[0] in files;
      WritableWhenApart(t[Place(files[0]) := files[0].data], files[1..]);
    }
  }
}
