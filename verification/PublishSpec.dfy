/** What one publish decides, as functions of the tree it was cut from
    (plugin/gitops_emitter/gitrepo.py:304-331, 386-579, 582-682), and what those
    decisions are worth. */
module PublishSpec {
  import opened Wrappers
  import opened Text
  import opened GitPaths
  import opened GitModel

  datatype File = File(rel: string, data: Bytes)

  /** One publish: the record, its companions, and the trees it reconciles. */
  datatype Request = Request(record: File, extras: seq<File>, trees: seq<string>) {
    function Files(): (fs: seq<File>)
      ensures fs != [] && fs[0] == record
    {
      [record] + extras
    }
  }

  function Place(f: File): Path { Parts(f.rel) }

  function Places(files: seq<File>): set<Path> { set f | f in files :: Place(f) }

  /** The `keep` set: spellings exactly as the caller wrote them. */
  function Keep(files: seq<File>): set<string> { set f | f in files :: f.rel }

  predicate UnderSome(p: Path, trees: seq<string>) {
    exists i :: 0 <= i < |trees| && StrictlyUnder(p, Parts(trees[i]))
  }

  // ----- The goal ---------------------------------------------------------

  /** The tree carries every file of the publish set, byte for byte. */
  predicate Carries(t: Tree, files: seq<File>) {
    forall f :: f in files ==> Lookup(t, Place(f)) == Some(f.data)
  }

  /** Under the reconciled trees, nothing but the publish set. */
  predicate NothingExtra(t: Tree, req: Request) {
    forall p :: p in t && UnderSome(p, req.trees) ==> p in Places(req.Files())
  }

  predicate Desired(t: Tree, req: Request) { Carries(t, req.Files()) && NothingExtra(t, req) }

  // ----- The steps --------------------------------------------------------

  /** What `_reconcile_replace_trees` deletes. */
  predicate IsStale(p: Path, trees: seq<string>, keep: set<string>) {
    UnderSome(p, trees) && Spelling(p) !in keep
  }

  function Swept(t: Tree, trees: seq<string>, keep: set<string>): Tree {
    map p | p in t && !IsStale(p, trees, keep) :: t[p]
  }

  function SweptFor(t: Tree, req: Request): Tree { Swept(t, req.trees, Keep(req.Files())) }

  /** `mkdir -p` and `write_bytes` succeed: no file stands where a directory must,
      and no directory where the file must. */
  predicate CanWrite(t: Tree, p: Path) { forall q :: q in t ==> !(q < p) && !(p < q) }

  predicate Writable(t: Tree, files: seq<File>)
    decreases |files|
  {
    files == [] || (CanWrite(t, Place(files[0])) && Writable(t[Place(files[0]) := files[0].data], files[1..]))
  }

  function Written(t: Tree, files: seq<File>): Tree
    decreases |files|
  {
    if files == [] then t else Written(t[Place(files[0]) := files[0].data], files[1..])
  }

  /** The "already byte-identical" test: delete, then compare. */
  predicate BaseTest(t: Tree, req: Request) {
    SweptFor(t, req) == t && Carries(SweptFor(t, req), req.Files())
  }

  /** The tree a publish over `t` commits. */
  function Delivered(t: Tree, req: Request): Tree { Written(SweptFor(t, req), req.Files()) }

  // ----- Well-made requests -----------------------------------------------

  /** Every file landing under a reconciled tree is also listed in its normal spelling. */
  predicate WellSpelled(req: Request) {
    forall f :: f in req.Files() && UnderSome(Place(f), req.trees) ==> Spelling(Place(f)) in Keep(req.Files())
  }

  /** One place, one content. */
  predicate Consistent(files: seq<File>) {
    forall f, g :: f in files && g in files && Place(f) == Place(g) ==> f.data == g.data
  }

  // ----- Writing ----------------------------------------------------------

  lemma {:induction false} WrittenElsewhere(t: Tree, files: seq<File>, p: Path)
    requires p !in Places(files)
    ensures Lookup(Written(t, files), p) == Lookup(t, p)
    decreases |files|
  {
    if files != [] {
      assert files[0] in files;
      assert Places(files[1..]) <= Places(files);
      WrittenElsewhere(t[Place(files[0]) := files[0].data], files[1..], p);
    }
  }

  lemma {:induction false} WrittenPlaces(t: Tree, files: seq<File>)
    ensures Written(t, files).Keys == t.Keys + Places(files)
    decreases |files|
  {
    if files != [] {
      WrittenPlaces(t[Place(files[0]) := files[0].data], files[1..]);
      assert files == [files[0]] + files[1..];
      assert Places(files) == {Place(files[0])} + Places(files[1..]);
    }
  }

  lemma ConsistentTail(files: seq<File>)
    requires files != [] && Consistent(files)
    ensures Consistent(files[1..])
  {
    forall f, g | f in files[1..] && g in files[1..] && Place(f) == Place(g) ensures f.data == g.data {
      assert f in files && g in files;
    }
  }

  /** With one content per place, everything written can be read back. */
  lemma {:induction false} WrittenCarries(t: Tree, files: seq<File>)
    requires Consistent(files)
    ensures Carries(Written(t, files), files)
    decreases |files|
  {
    if files != [] {
      var t' := t[Place(files[0]) := files[0].data];
      ConsistentTail(files);
      WrittenCarries(t', files[1..]);
      forall f | f in files ensures Lookup(Written(t, files), Place(f)) == Some(f.data) {
        if Place(f) !in Places(files[1..]) {
          assert f !in files[1..];
          assert f == files[0];
          WrittenElsewhere(t', files[1..], Place(f));
        } else {
          var g :| g in files[1..] && Place(g) == Place(f);
          assert g in files && f in files;
        }
      }
    }
  }

  lemma {:induction false} WritableIntoLess(s: Tree, t: Tree, files: seq<File>)
    requires s.Keys <= t.Keys && Writable(t, files)
    ensures Writable(s, files)
    decreases |files|
  {
    if files != [] {
      var p, d := Place(files[0]), files[0].data;
      WritableIntoLess(s[p := d], t[p := d], files[1..]);
    }
  }

  /** Rewriting what is already there always works. */
  lemma {:induction false} WritableInPlace(t: Tree, files: seq<File>)
    requires WellFormed(t) && Places(files) <= t.Keys
    ensures Writable(t, files)
    decreases |files|
  {
    if files != [] {
      assert files[0] in files;
      assert Place(files[0]) in Places(files);
      var t' := t[Place(files[0]) := files[0].data];
      assert Places(files[1..]) <= Places(files);
      assert t'.Keys == t.Keys;
      WritableInPlace(t', files[1..]);
    }
  }

  lemma {:induction false} WritingKeepsWellFormed(t: Tree, files: seq<File>)
    requires WellFormed(t) && Writable(t, files)
    requires forall f :: f in files ==> Place(f) != []
    ensures WellFormed(Written(t, files))
    decreases |files|
  {
    if files != [] {
      assert files[0] in files;
      WritingKeepsWellFormed(t[Place(files[0]) := files[0].data], files[1..]);
    }
  }

  // ----- The base test ----------------------------------------------------

  /** The places a well-formed tree keeps are exactly the listed ones. */
  lemma KeptAreListed(p: Path, req: Request)
    requires Proper(p) && Spelling(p) in Keep(req.Files())
    ensures p in Places(req.Files())
  {
    var f :| f in req.Files() && f.rel == Spelling(p);
    PartsOfSpelling(p);
    assert Place(f) == p;
  }

  /** Nothing stale means nothing extra. */
  lemma NotStaleNothingExtra(t: Tree, req: Request)
    requires WellFormed(t) && SweptFor(t, req) == t
    ensures NothingExtra(t, req)
  {
    forall p | p in t && UnderSome(p, req.trees) ensures p in Places(req.Files()) {
      assert p in SweptFor(t, req);
      KeptAreListed(p, req);
    }
  }

  /** The test never claims a tree that is not as desired ... */
  lemma BaseTestIsSound(t: Tree, req: Request)
    requires WellFormed(t) && BaseTest(t, req)
    ensures Desired(t, req)
  {
    NotStaleNothingExtra(t, req);
  }

  /** ... and for a well-spelled request it decides exactly that. */
  lemma BaseTestDecidesDesired(t: Tree, req: Request)
    requires WellFormed(t) && WellSpelled(req)
    ensures BaseTest(t, req) <==> Desired(t, req)
  {
    if BaseTest(t, req) {
      BaseTestIsSound(t, req);
    }
    if Desired(t, req) {
      forall p | p in t ensures !IsStale(p, req.trees, Keep(req.Files())) {
        if UnderSome(p, req.trees) {
          var f :| f in req.Files() && Place(f) == p;
          assert UnderSome(Place(f), req.trees);
        }
      }
      assert SweptFor(t, req) == t;
    }
  }

  // ----- Empty commits ----------------------------------------------------

  /** The commit step is reached with a tree equal to the one it was cut from. */
  predicate EmptyCommit(t: Tree, req: Request) {
    !BaseTest(t, req) && Writable(SweptFor(t, req), req.Files()) && Delivered(t, req) == t
  }

  /** A tree that is already as desired comes back unchanged from sweep and write. */
  lemma DeliveredOfDesired(t: Tree, req: Request)
    requires WellFormed(t) && Desired(t, req)
    ensures Delivered(t, req) == t && Writable(SweptFor(t, req), req.Files())
  {
    var files, s := req.Files(), SweptFor(t, req);
    forall f | f in files ensures Place(f) in t {}
    WritableInPlace(t, files);
    WritableIntoLess(s, t, files);
    assert Consistent(files) by {
      forall f, g | f in files && g in files && Place(f) == Place(g) ensures f.data == g.data {
        assert Lookup(t, Place(f)) == Some(f.data) && Lookup(t, Place(g)) == Some(g.data);
      }
    }
    WrittenCarries(s, files);
    forall p: Path ensures Lookup(Delivered(t, req), p) == Lookup(t, p) {
      if p in Places(files) {
        var f :| f in files && Place(f) == p;
      } else {
        WrittenElsewhere(s, files, p);
        assert p in t ==> !UnderSome(p, req.trees);
      }
    }
    SameLookups(Delivered(t, req), t);
  }

  /** On a given tree the empty commit happens exactly when the tree already is what
      the request wants and the sweep deletes something it then writes back. */
  lemma EmptyCommitOn(t: Tree, req: Request)
    requires WellFormed(t) && Consistent(req.Files())
    ensures EmptyCommit(t, req) <==> Desired(t, req) && SweptFor(t, req) != t
  {
    var files := req.Files();
    if Desired(t, req) {
      DeliveredOfDesired(t, req);
    }
    if EmptyCommit(t, req) {
      WrittenCarries(SweptFor(t, req), files);
      WrittenPlaces(SweptFor(t, req), files);
      forall p | p in t && UnderSome(p, req.trees) ensures p in Places(files) {
        if p in SweptFor(t, req) {
          KeptAreListed(p, req);
        }
      }
    }
  }

  /** A request no empty tree can take is one no tree can take. */
  lemma UnwritableEverywhere(t: Tree, req: Request)
    requires !Writable(map[], req.Files())
    ensures !Writable(SweptFor(t, req), req.Files())
  {
    if Writable(SweptFor(t, req), req.Files()) {
      WritableIntoLess(map[], SweptFor(t, req), req.Files());
    }
  }

  /** The tree that holds the publish set and nothing else, swept and rewritten, is itself. */
  lemma DeliveredOfOwnTree(req: Request)
    ensures Delivered(Written(map[], req.Files()), req) == Written(map[], req.Files())
  {
    var files := req.Files();
    var t := Written(map[], files);
    WrittenPlaces(map[], files);
    WrittenOverSubset(SweptFor(t, req), map[], files);
  }

  lemma {:induction false} WrittenOverSubset(s: Tree, t: Tree, files: seq<File>)
    requires t.Keys <= s.Keys <= t.Keys + Places(files)
    requires forall p :: p in t && p !in Places(files) ==> s[p] == t[p]
    ensures Written(s, files) == Written(t, files)
  {
    WrittenPlaces(s, files);
    WrittenPlaces(t, files);
    forall p: Path ensures Lookup(Written(s, files), p) == Lookup(Written(t, files), p) {
      if p in Places(files) {
        WrittenForgets(s, t, files, p);
      } else {
        WrittenElsewhere(s, files, p);
        WrittenElsewhere(t, files, p);
      }
    }
    SameLookups(Written(s, files), Written(t, files));
  }

  /** What a written place holds does not depend on what was there. */
  lemma {:induction false} WrittenForgets(s: Tree, t: Tree, files: seq<File>, p: Path)
    requires p in Places(files)
    ensures Lookup(Written(s, files), p) == Lookup(Written(t, files), p)
    decreases |files|
  {
    var q, d := Place(files[0]), files[0].data;
    if p in Places(files[1..]) {
      WrittenForgets(s[q := d], t[q := d], files[1..], p);
    } else {
      var f :| f in files && Place(f) == p;
      assert f == files[0] by { assert f !in files[1..]; }
      WrittenElsewhere(s[q := d], files[1..], p);
      WrittenElsewhere(t[q := d], files[1..], p);
    }
  }

  /** No base whatever leads to an empty commit exactly when the request is well
      spelled and consistent - or can never be written at all. */
  lemma NoEmptyCommitIff(req: Request)
    requires forall f :: f in req.Files() ==> Place(f) != []
    ensures (forall t :: WellFormed(t) ==> !EmptyCommit(t, req))
       <==> (!Writable(map[], req.Files()) || (WellSpelled(req) && Consistent(req.Files())))
  {
    var files := req.Files();
    if !Writable(map[], files) {
      forall t | WellFormed(t) ensures !EmptyCommit(t, req) { UnwritableEverywhere(t, req); }
    } else if WellSpelled(req) && Consistent(files) {
      forall t | WellFormed(t) ensures !EmptyCommit(t, req) {
        EmptyCommitOn(t, req);
        BaseTestDecidesDesired(t, req);
      }
    } else {
      EmptyCommitWitness(req);
    }
  }

  lemma EmptyCommitWitness(req: Request)
    requires forall f :: f in req.Files() ==> Place(f) != []
    requires Writable(map[], req.Files())
    requires !WellSpelled(req) || !Consistent(req.Files())
    ensures var t := Written(map[], req.Files()); WellFormed(t) && EmptyCommit(t, req)
  {
    var files := req.Files();
    var t := Written(map[], files);
    WritingKeepsWellFormed(map[], files);
    WrittenPlaces(map[], files);
    DeliveredOfOwnTree(req);
    WritableInPlace(t, files);
    WritableIntoLess(SweptFor(t, req), t, files);
    if !Consistent(files) {
      var f, g :| f in files && g in files && Place(f) == Place(g) && f.data != g.data;
      assert !(Lookup(t, Place(f)) == Some(f.data) && Lookup(t, Place(g)) == Some(g.data));
      assert !Carries(t, files);
    } else {
      var f :| f in files && UnderSome(Place(f), req.trees) && Spelling(Place(f)) !in Keep(files);
      assert Place(f) in t && Place(f) !in SweptFor(t, req);
    }
  }

  /** One such input: a doubled slash under the reconciled tree, over a tree that already
      carries the file. It passes the allowlist. */
  lemma EmptyCommitExample()
    ensures var req := Request(File("x//a", [1]), [], ["x"]);
      var t: Tree := map[["x", "a"] := [1]];
      && RequestWithin(req, ["x"])
      && WellFormed(t) && Desired(t, req) && EmptyCommit(t, req)
  {
    DoubledSlash();
    PlainIsWithin("x", ["x"]);
    RespelledIsSwept(File("x//a", [1]), "x", ["x", "a"]);
  }

  /** A file under its own request's tree in other than the normal spelling: over a tree that
      already carries it, the sweep deletes it and the write puts it back. */
  lemma RespelledIsSwept(f: File, tree: string, p: Path)
    requires Place(f) == p && f.rel != Spelling(p) && StrictlyUnder(p, Parts(tree)) && p != []
    requires Within(tree, [tree]) && !IsAbsolute(f.rel) && ".." !in p
    ensures var req := Request(f, [], [tree]);
      var t: Tree := map[p := f.data];
      RequestWithin(req, [tree]) && WellFormed(t) && Desired(t, req) && EmptyCommit(t, req)
  {
    var req := Request(f, [], [tree]);
    var t: Tree := map[p := f.data];
    InsideIsUpwardClosed(Parts(tree), p, [tree]);
    assert req.Files() == [f] && f in req.Files();
    assert UnderSome(p, req.trees) by { assert req.trees[0] == tree; }
    assert IsStale(p, req.trees, Keep(req.Files()));
    assert p !in SweptFor(t, req);
    EmptyCommitOn(t, req);
  }

  lemma DoubledSlash()
    ensures Parts("x") == ["x"] && Parts("x//a") == ["x", "a"] && Spelling(["x", "a"]) == "x/a"
  {
    assert "x//a" == "x" + ['/'] + "/a" && "/a" == "" + ['/'] + "a";
    SplitAppend("x", "/a", '/');
    SplitAppend("", "a", '/');
    SplitPlain("x", '/');
    SplitPlain("", '/');
    SplitPlain("a", '/');
    assert Split("x//a", '/') == ["x", "", "a"];
    assert ["x", "", "a"][1..] == ["", "a"] && ["", "a"][1..] == ["a"];
    assert Join(["x", "a"][1..], '/') == "a";
  }

  // ----- The frame --------------------------------------------------------

  /** Every path of the request passed the allowlist. */
  predicate RequestWithin(req: Request, prefixes: seq<string>) {
    && (forall f :: f in req.Files() ==> Within(f.rel, prefixes))
    && (forall tr :: tr in req.trees ==> Within(tr, prefixes))
  }

  /** Two trees agree on everything the operator owns. */
  ghost predicate SameOutside(s: Tree, t: Tree, prefixes: seq<string>) {
    forall p: Path :: !Inside(p, prefixes) ==> Lookup(s, p) == Lookup(t, p)
  }

  /** Whatever it sweeps and writes, an accepted request stays inside its trees. */
  lemma PublishFrame(t: Tree, req: Request, prefixes: seq<string>)
    requires RequestWithin(req, prefixes)
    ensures SameOutside(t, Delivered(t, req), prefixes)
  {
    forall p: Path | !Inside(p, prefixes) ensures Lookup(t, p) == Lookup(Delivered(t, req), p) {
      forall f | f in req.Files() ensures Place(f) != p {
        assert Within(f.rel, prefixes);
      }
      forall i | 0 <= i < |req.trees| ensures !StrictlyUnder(p, Parts(req.trees[i])) {
        assert Within(req.trees[i], prefixes);
        if StrictlyUnder(p, Parts(req.trees[i])) {
          InsideIsUpwardClosed(Parts(req.trees[i]), p, prefixes);
        }
      }
      WrittenElsewhere(SweptFor(t, req), req.Files(), p);
    }
  }

  // ----- Removal ----------------------------------------------------------

  predicate UnderAny(p: Path, rels: seq<string>) {
    exists i :: 0 <= i < |rels| && AtOrUnder(p, Parts(rels[i]))
  }

  /** `(workdir / rel).exists()`. */
  predicate Exists(t: Tree, rel: string) { exists p :: p in t && AtOrUnder(p, Parts(rel)) }

  /** `git rm -r` of whichever of the paths are there. */
  function Removed(t: Tree, rels: seq<string>): Tree {
    map p | p in t && !UnderAny(p, rels) :: t[p]
  }

  /** A removal changes the tree exactly when one of its paths was there. */
  lemma RemovalChanges(t: Tree, rels: seq<string>)
    ensures Removed(t, rels) != t <==> exists rel :: rel in rels && Exists(t, rel)
  {
    if rel :| rel in rels && Exists(t, rel) {
      var p :| p in t && AtOrUnder(p, Parts(rel));
      var i :| 0 <= i < |rels| && rels[i] == rel;
      assert UnderAny(p, rels);
      assert p !in Removed(t, rels);
    }
    if Removed(t, rels) != t {
      assert exists p :: p in t && UnderAny(p, rels);
      var p :| p in t && UnderAny(p, rels);
      var i :| 0 <= i < |rels| && AtOrUnder(p, Parts(rels[i]));
      assert Exists(t, rels[i]);
    }
  }

  lemma RemovalFrame(t: Tree, rels: seq<string>, prefixes: seq<string>)
    requires forall rel :: rel in rels ==> Within(rel, prefixes)
    ensures SameOutside(t, Removed(t, rels), prefixes)
  {
    forall p: Path | !Inside(p, prefixes) ensures Lookup(t, p) == Lookup(Removed(t, rels), p) {
      forall i | 0 <= i < |rels| ensures !AtOrUnder(p, Parts(rels[i])) {
        assert Within(rels[i], prefixes);
        if AtOrUnder(p, Parts(rels[i])) {
          InsideIsUpwardClosed(Parts(rels[i]), p, prefixes);
        }
      }
    }
  }

  /** Removing what a publish added gives the tree back exactly when the tree held
      nothing under the removed paths, the sweep had nothing to delete, and every file
      written elsewhere was already there. */
  lemma PublishThenRemove(t: Tree, req: Request, rels: seq<string>)
    requires WellSpelled(req) && Consistent(req.Files())
    ensures Removed(Delivered(t, req), rels) == t <==>
      && Removed(t, rels) == t
      && SweptFor(t, req) == t
      && (forall f :: f in req.Files() && !UnderAny(Place(f), rels) ==> Lookup(t, Place(f)) == Some(f.data))
  {
    var files := req.Files();
    var r := Removed(Delivered(t, req), rels);
    WrittenCarries(SweptFor(t, req), files);
    if r == t {
      forall f | f in files && !UnderAny(Place(f), rels) ensures Lookup(t, Place(f)) == Some(f.data) {
        assert Lookup(Delivered(t, req), Place(f)) == Some(f.data);
      }
      SweepHadNothing(t, req, rels);
    }
    if Removed(t, rels) == t && SweptFor(t, req) == t
       && (forall f :: f in files && !UnderAny(Place(f), rels) ==> Lookup(t, Place(f)) == Some(f.data)) {
      forall p: Path ensures Lookup(r, p) == Lookup(t, p) {
        assert p in t ==> p in Removed(t, rels);
        if p !in Places(files) {
          WrittenElsewhere(t, files, p);
        }
      }
      SameLookups(r, t);
    }
  }

  lemma SweepHadNothing(t: Tree, req: Request, rels: seq<string>)
    requires WellSpelled(req) && Removed(Delivered(t, req), rels) == t
    ensures SweptFor(t, req) == t
  {
    var files := req.Files();
    forall p | p in t ensures !IsStale(p, req.trees, Keep(files)) {
      assert p in Delivered(t, req);
      WrittenPlaces(SweptFor(t, req), files);
      if p in Places(files) {
        var f :| f in files && Place(f) == p;
        assert UnderSome(Place(f), req.trees) ==> Spelling(p) in Keep(files);
      }
    }
  }
}
