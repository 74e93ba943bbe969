/** What each row of the Backups page says, field by field, in the record's and the cluster's
    own terms (control-plane/nexus/plugin_api.py:2472-2496, 2575-2698, 2701-2893, 3061-3072). */
module BackupRows {
  import opened Wrappers
  import opened Levels
  import opened Plans
  import opened Sorting
  import opened Routines
  import opened Backups
  import opened BackupsDot
  import opened BackupClaims

  // ----- The platform record ----------------------------------------------

  /** A row of the control plane's own, restored by the platform's hook. */
  predicate PlatformSays(row: Row, id: string, ns: string, state: RowState, level: Level, artifact: Artifact) {
    && row.id == id && row.namespace == ns && row.component.None? && row.group == Some("control-plane")
    && row.bundle.None? && row.runs == [] && row.restore == ByHook && row.sink.None?
    && row.state == state && row.level == level && row.artifact == artifact
  }

  /** No platform backup: one red row, and the dot is red and names it. */
  lemma NeverTakenIsRed(f: Facts, jobs: seq<Job>, membership: seq<Bundle>)
    requires f.platform.None? || f.platform.value.backupId == ""
    ensures var view := ViewOf(f, jobs, membership);
      && (exists row :: row in view.routines
                         && PlatformSays(row, "platform/archive", "", NeverTaken, Unhealthy, Unmeasured))
      && RollupOf(Some(view)).level == Unhealthy && "platform/archive" in RollupOf(Some(view)).members
  {
    var missing := PlatformRowsOf(f)[0];
    assert PlatformRowsOf(f) == [missing] && missing.id == "platform/archive";
    MissingIsThere(f, jobs, membership, missing);
    RedRowIsNamed(ViewOf(f, jobs, membership), missing);
  }

  lemma MissingIsThere(f: Facts, jobs: seq<Job>, membership: seq<Bundle>, missing: Row)
    requires PlatformRowsOf(f) == [missing] && missing.namespace == ""
    requires missing.id != "" && missing.id[0] == 'p'
    ensures missing in ViewOf(f, jobs, membership).routines
  {
    var index := BundleIndex(membership);
    JoinsAsItself(f, index, SinksOf(f.cronjobs), CronRows(f, jobs, index, f.cronjobs), [], missing);
    assert [] + [missing] == [missing];
    SortedHasTheSame(WorstFirst, RowsOf(f, jobs, membership));
  }

  lemma JoinsAsItself(f: Facts, index: map<string, string>, sinks: Sinks, rows: seq<Row>, more: seq<Row>, row: Row)
    requires forall k :: k in sinks ==> sinks[k] < |rows|
    requires row.id != "" && row.id[0] == 'p' && row.namespace == ""
    ensures row in JoinedAll(f, index, sinks, rows, more + [row])
  {
    assert (more + [row])[..|more|] == more;
    assert "ephemeral/"[0] == 'e';
    assert WithoutPrefix(row.id, "ephemeral/") == row.id;
  }

  lemma RedRowIsNamed(view: View, row: Row)
    requires row in view.routines && row.level == Unhealthy
    ensures RollupOf(Some(view)).level == Unhealthy && row.id in RollupOf(Some(view)).members
  {
    DotNamesEveryProblem(view, row.id);
    var i :| 0 <= i < |view.routines| && view.routines[i] == row;
    assert Accuses(view.routines, row.id);
    RowLevelAt(view.routines, i);
    WorstIsTheMaximum(DotLevels(view), WorstOf(DotLevels(view)));
    assert Unhealthy in DotLevels(view);
  }

  lemma {:induction false} RowLevelAt(rows: seq<Row>, i: nat)
    requires i < |rows|
    ensures rows[i].level in LevelsOf(rows)
    decreases |rows|
  {
    if i > 0 {
      RowLevelAt(rows[1..], i - 1);
    }
  }

  lemma {:induction false} NamedAre(cs: seq<Archived>)
    ensures forall c :: c in Named(cs) <==> c in cs && c.name != ""
    decreases |cs|
  {
    if cs != [] {
      NamedAre(cs[..|cs| - 1]);
      assert cs == cs[..|cs| - 1] + [cs[|cs| - 1]];
    }
  }

  /** The archive's row: green only when restored and fresh, called restorable only when restored. */
  predicate ArchiveSays(row: Row, name: string, restorable: bool, stale: bool) {
    PlatformSays(row, "platform/" + name, "", ArchiveTaken, if restorable && !stale then Healthy else Unknown,
                 if restorable then Restorable else Available)
  }

  /** One component's row, if it has one: the host archive, or a declarative claim that is not an
      Application's own. */
  ghost predicate ComponentSays(row: Row, c: Archived, restorable: bool, stale: bool) {
    || (c.class_.HostArchive? && ArchiveSays(row, c.name, restorable, stale))
    || (c.class_.Declarative? && !("argocd-application/" <= c.name)
        && PlatformSays(row, "platform/" + c.name, "", DeclaredOnly, if stale then Unknown else Healthy, Declared))
  }

  predicate LedgerSays(row: Row, e: LedgerEntry) {
    && e.claim != ""
    && PlatformSays(row, "ephemeral/" + Clip(e.claim), Clip(e.namespace), ByDesign, Healthy, EphemeralByDesign)
  }

  lemma {:induction false} ComponentRowsAre(cs: seq<Archived>, restorable: bool, stale: bool, row: Row)
    ensures row in ComponentRows(cs, restorable, stale) <==>
            exists c :: c in cs && ComponentSays(row, c, restorable, stale)
    decreases |cs|
  {
    if cs != [] {
      var front, last := cs[..|cs| - 1], cs[|cs| - 1];
      assert cs == front + [last];
      ComponentRowsAre(front, restorable, stale, row);
      OneComponentRow(last, restorable, stale, row);
    }
  }

  lemma OneComponentRow(c: Archived, restorable: bool, stale: bool, row: Row)
    ensures row in ComponentRow(c, restorable, stale) <==> ComponentSays(row, c, restorable, stale)
  {
    assert "argocd-application/" <= c.name <==> WithoutPrefix(c.name, "argocd-application/") != c.name by {
      assert |"argocd-application/"| == 19;
    }
  }

  lemma {:induction false} LedgerRowsAre(entries: seq<LedgerEntry>, row: Row)
    ensures row in LedgerRows(entries) <==> exists e :: e in entries && LedgerSays(row, e)
    decreases |entries|
  {
    if entries != [] {
      var front, last := entries[..|entries| - 1], entries[|entries| - 1];
      assert entries == front + [last];
      LedgerRowsAre(front, row);
      OneLedgerRow(last, row);
    }
  }

  lemma OneLedgerRow(e: LedgerEntry, row: Row)
    ensures row in LedgerRows([e]) <==> LedgerSays(row, e)
    ensures forall front: seq<LedgerEntry> :: LedgerRows(front + [e]) == LedgerRows(front) + LedgerRows([e])
  {
    assert [e][..0] == [];
    forall front: seq<LedgerEntry> ensures LedgerRows(front + [e]) == LedgerRows(front) + LedgerRows([e]) {
      assert (front + [e])[..|front|] == front;
    }
  }

  /** The rows of a platform record: one for every archived or declared component among the first
      200 named ones, one for every named claim among the first 50 of the ledger, and an archive
      row in any case, to carry the restore verdict. */
  lemma RecordRowsAre(f: Facts, row: Row)
    requires f.platform.Some? && f.platform.value.backupId != ""
    ensures var p, stale := f.platform.value, Outdated(f, f.platform.value);
      var recorded := if |Named(p.components)| > 200 then Named(p.components)[..200] else Named(p.components);
      var ledger := if |p.ledger| > 50 then p.ledger[..50] else p.ledger;
      row in PlatformRowsOf(f) <==>
        || (exists c :: c in recorded && ComponentSays(row, c, p.restorable, stale))
        || ((forall c :: c in recorded ==> !c.class_.HostArchive?) && ArchiveSays(row, "archive", p.restorable, stale))
        || (exists e :: e in ledger && LedgerSays(row, e))
  {
    var p, stale := f.platform.value, Outdated(f, f.platform.value);
    ComponentRowsAre(Listed(p), p.restorable, stale, row);
    LedgerRowsAre(LedgerOf(p), row);
    CapsAre(p);
    assert row in Carrier(p, stale) <==> !HasHostArchive(Listed(p)) && ArchiveSays(row, "archive", p.restorable, stale);
  }

  lemma CapsAre(p: Record)
    ensures Listed(p) == if |Named(p.components)| > 200 then Named(p.components)[..200] else Named(p.components)
    ensures LedgerOf(p) == if |p.ledger| > 50 then p.ledger[..50] else p.ledger
  {
    assert Named(p.components)[..|Named(p.components)|] == Named(p.components);
    assert p.ledger[..|p.ledger|] == p.ledger;
  }

  lemma ClipIs(text: string)
    ensures |text| <= 120 ==> Clip(text) == text
    ensures |text| > 120 ==> |Clip(text)| == 120 && Clip(text)[..119] == text[..119] && Clip(text)[119] == '\U{2026}'
  {
  }

  // ----- Bundles ----------------------------------------------------------

  predicate Claims(b: Bundle, ns: string) { (ns != "" && b.namespace == ns) || ns in b.memberNamespaces }

  lemma {:induction false} ClaimAllIs(index: map<string, string>, namespaces: seq<string>, name: string, ns: string)
    ensures BundleAt(ClaimAll(index, namespaces, name), ns)
         == if ns in namespaces then Some(name) else BundleAt(index, ns)
    decreases |namespaces|
  {
    if namespaces != [] {
      assert namespaces == namespaces[..|namespaces| - 1] + [namespaces[|namespaces| - 1]];
      ClaimAllIs(index, namespaces[..|namespaces| - 1], name, ns);
    }
  }

  /** A namespace belongs to the last bundle that claims it, as its own or as a member's. */
  ghost predicate ClaimedLastBy(membership: seq<Bundle>, ns: string, name: string) {
    exists i :: 0 <= i < |membership| && Claims(membership[i], ns) && membership[i].name == name
      && forall j :: i < j < |membership| ==> !Claims(membership[j], ns)
  }

  lemma {:induction false} BundleIs(membership: seq<Bundle>, ns: string, name: string)
    ensures BundleAt(BundleIndex(membership), ns) == Some(name) <==> ClaimedLastBy(membership, ns, name)
    decreases |membership|
  {
    if membership != [] {
      var last := |membership| - 1;
      var front, b := membership[..last], membership[last];
      BundleIs(front, ns, name);
      var before := BundleIndex(front);
      ClaimAllIs(if b.namespace != "" then before[b.namespace := b.name] else before, b.memberNamespaces, b.name, ns);
      assert BundleAt(BundleIndex(membership), ns) == if Claims(b, ns) then Some(b.name) else BundleAt(before, ns);
      if !Claims(b, ns) {
        ClaimedBefore(membership, ns, name);
      }
    }
  }

  lemma ClaimedBefore(membership: seq<Bundle>, ns: string, name: string)
    requires membership != [] && !Claims(membership[|membership| - 1], ns)
    ensures ClaimedLastBy(membership[..|membership| - 1], ns, name) <==> ClaimedLastBy(membership, ns, name)
  {
    var last := |membership| - 1;
    var front := membership[..last];
    assert forall j :: 0 <= j < last ==> front[j] == membership[j];
    if ClaimedLastBy(front, ns, name) {
      var i :| 0 <= i < last && Claims(front[i], ns) && front[i].name == name
               && forall j :: i < j < last ==> !Claims(front[j], ns);
      assert Claims(membership[i], ns);
    }
    if ClaimedLastBy(membership, ns, name) {
      var i :| 0 <= i < |membership| && Claims(membership[i], ns) && membership[i].name == name
               && forall j :: i < j < |membership| ==> !Claims(membership[j], ns);
      assert Claims(front[i], ns);
    }
  }

  /** An uncovered component is shelved under the bundle of the first claimed namespace it runs in. */
  lemma {:induction false} FirstClaimedIs(index: map<string, string>, namespaces: seq<string>)
    ensures FirstClaimed(index, namespaces).None? <==>
            forall i :: 0 <= i < |namespaces| ==> namespaces[i] == "" || BundleAt(index, namespaces[i]).None?
    ensures FirstClaimed(index, namespaces).Some? ==>
            exists i :: 0 <= i < |namespaces| && namespaces[i] != ""
              && BundleAt(index, namespaces[i]) == FirstClaimed(index, namespaces)
              && forall j :: 0 <= j < i ==> namespaces[j] == "" || BundleAt(index, namespaces[j]).None?
    decreases |namespaces|
  {
    if namespaces != [] && (namespaces[0] == "" || namespaces[0] !in index) {
      FirstClaimedIs(index, namespaces[1..]);
      assert forall i :: 0 < i < |namespaces| ==> namespaces[i] == namespaces[1..][i - 1];
      if FirstClaimed(index, namespaces).Some? {
        var rest := namespaces[1..];
        var i :| 0 <= i < |rest| && rest[i] != "" && BundleAt(index, rest[i]) == FirstClaimed(index, rest)
                 && forall j :: 0 <= j < i ==> rest[j] == "" || BundleAt(index, rest[j]).None?;
        assert namespaces[i + 1] == rest[i];
      }
    }
  }

  // ----- One routine's row ------------------------------------------------

  /** The view gives a component a parent: the last node of it that names one. */
  ghost predicate ParentedBy(nodes: seq<Node>, ref: string, parent: string) {
    exists i :: 0 <= i < |nodes| && Names(nodes[i], ref) && nodes[i].parent == parent
      && forall j :: i < j < |nodes| ==> !Names(nodes[j], ref)
  }

  predicate Names(n: Node, ref: string) { n.ref == ref && n.parent != "" }

  lemma {:induction false} ParentIs(nodes: seq<Node>, ref: string, parent: string)
    requires parent != ""
    ensures ParentOf(nodes, ref) == parent <==> ParentedBy(nodes, ref, parent)
    decreases |nodes|
  {
    if nodes != [] {
      var last := |nodes| - 1;
      var front, n := nodes[..last], nodes[last];
      ParentIs(front, ref, parent);
      if Names(n, ref) {
        assert n.parent == parent ==> Names(nodes[last], ref) && nodes[last].parent == parent;
      } else {
        ParentedBefore(nodes, ref, parent);
      }
    }
  }

  lemma ParentedBefore(nodes: seq<Node>, ref: string, parent: string)
    requires nodes != [] && !Names(nodes[|nodes| - 1], ref)
    ensures ParentedBy(nodes[..|nodes| - 1], ref, parent) <==> ParentedBy(nodes, ref, parent)
  {
    var last := |nodes| - 1;
    var front := nodes[..last];
    assert forall j :: 0 <= j < last ==> front[j] == nodes[j];
    if ParentedBy(front, ref, parent) {
      var i :| 0 <= i < last && Names(front[i], ref) && front[i].parent == parent
               && forall j :: i < j < last ==> !Names(front[j], ref);
      assert Names(nodes[i], ref);
    }
    if ParentedBy(nodes, ref, parent) {
      var i :| 0 <= i < |nodes| && Names(nodes[i], ref) && nodes[i].parent == parent
               && forall j :: i < j < |nodes| ==> !Names(nodes[j], ref);
      assert Names(front[i], ref);
    }
  }

  /** The group of a routine: its owner's parent in the view; without an owner, the control plane
      in the control plane's namespaces; else none. */
  lemma GroupIs(f: Facts, ns: string, owner: Option<string>, group: string)
    requires group != ""
    ensures GroupOf(f, ns, owner) == Some(group) <==>
      || (owner.Some? && ParentedBy(f.plan.nodes, owner.value, group))
      || (owner.None? && ns in f.controlPlane && group == "control-plane")
  {
    if owner.Some? {
      ParentIs(f.plan.nodes, owner.value, group);
    }
  }

  /** What the last platform backup found of a routine: the verdict of the whole record, under its
      owner's name or its namespace's profile; unmeasured when the record does not list it. */
  predicate Archives(cs: seq<Archived>, profile: string, routine: string) {
    exists i :: 0 <= i < |cs| && cs[i].class_ == VolumeArchive && cs[i].profile != "" && cs[i].routine != ""
      && cs[i].profile + "/" + cs[i].routine == profile + "/" + routine
  }

  lemma {:induction false} ArtifactKeys(cs: seq<Archived>, restorable: bool, profile: string, routine: string)
    ensures profile + "/" + routine in Artifacts(cs, restorable) <==> Archives(cs, profile, routine)
    decreases |cs|
  {
    if cs != [] {
      var last := |cs| - 1;
      ArtifactKeys(cs[..last], restorable, profile, routine);
      assert forall i :: 0 <= i < last ==> cs[..last][i] == cs[i];
    }
  }

  lemma ArtifactIs(f: Facts, cj: CronJob)
    ensures var owner := Owner(f, cj.namespace, cj.name);
      var who := if owner.Some? then owner.value else "None";
      var ns := if "hermes-" <= cj.namespace then cj.namespace[7..] else cj.namespace;
      var listed := f.platform.Some? &&
        (Archives(f.platform.value.components, who, cj.name) || Archives(f.platform.value.components, ns, cj.name));
      ArtifactOf(f, cj) == if !listed then Unmeasured else if f.platform.value.restorable then Restorable else Available
  {
    var owner := Owner(f, cj.namespace, cj.name);
    var ns := if "hermes-" <= cj.namespace then cj.namespace[7..] else cj.namespace;
    assert WithoutPrefix(cj.namespace, "hermes-") == ns;
    if f.platform.Some? {
      var p := f.platform.value;
      ArtifactKeys(p.components, p.restorable, if owner.Some? then owner.value else "None", cj.name);
      ArtifactKeys(p.components, p.restorable, ns, cj.name);
      ArtifactsShareTheVerdict(p.components, p.restorable);
    }
  }

  /** The plain fields of a routine's row. */
  lemma RoutineSays(f: Facts, jobs: seq<Job>, membership: seq<Bundle>, cj: CronJob)
    ensures var row := CronRow(f, jobs, BundleIndex(membership), cj);
      && row.id == cj.namespace + "/" + cj.name && row.namespace == cj.namespace
      && row.component == Owner(f, cj.namespace, cj.name) && row.group == GroupOf(f, cj.namespace, row.component)
      && row.runs == RunsOf(jobs, cj.namespace, cj.name) && row.artifact == ArtifactOf(f, cj) && row.sink.None?
      && (row.restore == ByHook <==> cj.restoreHook)
      && (row.restore == Unsupported <==> !CanBePutBack(cj))
      && (forall name :: row.bundle == Some(name) <==> ClaimedLastBy(membership, cj.namespace, name))
  {
    forall name ensures BundleAt(BundleIndex(membership), cj.namespace) == Some(name) <==>
                        ClaimedLastBy(membership, cj.namespace, name)
    {
      BundleIs(membership, cj.namespace, name);
    }
  }

  // ----- Runs -------------------------------------------------------------

  lemma {:induction false} OwnedAre(jobs: seq<Job>, ns: string, routine: string, j: Job)
    ensures j in OwnedBy(jobs, ns, routine) <==>
            ns != "" && routine != "" && j in jobs && j.namespace == ns && j.owner == routine
    decreases |jobs|
  {
    if jobs != [] {
      assert jobs == jobs[..|jobs| - 1] + [jobs[|jobs| - 1]];
      OwnedAre(jobs[..|jobs| - 1], ns, routine, j);
    }
  }

  lemma NewestFirstIsTotal()
    ensures IsTotalOrder(NewestFirst)
  {
    StringsAreTotallyOrdered();
  }

  /** The runs shown are the routine's own Jobs, newest first, at most ten, and none left out is
      newer than one shown. */
  lemma RunsAre(jobs: seq<Job>, ns: string, routine: string)
    ensures var runs := RunsOf(jobs, ns, routine);
      && |runs| <= 10
      && (forall j :: j in runs ==> j in jobs && j.namespace == ns && j.owner == routine)
      && (forall i, k :: 0 <= i < k < |runs| ==> AtMost(runs[k].startedAt, runs[i].startedAt))
      && (forall j :: j in jobs && ns != "" && routine != "" && j.namespace == ns && j.owner == routine ==>
            j in runs || (|runs| == 10 && forall i :: 0 <= i < 10 ==> AtMost(j.startedAt, runs[i].startedAt)))
  {
    var owned := OwnedBy(jobs, ns, routine);
    var all, runs := SortedBy(NewestFirst, owned), RunsOf(jobs, ns, routine);
    NewestFirstIsTotal();
    SortedIsInOrder(NewestFirst, owned);
    SortedHasTheSame(NewestFirst, owned);
    forall j ensures j in all <==> ns != "" && routine != "" && j in jobs && j.namespace == ns && j.owner == routine {
      OwnedAre(jobs, ns, routine, j);
    }
    assert runs <= all;
    forall j | j in all && j !in runs
      ensures |runs| == 10 && forall i :: 0 <= i < 10 ==> AtMost(j.startedAt, runs[i].startedAt)
    {
      var k :| 0 <= k < |all| && all[k] == j;
      assert k >= |runs|;
      assert forall i :: 0 <= i < |runs| ==> runs[i] == all[i] && NewestFirst(all[i], all[k]);
    }
  }

  // ----- Sinks and attribution --------------------------------------------

  lemma {:induction false} SinkClaimIs(volumes: seq<Volume>)
    ensures (exists i :: 0 <= i < |volumes| && volumes[i].name == "backups"
               && volumes[i].claim == SinkClaim(volumes) && forall j :: 0 <= j < i ==> volumes[j].name != "backups")
         || (SinkClaim(volumes) == "" && forall i :: 0 <= i < |volumes| ==> volumes[i].name != "backups")
    decreases |volumes|
  {
    if volumes != [] && volumes[0].name != SINK_VOLUME {
      var rest := volumes[1..];
      SinkClaimIs(rest);
      assert forall i :: 0 < i < |volumes| ==> volumes[i] == rest[i - 1];
      if i :| 0 <= i < |rest| && rest[i].name == "backups" && rest[i].claim == SinkClaim(rest)
              && forall j :: 0 <= j < i ==> rest[j].name != "backups" {
        assert volumes[i + 1] == rest[i];
      }
    }
  }

  predicate Fills(cj: CronJob, ns: string, claim: string) {
    SinkClaim(cj.volumes) != "" && cj.namespace == ns && Clip(SinkClaim(cj.volumes)) == claim
  }

  /** A sink belongs to the last routine that writes to it. */
  lemma {:induction false} SinksAre(cjs: seq<CronJob>, ns: string, claim: string)
    ensures (ns, claim) in SinksOf(cjs) <==> exists i :: 0 <= i < |cjs| && Fills(cjs[i], ns, claim)
    ensures (ns, claim) in SinksOf(cjs) ==>
            && Fills(cjs[SinksOf(cjs)[(ns, claim)]], ns, claim)
            && forall j :: SinksOf(cjs)[(ns, claim)] < j < |cjs| ==> !Fills(cjs[j], ns, claim)
    decreases |cjs|
  {
    if cjs != [] {
      var last := |cjs| - 1;
      SinksAre(cjs[..last], ns, claim);
      assert forall i :: 0 <= i < last ==> cjs[..last][i] == cjs[i];
    }
  }

  /** A platform row that joins as its own keeps all it says; one in a namespace of its own, outside
      the control plane's, takes that namespace's bundle - then leaving its group - and its owner. */
  lemma AttributedIs(f: Facts, membership: seq<Bundle>, row: Row)
    ensures var a := Attributed(f, BundleIndex(membership), row);
      && a == row.(group := a.group, bundle := a.bundle, component := a.component)
      && (row.namespace == "" || row.namespace in f.controlPlane ==> a == row)
      && (row.namespace != "" && row.namespace !in f.controlPlane ==>
            && a.component == Owner(f, row.namespace, row.id)
            && (forall name :: a.bundle == Some(name) <==> ClaimedLastBy(membership, row.namespace, name))
            && a.group == if a.bundle.Some? then None else row.group)
  {
    forall name ensures BundleAt(BundleIndex(membership), row.namespace) == Some(name) <==>
                        ClaimedLastBy(membership, row.namespace, name)
    {
      BundleIs(membership, row.namespace, name);
    }
  }

  lemma PrefixIs(id: string, claim: string)
    ensures id == "ephemeral/" + claim <==>
            WithoutPrefix(id, "ephemeral/") != id && WithoutPrefix(id, "ephemeral/") == claim
  {
    if |id| >= 10 && id[..10] == "ephemeral/" {
      assert id == "ephemeral/" + id[10..];
    }
  }

  /** A ledger row whose sink routine `i` fills. */
  predicate FoldsAt(sinks: Sinks, m: Row, claim: string, i: nat) {
    m.id == "ephemeral/" + claim && (m.namespace, claim) in sinks && sinks[(m.namespace, claim)] == i
  }

  lemma FoldsIff(sinks: Sinks, m: Row)
    ensures FoldsOnto(sinks, m) <==> exists claim, i :: FoldsAt(sinks, m, claim, i)
    ensures FoldsOnto(sinks, m) ==>
      var claim := WithoutPrefix(m.id, "ephemeral/"); FoldsAt(sinks, m, claim, sinks[(m.namespace, claim)])
  {
    var cut := WithoutPrefix(m.id, "ephemeral/");
    PrefixIs(m.id, cut);
    if FoldsOnto(sinks, m) {
      assert FoldsAt(sinks, m, cut, sinks[(m.namespace, cut)]);
    }
    if claim, i :| FoldsAt(sinks, m, claim, i) {
      PrefixIs(m.id, claim);
    }
  }

  /** Every routine keeps its row but for the sink, and every platform row that does not fold joins
      as its own, in order. */
  lemma {:induction false} JoinedKeeps(f: Facts, index: map<string, string>, sinks: Sinks, rows: seq<Row>,
                                       more: seq<Row>)
    requires forall k :: k in sinks ==> sinks[k] < |rows|
    ensures var out := JoinedAll(f, index, sinks, rows, more);
      && (forall i :: 0 <= i < |rows| ==> out[i].(sink := rows[i].sink) == rows[i])
      && out[|rows|..] == OwnRows(f, index, sinks, more)
    decreases |more|
  {
    var out := JoinedAll(f, index, sinks, rows, more);
    if more == [] {
      assert out[|rows|..] == [];
    } else {
      var front, row := more[..|more| - 1], more[|more| - 1];
      JoinedKeeps(f, index, sinks, rows, front);
      JoinKeeps(f, index, sinks, rows, JoinedAll(f, index, sinks, rows, front), row);
    }
  }

  lemma JoinKeeps(f: Facts, index: map<string, string>, sinks: Sinks, rows: seq<Row>, before: seq<Row>, row: Row)
    requires |before| >= |rows| && forall k :: k in sinks ==> sinks[k] < |rows|
    requires forall i :: 0 <= i < |rows| ==> before[i].(sink := rows[i].sink) == rows[i]
    ensures var out := Joined(f, index, sinks, before, row);
      && (forall i :: 0 <= i < |rows| ==> out[i].(sink := rows[i].sink) == rows[i])
      && out[|rows|..] == before[|rows|..] + if FoldsOnto(sinks, row) then [] else [Attributed(f, index, row)]
  {
    var out := Joined(f, index, sinks, before, row);
    if FoldsOnto(sinks, row) {
      assert out[|rows|..] == before[|rows|..];
    } else {
      assert out[|rows|..] == before[|rows|..] + [Attributed(f, index, row)];
    }
  }

  /** The rows that join as their own. */
  function OwnRows(f: Facts, index: map<string, string>, sinks: Sinks, more: seq<Row>): seq<Row>
    decreases |more|
  {
    if more == [] then []
    else
      OwnRows(f, index, sinks, more[..|more| - 1])
      + if FoldsOnto(sinks, more[|more| - 1]) then [] else [Attributed(f, index, more[|more| - 1])]
  }

  /** Every routine fills one sink at most. */
  predicate OneSinkEach(sinks: Sinks) { forall k, l :: k in sinks && l in sinks && sinks[k] == sinks[l] ==> k == l }

  lemma {:induction false} RoutinesFillOne(cjs: seq<CronJob>)
    ensures OneSinkEach(SinksOf(cjs))
    decreases |cjs|
  {
    if cjs != [] {
      RoutinesFillOne(cjs[..|cjs| - 1]);
    }
  }

  /** A sink is named on a routine's row exactly when the ledger lists it and that routine fills it. */
  lemma {:induction false} SinkNamedIff(f: Facts, index: map<string, string>, sinks: Sinks, rows: seq<Row>,
                                        more: seq<Row>, i: nat, claim: string)
    requires (forall k :: k in sinks ==> sinks[k] < |rows|) && OneSinkEach(sinks)
    requires i < |rows| && rows[i].sink.None?
    ensures JoinedAll(f, index, sinks, rows, more)[i].sink == Some(claim) <==>
            exists m :: m in more && FoldsAt(sinks, m, claim, i)
    decreases |more|
  {
    if more != [] {
      var front, row := more[..|more| - 1], more[|more| - 1];
      assert more == front + [row];
      SinkNamedIff(f, index, sinks, rows, front, i, claim);
      FoldsIff(sinks, row);
      if FoldsAt(sinks, row, claim, i) {
        PrefixIs(row.id, claim);
      } else if FoldsOnto(sinks, row) && sinks[(row.namespace, WithoutPrefix(row.id, "ephemeral/"))] == i {
        OnlyItsOwn(sinks, front, row, claim, i);
      }
    }
  }

  lemma OnlyItsOwn(sinks: Sinks, more: seq<Row>, row: Row, claim: string, i: nat)
    requires OneSinkEach(sinks) && FoldsOnto(sinks, row) && !FoldsAt(sinks, row, claim, i)
    requires sinks[(row.namespace, WithoutPrefix(row.id, "ephemeral/"))] == i
    ensures forall m :: m in more ==> !FoldsAt(sinks, m, claim, i)
    ensures WithoutPrefix(row.id, "ephemeral/") != claim
  {
    PrefixIs(row.id, WithoutPrefix(row.id, "ephemeral/"));
  }
}
