/** The Backups dot: when it is green, and when the health poll's and the page's agree
    (control-plane/nexus/plugin_api.py:4125-4168, 4299-4311, 4547-4557). */
module BackupsDot {
  import opened Wrappers
  import opened Levels
  import opened Plans
  import opened Sorting
  import opened Routines
  import opened Backups

  datatype Summary =
    | NotYetObserved
    | Attention(members: nat, total: nat)
    | NeverProven(artifacts: nat)
    | AllCurrent(total: nat)

  datatype Dot = Dot(level: Level, summary: Summary, members: seq<string>)

  function LevelsOf(rows: seq<Row>): seq<Level>
    decreases |rows|
  {
    if rows == [] then [] else [rows[0].level] + LevelsOf(rows[1..])
  }

  function UncoveredLevels(rows: seq<Uncovered>): seq<Level>
    decreases |rows|
  {
    if rows == [] then [] else [rows[0].level] + UncoveredLevels(rows[1..])
  }

  function AttentionIds(rows: seq<Row>): seq<string>
    decreases |rows|
  {
    if rows == [] then [] else (if NeedsAttention(rows[0].level) then [rows[0].id] else []) + AttentionIds(rows[1..])
  }

  function UncoveredIds(rows: seq<Uncovered>): seq<string>
    decreases |rows|
  {
    if rows == [] then [] else (if NeedsAttention(rows[0].level) then [rows[0].id] else []) + UncoveredIds(rows[1..])
  }

  function UnprovenIds(rows: seq<Row>): seq<string>
    decreases |rows|
  {
    if rows == [] then [] else (if rows[0].artifact.Available? then [rows[0].id] else []) + UnprovenIds(rows[1..])
  }

  function Missing(ids: seq<string>, listed: seq<string>): seq<string>
    decreases |ids|
  {
    if ids == [] then [] else (if ids[0] in listed then [] else [ids[0]]) + Missing(ids[1..], listed)
  }

  function AllUnknown(n: nat): seq<Level> { seq(n, _ => Unknown) }

  function DotLevels(view: View): seq<Level> {
    LevelsOf(view.routines) + UncoveredLevels(view.unprotected) + AllUnknown(|UnprovenIds(view.routines)|)
  }

  /** `_backups_rollup`; None is a view that could not be built. */
  function RollupOf(view: Option<View>): Dot {
    match view
    case None => Dot(Unknown, NotYetObserved, [])
    case Some(v) =>
      var unproven := Sorted(UnprovenIds(v.routines));
      var level := WorstOf(DotLevels(v));
      var accused := Sorted(AttentionIds(v.routines)) + Sorted(UncoveredIds(v.unprotected));
      var members := accused + Missing(unproven, accused);
      var summary :=
        if members != [] && NeedsAttention(level) then Attention(|members|, |v.routines|)
        else if level.Unknown? then if unproven != [] then NeverProven(|unproven|) else NotYetObserved
        else AllCurrent(|v.routines|);
      Dot(level, summary, members)
  }

  // ----- The dot and the page ---------------------------------------------

  /** What the dot reads of a row. */
  predicate Alike(a: Row, b: Row) {
    a.id == b.id && a.level == b.level && a.artifact == b.artifact && a.namespace == b.namespace
  }

  predicate AllAlike(a: seq<Row>, b: seq<Row>) { |a| == |b| && forall i :: 0 <= i < |a| ==> Alike(a[i], b[i]) }

  predicate SameUncovered(a: seq<Uncovered>, b: seq<Uncovered>) {
    |a| == |b| && forall i :: 0 <= i < |a| ==> a[i].id == b[i].id && a[i].level == b[i].level
  }

  lemma {:induction false} PlacedAlike(x: Row, y: Row, a: seq<Row>, b: seq<Row>)
    requires Alike(x, y) && AllAlike(a, b)
    ensures AllAlike(Placed(WorstFirst, x, a), Placed(WorstFirst, y, b))
    decreases |a|
  {
    if a != [] && !WorstFirst(x, a[0]) {
      PlacedAlike(x, y, a[1..], b[1..]);
    }
  }

  lemma {:induction false} SortedAlike(a: seq<Row>, b: seq<Row>)
    requires AllAlike(a, b)
    ensures AllAlike(SortedBy(WorstFirst, a), SortedBy(WorstFirst, b))
    decreases |a|
  {
    if a != [] {
      SortedAlike(a[1..], b[1..]);
      PlacedAlike(a[0], b[0], SortedBy(WorstFirst, a[1..]), SortedBy(WorstFirst, b[1..]));
    }
  }

  /** One observation read at two times, between which no age crossed its threshold. */
  ghost predicate SameReadings(f: Facts, g: Facts) {
    && g == f.(hoursSince := g.hoursSince)
    && (forall cj :: cj in f.cronjobs ==> StateOf(f, cj) == StateOf(g, cj))
    && (f.platform.Some? ==> Outdated(f, f.platform.value) == Outdated(g, g.platform.value))
  }

  lemma RowAlike(f: Facts, g: Facts, jobs: seq<Job>, jobs': seq<Job>,
                 index: map<string, string>, index': map<string, string>, cj: CronJob)
    requires SameReadings(f, g) && cj in f.cronjobs
    ensures Alike(CronRow(f, jobs, index, cj), CronRow(g, jobs', index', cj))
  {
    assert Residents(f, cj.namespace) == Residents(g, cj.namespace);
  }

  lemma {:induction false} CronRowsAlike(f: Facts, g: Facts, jobs: seq<Job>, jobs': seq<Job>,
                                         index: map<string, string>, index': map<string, string>, cjs: seq<CronJob>)
    requires SameReadings(f, g) && forall cj :: cj in cjs ==> cj in f.cronjobs
    ensures AllAlike(CronRows(f, jobs, index, cjs), CronRows(g, jobs', index', cjs))
    decreases |cjs|
  {
    if cjs != [] {
      CronRowsAlike(f, g, jobs, jobs', index, index', cjs[..|cjs| - 1]);
      RowAlike(f, g, jobs, jobs', index, index', cjs[|cjs| - 1]);
    }
  }

  lemma {:induction false} JoinedAlike(f: Facts, g: Facts, index: map<string, string>, index': map<string, string>,
                                       sinks: Sinks, a: seq<Row>, b: seq<Row>, more: seq<Row>)
    requires AllAlike(a, b) && forall k :: k in sinks ==> sinks[k] < |a|
    requires g.controlPlane == f.controlPlane
    ensures AllAlike(JoinedAll(f, index, sinks, a, more), JoinedAll(g, index', sinks, b, more))
    decreases |more|
  {
    if more != [] {
      JoinedAlike(f, g, index, index', sinks, a, b, more[..|more| - 1]);
    }
  }

  lemma {:induction false} UncoveredAlike(f: Facts, g: Facts, index: map<string, string>, index': map<string, string>,
                                          ids: seq<string>)
    requires g == f.(hoursSince := g.hoursSince)
    ensures SameUncovered(UncoveredRows(f, index, ids), UncoveredRows(g, index', ids))
    decreases |ids|
  {
    if ids != [] {
      UncoveredAlike(f, g, index, index', ids[..|ids| - 1]);
      var last := ids[|ids| - 1];
      assert IsCovered(f, last) <==> IsCovered(g, last) by {
        assert forall cj :: Covers(f, last, cj) <==> Covers(g, last, cj);
      }
    }
  }

  lemma {:induction false} RollupReadsAlike(a: seq<Row>, b: seq<Row>)
    requires AllAlike(a, b)
    ensures LevelsOf(a) == LevelsOf(b) && AttentionIds(a) == AttentionIds(b) && UnprovenIds(a) == UnprovenIds(b)
    decreases |a|
  {
    if a != [] {
      RollupReadsAlike(a[1..], b[1..]);
    }
  }

  lemma {:induction false} RollupReadsUncovered(a: seq<Uncovered>, b: seq<Uncovered>)
    requires SameUncovered(a, b)
    ensures UncoveredLevels(a) == UncoveredLevels(b) && UncoveredIds(a) == UncoveredIds(b)
    decreases |a|
  {
    if a != [] {
      RollupReadsUncovered(a[1..], b[1..]);
    }
  }

  lemma RowsAlike(f: Facts, g: Facts, jobs: seq<Job>, membership: seq<Bundle>)
    requires SameReadings(f, g)
    ensures AllAlike(ViewOf(f, [], []).routines, ViewOf(g, jobs, membership).routines)
  {
    var bare, index := BundleIndex([]), BundleIndex(membership);
    CronRowsAlike(f, g, [], jobs, bare, index, f.cronjobs);
    var a, b := CronRows(f, [], bare, f.cronjobs), CronRows(g, jobs, index, f.cronjobs);
    assert PlatformRowsOf(f) == PlatformRowsOf(g);
    JoinedAlike(f, g, bare, index, SinksOf(f.cronjobs), a, b, PlatformRowsOf(f));
    SortedAlike(RowsOf(f, [], []), RowsOf(g, jobs, membership));
  }

  lemma RollupsAlike(a: View, b: View)
    requires AllAlike(a.routines, b.routines) && SameUncovered(a.unprotected, b.unprotected)
    ensures RollupOf(Some(a)) == RollupOf(Some(b))
  {
    RollupReadsAlike(a.routines, b.routines);
    RollupReadsUncovered(a.unprotected, b.unprotected);
    assert DotLevels(a) == DotLevels(b);
  }

  /** The health poll's dot (no Jobs, no bundle membership) and the one of the page's view agree -
      level, summary and members - when both read one observation at one time, or at two times
      between which no routine changed state and the platform record did not go stale. */
  lemma DotAgreesWithPage(f: Facts, g: Facts, jobs: seq<Job>, membership: seq<Bundle>)
    requires SameReadings(f, g)
    ensures RollupOf(Some(ViewOf(f, [], []))) == RollupOf(Some(ViewOf(g, jobs, membership)))
  {
    RowsAlike(f, g, jobs, membership);
    UncoveredAlike(f, g, BundleIndex([]), BundleIndex(membership), Sorted(WorkloadIds(f.plan.components)));
    RollupsAlike(ViewOf(f, [], []), ViewOf(g, jobs, membership));
  }

  /** A routine whose last success is within the threshold at one time and past it at a later
      one: the two dots differ. */
  lemma DotMovesWithTimeExample(f: Facts, g: Facts, cj: CronJob)
    requires g == f.(hoursSince := g.hoursSince) && f.cronjobs == [cj]
    requires FleetIsBackedUp(f) && !cj.active
    requires g.hoursSince(cj.lastSuccess).Some? && g.hoursSince(cj.lastSuccess).value > f.staleHours
    ensures RollupOf(Some(ViewOf(f, [], []))).level == Healthy != RollupOf(Some(ViewOf(g, [], []))).level
  {
    DotIsGreenIff(f, [], []);
    DotIsGreenIff(g, [], []);
    assert cj in g.cronjobs && !Protects(g, cj);
  }

  // ----- When the dot is green --------------------------------------------

  predicate Green(row: Row) { row.level == Healthy && !row.artifact.Available? }

  predicate AllGreen(rows: seq<Row>) { forall i :: 0 <= i < |rows| ==> Green(rows[i]) }

  lemma GreenAppend(a: seq<Row>, b: seq<Row>)
    ensures AllGreen(a + b) <==> AllGreen(a) && AllGreen(b)
  {
    assert forall i :: 0 <= i < |a| ==> (a + b)[i] == a[i];
    assert forall i :: 0 <= i < |b| ==> (a + b)[|a| + i] == b[i];
  }

  lemma GreenByMembership(a: seq<Row>, b: seq<Row>)
    requires forall r :: r in a ==> r in b
    ensures AllGreen(b) ==> AllGreen(a)
  {
    forall i | 0 <= i < |a| && AllGreen(b) ensures Green(a[i]) {
      assert a[i] in b;
    }
  }

  predicate AllHealthy(levels: seq<Level>) { forall i :: 0 <= i < |levels| ==> levels[i] == Healthy }

  lemma {:induction false} LevelsOfRows(rows: seq<Row>)
    ensures |LevelsOf(rows)| == |rows|
    ensures AllGreen(rows) <==> AllHealthy(LevelsOf(rows)) && UnprovenIds(rows) == []
    decreases |rows|
  {
    if rows != [] {
      LevelsOfRows(rows[1..]);
      GreenAppend([rows[0]], rows[1..]);
      assert [rows[0]] + rows[1..] == rows;
      HealthyAppend([rows[0].level], LevelsOf(rows[1..]), []);
      assert LevelsOf(rows) == [rows[0].level] + LevelsOf(rows[1..]) + [];
      assert Green([rows[0]][0]) <==> AllGreen([rows[0]]);
      assert AllHealthy([rows[0].level]) <==> [rows[0].level][0] == Healthy;
    }
  }

  lemma {:induction false} UncoveredIsNeverGreen(f: Facts, index: map<string, string>, ids: seq<string>)
    ensures UncoveredRows(f, index, ids) == [] <==> forall id :: id in ids ==> IsCovered(f, id)
    ensures forall i :: 0 <= i < |UncoveredRows(f, index, ids)| ==> UncoveredRows(f, index, ids)[i].level != Healthy
    decreases |ids|
  {
    if ids != [] {
      var last := |ids| - 1;
      assert ids == ids[..last] + [ids[last]];
      UncoveredIsNeverGreen(f, index, ids[..last]);
    }
  }

  /** A view is green when it has a row, every row is green and nothing is uncovered. */
  lemma GreenDotIff(view: View)
    requires forall i :: 0 <= i < |view.unprotected| ==> view.unprotected[i].level != Healthy
    ensures RollupOf(Some(view)).level == Healthy <==>
            view.routines != [] && AllGreen(view.routines) && view.unprotected == []
  {
    var a, b, c := LevelsOf(view.routines), UncoveredLevels(view.unprotected), AllUnknown(|UnprovenIds(view.routines)|);
    var levels := DotLevels(view);
    GreenIff(levels);
    LevelsOfRows(view.routines);
    assert view.unprotected != [] ==> b[0] == view.unprotected[0].level;
    assert AllHealthy(c) <==> c == [] by { assert c != [] ==> c[0] == Unknown; }
    assert AllHealthy(b) <==> b == [] by { assert b != [] ==> b[0] == view.unprotected[0].level; }
    HealthyAppend(a, b, c);
    forall l | AllHealthy(levels) && l in levels ensures l == Healthy {}
    assert (forall l :: l in levels ==> l == Healthy) ==> AllHealthy(levels) by {
      assert forall i :: 0 <= i < |levels| ==> levels[i] in levels;
    }
  }

  lemma HealthyAppend(a: seq<Level>, b: seq<Level>, c: seq<Level>)
    ensures AllHealthy(a + b + c) <==> AllHealthy(a) && AllHealthy(b) && AllHealthy(c)
  {
    var all := a + b + c;
    assert forall i :: 0 <= i < |a| ==> all[i] == a[i];
    assert forall i :: 0 <= i < |b| ==> all[|a| + i] == b[i];
    assert forall i :: 0 <= i < |c| ==> all[|a| + |b| + i] == c[i];
  }

  /** Rows named by the ledger, the only ones that may be folded away. */
  predicate FromLedger(row: Row) { WithoutPrefix(row.id, "ephemeral/") != row.id }

  predicate LedgerIsGreen(rows: seq<Row>) { forall i :: 0 <= i < |rows| && FromLedger(rows[i]) ==> Green(rows[i]) }

  lemma {:induction false} GreenJoined(f: Facts, index: map<string, string>, sinks: Sinks, rows: seq<Row>,
                                       more: seq<Row>)
    requires forall k :: k in sinks ==> sinks[k] < |rows|
    requires LedgerIsGreen(more)
    ensures AllGreen(JoinedAll(f, index, sinks, rows, more)) <==> AllGreen(rows) && AllGreen(more)
    decreases |more|
  {
    if more != [] {
      var front, row := more[..|more| - 1], more[|more| - 1];
      GreenJoined(f, index, sinks, rows, front);
      GreenStep(f, index, sinks, JoinedAll(f, index, sinks, rows, front), row);
      GreenAppend(front, [row]);
      assert front + [row] == more && (AllGreen([row]) <==> Green([row][0]));
    }
  }

  lemma GreenStep(f: Facts, index: map<string, string>, sinks: Sinks, rows: seq<Row>, row: Row)
    requires forall k :: k in sinks ==> sinks[k] < |rows|
    requires FromLedger(row) ==> Green(row)
    ensures AllGreen(Joined(f, index, sinks, rows, row)) <==> AllGreen(rows) && Green(row)
  {
    var joined := Joined(f, index, sinks, rows, row);
    assert forall i :: 0 <= i < |rows| ==> (Green(joined[i]) <==> Green(rows[i]));
    assert !FoldsOnto(sinks, row) ==> joined[|rows|] == Attributed(f, index, row);
  }

  lemma RoutineGreenIff(f: Facts, jobs: seq<Job>, index: map<string, string>, cj: CronJob)
    requires f.platform.Some? && f.platform.value.restorable
    ensures Green(CronRow(f, jobs, index, cj)) <==> Protects(f, cj)
  {
    ArtifactsShareTheVerdict(f.platform.value.components, true);
  }

  predicate AllProtect(f: Facts, cjs: seq<CronJob>) { forall cj :: cj in cjs ==> Protects(f, cj) }

  lemma {:induction false} RoutinesGreenIff(f: Facts, jobs: seq<Job>, index: map<string, string>, cjs: seq<CronJob>)
    requires f.platform.Some? && f.platform.value.restorable
    ensures AllGreen(CronRows(f, jobs, index, cjs)) <==> AllProtect(f, cjs)
    decreases |cjs|
  {
    if cjs != [] {
      var front, cj := cjs[..|cjs| - 1], cjs[|cjs| - 1];
      assert cjs == front + [cj];
      RoutinesGreenIff(f, jobs, index, front);
      RoutineGreenIff(f, jobs, index, cj);
      var row := CronRow(f, jobs, index, cj);
      GreenAppend(CronRows(f, jobs, index, front), [row]);
      assert AllGreen([row]) <==> Green([row][0]);
    }
  }

  lemma {:induction false} LedgerRowsAreGreen(entries: seq<LedgerEntry>)
    ensures AllGreen(LedgerRows(entries))
    decreases |entries|
  {
    if entries != [] {
      LedgerRowsAreGreen(entries[..|entries| - 1]);
    }
  }

  lemma RecordedRow(c: Archived, restorable: bool, stale: bool)
    ensures c.class_.HostArchive? ==> (AllGreen(ComponentRow(c, restorable, stale)) <==> restorable && !stale)
    ensures restorable && !stale ==> AllGreen(ComponentRow(c, restorable, stale))
    ensures LedgerIsGreen(ComponentRow(c, restorable, stale))
  {
    var rows := ComponentRow(c, restorable, stale);
    assert forall i :: 0 <= i < |rows| ==> rows[i].id[0] == 'p';
    assert c.class_.HostArchive? ==> rows[0] == ArchiveRow(c.name, restorable, stale);
  }

  lemma {:induction false} RecordedGreenIff(cs: seq<Archived>, restorable: bool, stale: bool)
    ensures HasHostArchive(cs) ==> ComponentRows(cs, restorable, stale) != []
    ensures HasHostArchive(cs) ==> (AllGreen(ComponentRows(cs, restorable, stale)) <==> restorable && !stale)
    ensures restorable && !stale ==> AllGreen(ComponentRows(cs, restorable, stale))
    ensures LedgerIsGreen(ComponentRows(cs, restorable, stale))
    decreases |cs|
  {
    if cs != [] {
      var front, c := cs[..|cs| - 1], cs[|cs| - 1];
      RecordedGreenIff(front, restorable, stale);
      RecordedRow(c, restorable, stale);
      GreenAppend(ComponentRows(front, restorable, stale), ComponentRow(c, restorable, stale));
      assert HasHostArchive(cs) ==> HasHostArchive(front) || c.class_.HostArchive? by {
        assert cs == front + [c];
      }
    }
  }

  lemma CarrierGreenIff(p: Record, stale: bool)
    ensures LedgerIsGreen(Carrier(p, stale))
    ensures Carrier(p, stale) == [] <==> HasHostArchive(Listed(p))
    ensures Carrier(p, stale) != [] ==> (AllGreen(Carrier(p, stale)) <==> p.restorable && !stale)
  {
    var archive := ArchiveRow("archive", p.restorable, stale);
    assert archive.id[0] == 'p' && (AllGreen([archive]) <==> Green([archive][0]));
  }

  lemma RecordGreenIff(p: Record, stale: bool)
    ensures AllGreen(RecordRows(p, stale)) <==> p.restorable && !stale
    ensures LedgerIsGreen(RecordRows(p, stale)) && RecordRows(p, stale) != []
  {
    var recorded, carrier := ComponentRows(Listed(p), p.restorable, stale), Carrier(p, stale);
    var ledger := LedgerRows(LedgerOf(p));
    RecordedGreenIff(Listed(p), p.restorable, stale);
    CarrierGreenIff(p, stale);
    LedgerRowsAreGreen(LedgerOf(p));
    GreenAppend(recorded, carrier);
    GreenAppend(recorded + carrier, ledger);
    LedgerAppend(recorded, carrier);
    LedgerAppend(recorded + carrier, ledger);
  }

  lemma LedgerAppend(a: seq<Row>, b: seq<Row>)
    requires LedgerIsGreen(a) && (LedgerIsGreen(b) || AllGreen(b))
    ensures LedgerIsGreen(a + b)
  {
  }

  /** The platform's rows are green exactly when a backup was taken, its record is fresh and
      a restore of it has been verified. */
  lemma PlatformGreenIff(f: Facts)
    ensures AllGreen(PlatformRowsOf(f)) <==>
            && f.platform.Some? && f.platform.value.backupId != ""
            && !Outdated(f, f.platform.value) && f.platform.value.restorable
    ensures LedgerIsGreen(PlatformRowsOf(f)) && PlatformRowsOf(f) != []
  {
    if f.platform.None? || f.platform.value.backupId == "" {
      assert PlatformRowsOf(f)[0] == MissingRow() && MissingRow().id[0] == 'p';
    } else {
      RecordGreenIff(f.platform.value, Outdated(f, f.platform.value));
    }
  }

  /** Everything the dot vouches for. */
  predicate FleetIsBackedUp(f: Facts) {
    && f.platform.Some? && f.platform.value.backupId != ""
    && f.hoursSince(f.platform.value.observedAt).Some?
    && f.hoursSince(f.platform.value.observedAt).value <= f.platformStaleHours
    && f.platform.value.restorable
    && (forall cj :: cj in f.cronjobs ==> Protects(f, cj))
    && (forall id :: id in WorkloadIds(f.plan.components) ==> IsCovered(f, id))
  }

  /** The dot is green exactly when a platform backup exists, is fresh and restore-verified,
      every routine is current or running with a restore path, and every namespaced workload
      component has a routine where it runs. */
  lemma DotIsGreenIff(f: Facts, jobs: seq<Job>, membership: seq<Bundle>)
    ensures RollupOf(Some(ViewOf(f, jobs, membership))).level == Healthy <==> FleetIsBackedUp(f)
  {
    var index, sinks := BundleIndex(membership), SinksOf(f.cronjobs);
    var rows, view := RowsOf(f, jobs, membership), ViewOf(f, jobs, membership);
    var ids := WorkloadIds(f.plan.components);
    UncoveredIsNeverGreen(f, index, Sorted(ids));
    SortedHasTheSame(AtMost, ids);
    GreenDotIff(view);
    SortedHasTheSame(WorstFirst, rows);
    GreenByMembership(rows, view.routines);
    GreenByMembership(view.routines, rows);
    PlatformGreenIff(f);
    GreenJoined(f, index, sinks, CronRows(f, jobs, index, f.cronjobs), PlatformRowsOf(f));
    if f.platform.Some? && f.platform.value.restorable {
      RoutinesGreenIff(f, jobs, index, f.cronjobs);
    }
  }

  // ----- What the dot names -----------------------------------------------

  predicate Accuses(rows: seq<Row>, id: string) {
    exists i :: 0 <= i < |rows| && rows[i].id == id && NeedsAttention(rows[i].level)
  }

  predicate AccusesUncovered(rows: seq<Uncovered>, id: string) {
    exists i :: 0 <= i < |rows| && rows[i].id == id && NeedsAttention(rows[i].level)
  }

  predicate Unproven(rows: seq<Row>, id: string) {
    exists i :: 0 <= i < |rows| && rows[i].id == id && rows[i].artifact.Available?
  }

  lemma {:induction false} IdsAreTheAccused(rows: seq<Row>, id: string)
    ensures id in AttentionIds(rows) <==> Accuses(rows, id)
    ensures id in UnprovenIds(rows) <==> Unproven(rows, id)
    decreases |rows|
  {
    if rows != [] {
      IdsAreTheAccused(rows[1..], id);
      assert forall i :: 0 <= i < |rows| - 1 ==> rows[1..][i] == rows[i + 1];
      assert forall i :: 0 < i < |rows| ==> rows[i] == rows[1..][i - 1];
    }
  }

  lemma {:induction false} UncoveredAccused(rows: seq<Uncovered>, id: string)
    ensures id in UncoveredIds(rows) <==> AccusesUncovered(rows, id)
    decreases |rows|
  {
    if rows != [] {
      UncoveredAccused(rows[1..], id);
      assert forall i :: 0 <= i < |rows| - 1 ==> rows[1..][i] == rows[i + 1];
      assert forall i :: 0 < i < |rows| ==> rows[i] == rows[1..][i - 1];
    }
  }

  lemma {:induction false} MissingIs(ids: seq<string>, listed: seq<string>, id: string)
    ensures id in Missing(ids, listed) <==> id in ids && id !in listed
    decreases |ids|
  {
    if ids != [] {
      assert ids == [ids[0]] + ids[1..];
      MissingIs(ids[1..], listed, id);
    }
  }

  /** The dot's members are exactly the rows in trouble, the uncovered agents, and the rows
      whose artifact was never restored. */
  lemma DotNamesEveryProblem(view: View, id: string)
    ensures id in RollupOf(Some(view)).members <==>
            Accuses(view.routines, id) || AccusesUncovered(view.unprotected, id) || Unproven(view.routines, id)
  {
    var accused, uncovered := AttentionIds(view.routines), UncoveredIds(view.unprotected);
    var unproven := UnprovenIds(view.routines);
    IdsAreTheAccused(view.routines, id);
    UncoveredAccused(view.unprotected, id);
    SortedHasTheSame(AtMost, accused);
    SortedHasTheSame(AtMost, uncovered);
    SortedHasTheSame(AtMost, unproven);
    MissingIs(Sorted(unproven), Sorted(accused) + Sorted(uncovered), id);
  }
}
