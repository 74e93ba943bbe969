/** The Backups view and the dot it feeds
    (control-plane/nexus/plugin_api.py:2575-2698, 2701-2893, 3061-3130, 4125-4168). */
module Backups {
  import opened Wrappers
  import opened Levels
  import opened Plans
  import opened Sorting
  import opened Routines

  const MAX_COMPONENTS: nat := 200
  const MAX_LEDGER: nat := 50
  const MAX_NAME: nat := 120

  datatype RowState = Scheduled(routine: RoutineState) | ArchiveTaken | NeverTaken | DeclaredOnly | ByDesign

  /** A row of the page; `sink` is the ledger claim folded onto a routine. */
  datatype Row = Row(
    id: string, namespace: string, component: Option<string>, group: Option<string>, bundle: Option<string>,
    runs: seq<Job>, state: RowState, level: Level, restore: Shape, artifact: Artifact, sink: Option<string>)

  datatype Uncovered = Uncovered(id: string, level: Level, bundle: Option<string>)

  datatype View = View(routines: seq<Row>, unprotected: seq<Uncovered>)

  function Clip(text: string): string {
    if |text| <= MAX_NAME then text else text[..MAX_NAME - 1] + ['\U{2026}']
  }

  function Shortest(a: nat, b: nat): nat { if a < b then a else b }

  // ----- The platform record's rows ---------------------------------------

  function PlatformRow(id: string, ns: string, state: RowState, level: Level, artifact: Artifact): Row {
    Row(id, ns, None, Some("control-plane"), None, [], state, level, ByHook, artifact, None)
  }

  function MissingRow(): Row { PlatformRow("platform/archive", "", NeverTaken, Unhealthy, Unmeasured) }

  /** The record's age is unreadable or past the threshold. */
  predicate Outdated(f: Facts, record: Record) {
    match f.hoursSince(record.observedAt) case None => true case Some(age) => age > f.platformStaleHours
  }

  function ArchiveRow(name: string, restorable: bool, stale: bool): Row {
    PlatformRow("platform/" + name, "", ArchiveTaken, if restorable && !stale then Healthy else Unknown,
                if restorable then Restorable else Available)
  }

  function Named(cs: seq<Archived>): seq<Archived>
    decreases |cs|
  {
    if cs == [] then [] else Named(cs[..|cs| - 1]) + if cs[|cs| - 1].name != "" then [cs[|cs| - 1]] else []
  }

  function Listed(record: Record): seq<Archived> {
    Named(record.components)[..Shortest(|Named(record.components)|, MAX_COMPONENTS)]
  }

  function ComponentRow(c: Archived, restorable: bool, stale: bool): seq<Row> {
    match c.class_
    case HostArchive => [ArchiveRow(c.name, restorable, stale)]
    case Declarative =>
      if WithoutPrefix(c.name, "argocd-application/") != c.name then []
      else [PlatformRow("platform/" + c.name, "", DeclaredOnly, if stale then Unknown else Healthy, Declared)]
    case _ => []
  }

  function ComponentRows(cs: seq<Archived>, restorable: bool, stale: bool): seq<Row>
    decreases |cs|
  {
    if cs == [] then []
    else ComponentRows(cs[..|cs| - 1], restorable, stale) + ComponentRow(cs[|cs| - 1], restorable, stale)
  }

  function LedgerRows(entries: seq<LedgerEntry>): seq<Row>
    decreases |entries|
  {
    if entries == [] then []
    else
      var e := entries[|entries| - 1];
      LedgerRows(entries[..|entries| - 1])
      + if e.claim == "" then []
        else [PlatformRow("ephemeral/" + Clip(e.claim), Clip(e.namespace), ByDesign, Healthy, EphemeralByDesign)]
  }

  function PlatformRowsOf(f: Facts): seq<Row> {
    if f.platform.None? || f.platform.value.backupId == "" then [MissingRow()]
    else RecordRows(f.platform.value, Outdated(f, f.platform.value))
  }

  /** A record without a host archive still needs a row that carries its verification. */
  function Carrier(p: Record, stale: bool): seq<Row> {
    if HasHostArchive(Listed(p)) then [] else [ArchiveRow("archive", p.restorable, stale)]
  }

  function LedgerOf(p: Record): seq<LedgerEntry> { p.ledger[..Shortest(|p.ledger|, MAX_LEDGER)] }

  function RecordRows(p: Record, stale: bool): seq<Row> {
    ComponentRows(Listed(p), p.restorable, stale) + Carrier(p, stale) + LedgerRows(LedgerOf(p))
  }

  predicate HasHostArchive(cs: seq<Archived>) { exists c :: c in cs && c.class_.HostArchive? }

  /** The loop over the record's components. */
  method RecordedRows(listed: seq<Archived>, restorable: bool, stale: bool)
    returns (rows: seq<Row>, sawHostArchive: bool)
    ensures rows == ComponentRows(listed, restorable, stale)
    ensures sawHostArchive <==> HasHostArchive(listed)
  {
    rows, sawHostArchive := [], false;
    for i := 0 to |listed|
      invariant rows == ComponentRows(listed[..i], restorable, stale)
      invariant sawHostArchive <==> exists k :: 0 <= k < i && listed[k].class_.HostArchive?
    {
      assert listed[..i + 1][..i] == listed[..i];
      var c := listed[i];
      if c.class_.HostArchive? {
        sawHostArchive := true;
        rows := rows + [ArchiveRow(c.name, restorable, stale)];
      } else if c.class_.Declarative? && WithoutPrefix(c.name, "argocd-application/") == c.name {
        rows := rows + [PlatformRow("platform/" + c.name, "", DeclaredOnly, if stale then Unknown else Healthy,
                                    Declared)];
      }
    }
    assert listed[..|listed|] == listed;
  }

  /** The loop over the ledger of volumes nothing archives by design. */
  method EphemeralRows(ledger: seq<LedgerEntry>) returns (rows: seq<Row>)
    ensures rows == LedgerRows(ledger)
  {
    rows := [];
    for i := 0 to |ledger|
      invariant rows == LedgerRows(ledger[..i])
    {
      assert ledger[..i + 1][..i] == ledger[..i];
      if ledger[i].claim == "" {
        continue;
      }
      rows := rows + [PlatformRow("ephemeral/" + Clip(ledger[i].claim), Clip(ledger[i].namespace), ByDesign,
                                  Healthy, EphemeralByDesign)];
    }
    assert ledger[..|ledger|] == ledger;
  }

  /** `_platform_component_rows` once a record is there. */
  method RowsOfRecord(p: Record, stale: bool) returns (rows: seq<Row>)
    ensures rows == RecordRows(p, stale)
  {
    var recorded, sawHostArchive := RecordedRows(Listed(p), p.restorable, stale);
    var carrier := if sawHostArchive then [] else [ArchiveRow("archive", p.restorable, stale)];
    var ephemeral := EphemeralRows(LedgerOf(p));
    rows := recorded + carrier + ephemeral;
  }

  /** `_platform_component_rows`. */
  method PlatformRows(f: Facts) returns (rows: seq<Row>)
    ensures rows == PlatformRowsOf(f)
  {
    if f.platform.None? || f.platform.value.backupId == "" {
      return [MissingRow()];
    }
    rows := RowsOfRecord(f.platform.value, Outdated(f, f.platform.value));
  }

  // ----- Attribution ------------------------------------------------------

  function ClaimAll(index: map<string, string>, namespaces: seq<string>, name: string): map<string, string>
    decreases |namespaces|
  {
    if namespaces == [] then index
    else ClaimAll(index, namespaces[..|namespaces| - 1], name)[namespaces[|namespaces| - 1] := name]
  }

  /** `_bundle_ns_index`: which bundle claims a namespace. */
  function BundleIndex(membership: seq<Bundle>): map<string, string>
    decreases |membership|
  {
    if membership == [] then map[]
    else
      var before, b := BundleIndex(membership[..|membership| - 1]), membership[|membership| - 1];
      ClaimAll(if b.namespace != "" then before[b.namespace := b.name] else before, b.memberNamespaces, b.name)
  }

  function BundleAt(index: map<string, string>, ns: string): Option<string> {
    if ns in index then Some(index[ns]) else None
  }

  function GroupOf(f: Facts, ns: string, owner: Option<string>): Option<string> {
    if owner.Some? && ParentOf(f.plan.nodes, owner.value) != "" then Some(ParentOf(f.plan.nodes, owner.value))
    else if owner.None? && ns in f.controlPlane then Some("control-plane")
    else None
  }

  function StateShown(f: Facts, cj: CronJob): RoutineState {
    if ShapeOf(cj).Unsupported? then Failing else StateOf(f, cj)
  }

  /** The row of one routine. */
  function CronRow(f: Facts, jobs: seq<Job>, index: map<string, string>, cj: CronJob): Row {
    var owner := Owner(f, cj.namespace, cj.name);
    Row(cj.namespace + "/" + cj.name, cj.namespace, owner, GroupOf(f, cj.namespace, owner),
        BundleAt(index, cj.namespace), RunsOf(jobs, cj.namespace, cj.name),
        Scheduled(StateShown(f, cj)), LevelOfState(StateShown(f, cj)), ShapeOf(cj), ArtifactOf(f, cj), None)
  }

  function CronRows(f: Facts, jobs: seq<Job>, index: map<string, string>, cjs: seq<CronJob>): (rows: seq<Row>)
    ensures |rows| == |cjs|
    decreases |cjs|
  {
    if cjs == [] then []
    else CronRows(f, jobs, index, cjs[..|cjs| - 1]) + [CronRow(f, jobs, index, cjs[|cjs| - 1])]
  }

  type Sinks = map<(string, string), nat>

  /** A routine with a sink takes it over from any earlier one. */
  function WithSink(sinks: Sinks, cj: CronJob, row: nat): Sinks {
    var claim := SinkClaim(cj.volumes);
    if claim == "" then sinks else sinks[(cj.namespace, Clip(claim)) := row]
  }

  /** Which row writes to a sink claim; the last routine of a claim has it. */
  function SinksOf(cjs: seq<CronJob>): (sinks: Sinks)
    ensures forall k :: k in sinks ==> sinks[k] < |cjs|
    decreases |cjs|
  {
    if cjs == [] then map[] else WithSink(SinksOf(cjs[..|cjs| - 1]), cjs[|cjs| - 1], |cjs| - 1)
  }

  /** A platform row that carries a namespace of its own takes that namespace's owner. */
  function Attributed(f: Facts, index: map<string, string>, row: Row): Row {
    if row.namespace == "" || row.namespace in f.controlPlane then row
    else
      var claimed := BundleAt(index, row.namespace);
      row.(group := if claimed.Some? then None else row.group, bundle := claimed,
           component := Owner(f, row.namespace, row.id))
  }

  predicate FoldsOnto(sinks: Sinks, row: Row) {
    && WithoutPrefix(row.id, "ephemeral/") != row.id
    && (row.namespace, WithoutPrefix(row.id, "ephemeral/")) in sinks
  }

  /** One platform row joins: folded onto the routine that fills it, or as its own row. */
  function Joined(f: Facts, index: map<string, string>, sinks: Sinks, rows: seq<Row>, row: Row): (r: seq<Row>)
    requires forall k :: k in sinks ==> sinks[k] < |rows|
    ensures |r| >= |rows| && r != []
  {
    if FoldsOnto(sinks, row) then
      var claim := WithoutPrefix(row.id, "ephemeral/");
      var at := sinks[(row.namespace, claim)];
      rows[at := rows[at].(sink := Some(claim))]
    else rows + [Attributed(f, index, row)]
  }

  function JoinedAll(f: Facts, index: map<string, string>, sinks: Sinks, rows: seq<Row>, more: seq<Row>): (r: seq<Row>)
    requires forall k :: k in sinks ==> sinks[k] < |rows|
    ensures |r| >= |rows| && (more != [] ==> r != [])
    decreases |more|
  {
    if more == [] then rows
    else Joined(f, index, sinks, JoinedAll(f, index, sinks, rows, more[..|more| - 1]), more[|more| - 1])
  }

  predicate WorstFirst(a: Row, b: Row) {
    Rank(a.level) > Rank(b.level) || (Rank(a.level) == Rank(b.level) && AtMost(a.id, b.id))
  }

  // ----- What nothing covers ----------------------------------------------

  function PlacementOf(bundles: seq<Placement>, profile: string): string
    decreases |bundles|
  {
    if bundles == [] then ""
    else if bundles[0].profile == profile then bundles[0].namespace
    else PlacementOf(bundles[1..], profile)
  }

  /** Where a component really runs: its own namespaces and its bundle's. */
  function Whereabouts(f: Facts, id: string): seq<string> {
    var placed := PlacementOf(f.bundles, ProfileOf(f.plan.components, id));
    NamespacesOf(f.plan.components, id) + if placed != "" then [placed] else []
  }

  predicate Covers(f: Facts, id: string, cj: CronJob) { cj.namespace in Whereabouts(f, id) }

  predicate IsCovered(f: Facts, id: string) {
    Whereabouts(f, id) == [] || exists cj :: cj in f.cronjobs && Covers(f, id, cj)
  }

  function FirstClaimed(index: map<string, string>, namespaces: seq<string>): Option<string>
    decreases |namespaces|
  {
    if namespaces == [] then None
    else if namespaces[0] != "" && namespaces[0] in index then Some(index[namespaces[0]])
    else FirstClaimed(index, namespaces[1..])
  }

  function UncoveredRow(f: Facts, index: map<string, string>, id: string): Uncovered {
    Uncovered(id, if IsAgent(f.plan.components, id) then Degraded else Unknown,
              FirstClaimed(index, Sorted(Whereabouts(f, id))))
  }

  function UncoveredRows(f: Facts, index: map<string, string>, ids: seq<string>): seq<Uncovered>
    decreases |ids|
  {
    if ids == [] then []
    else
      var last := ids[|ids| - 1];
      UncoveredRows(f, index, ids[..|ids| - 1]) + if IsCovered(f, last) then [] else [UncoveredRow(f, index, last)]
  }

  /** Whether a component is skipped: it runs nowhere, or a routine runs where it does. */
  method Skipped(f: Facts, covered: set<string>, id: string) returns (skip: bool)
    requires forall n :: n in covered <==> exists cj :: cj in f.cronjobs && cj.namespace == n
    ensures skip == IsCovered(f, id)
  {
    var namespaces := Whereabouts(f, id);
    skip := namespaces == [] || exists n :: n in namespaces && n in covered;
    forall cj | cj in f.cronjobs ensures cj.namespace in covered {}
    assert IsCovered(f, id) <==> namespaces == [] || exists cj :: cj in f.cronjobs && Covers(f, id, cj);
  }

  /** `_unprotected`. */
  method Unprotected(f: Facts, index: map<string, string>, ids: seq<string>) returns (missed: seq<Uncovered>)
    ensures missed == UncoveredRows(f, index, ids)
  {
    var covered := set cj | cj in f.cronjobs :: cj.namespace;
    missed := [];
    for i := 0 to |ids|
      invariant missed == UncoveredRows(f, index, ids[..i])
    {
      assert ids[..i + 1][..i] == ids[..i];
      var skip := Skipped(f, covered, ids[i]);
      if skip {
        continue;
      }
      missed := missed + [UncoveredRow(f, index, ids[i])];
    }
    assert ids[..|ids|] == ids;
  }

  // ----- The view ---------------------------------------------------------

  function RowsOf(f: Facts, jobs: seq<Job>, membership: seq<Bundle>): seq<Row> {
    var index := BundleIndex(membership);
    JoinedAll(f, index, SinksOf(f.cronjobs), CronRows(f, jobs, index, f.cronjobs), PlatformRowsOf(f))
  }

  function ViewOf(f: Facts, jobs: seq<Job>, membership: seq<Bundle>): View {
    View(SortedBy(WorstFirst, RowsOf(f, jobs, membership)),
         UncoveredRows(f, BundleIndex(membership), Sorted(WorkloadIds(f.plan.components))))
  }

  /** One routine's row; an unsupported restore shape overrides a green schedule. */
  method RoutineRow(f: Facts, jobs: seq<Job>, index: map<string, string>, cj: CronJob) returns (row: Row)
    ensures row == CronRow(f, jobs, index, cj)
  {
    var owner := Owner(f, cj.namespace, cj.name);
    var shape := RestoreShape(cj);
    var state := StateOf(f, cj);
    if shape.Unsupported? {
      state := Failing;
    }
    row := Row(cj.namespace + "/" + cj.name, cj.namespace, owner, GroupOf(f, cj.namespace, owner),
               BundleAt(index, cj.namespace), RunsOf(jobs, cj.namespace, cj.name),
               Scheduled(state), LevelOfState(state), shape, ArtifactOf(f, cj), None);
  }

  /** The rows of the routine loop. */
  method RoutineRows(f: Facts, jobs: seq<Job>, index: map<string, string>) returns (rows: seq<Row>)
    ensures rows == CronRows(f, jobs, index, f.cronjobs)
  {
    rows := [];
    var cjs := f.cronjobs;
    for i := 0 to |cjs|
      invariant rows == CronRows(f, jobs, index, cjs[..i])
    {
      var row := RoutineRow(f, jobs, index, cjs[i]);
      CronRowsNext(f, jobs, index, cjs, i, row);
      rows := rows + [row];
    }
    assert cjs[..|cjs|] == cjs;
  }

  lemma CronRowsNext(f: Facts, jobs: seq<Job>, index: map<string, string>, cjs: seq<CronJob>, i: nat, row: Row)
    requires i < |cjs| && row == CronRow(f, jobs, index, cjs[i])
    ensures CronRows(f, jobs, index, cjs[..i + 1]) == CronRows(f, jobs, index, cjs[..i]) + [row]
  {
    assert cjs[..i + 1][..i] == cjs[..i];
  }

  /** Its sinks. */
  method RoutineSinks(cjs: seq<CronJob>) returns (sinks: Sinks)
    ensures sinks == SinksOf(cjs)
  {
    sinks := map[];
    for i := 0 to |cjs|
      invariant sinks == SinksOf(cjs[..i])
    {
      assert cjs[..i + 1][..i] == cjs[..i];
      sinks := WithSink(sinks, cjs[i], i);
    }
    assert cjs[..|cjs|] == cjs;
  }

  /** The platform loop: each of its rows is folded onto a routine or joins as its own. */
  method JoinRows(f: Facts, index: map<string, string>, sinks: Sinks, routines: seq<Row>, more: seq<Row>)
    returns (rows: seq<Row>)
    requires forall k :: k in sinks ==> sinks[k] < |routines|
    ensures rows == JoinedAll(f, index, sinks, routines, more)
  {
    rows := routines;
    for i := 0 to |more|
      invariant rows == JoinedAll(f, index, sinks, routines, more[..i])
    {
      assert more[..i + 1][..i] == more[..i];
      if FoldsOnto(sinks, more[i]) {
        var claim := WithoutPrefix(more[i].id, "ephemeral/");
        var at := sinks[(more[i].namespace, claim)];
        rows := rows[at := rows[at].(sink := Some(claim))];
        continue;
      }
      rows := rows + [Attributed(f, index, more[i])];
    }
    assert more[..|more|] == more;
  }

  /** `project_backups`. */
  method ProjectBackups(f: Facts, jobs: seq<Job>, membership: seq<Bundle>) returns (view: View)
    ensures view == ViewOf(f, jobs, membership)
  {
    var index := BundleIndex(membership);
    var routines := RoutineRows(f, jobs, index);
    var sinks := RoutineSinks(f.cronjobs);
    var more := PlatformRows(f);
    var rows := JoinRows(f, index, sinks, routines, more);
    var missed := Unprotected(f, index, Sorted(WorkloadIds(f.plan.components)));
    view := View(SortedBy(WorstFirst, rows), missed);
  }
}
