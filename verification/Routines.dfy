/** The facts the Backups view is projected from, and one routine's reading of them
    (control-plane/nexus/plugin_api.py:2372-2469, 2472-2496, 2526-2559, 2735-2752). */
module Routines {
  import opened Wrappers
  import opened Levels
  import opened Plans
  import opened Sorting

  const SINK_VOLUME := "backups"
  const MAX_RUNS: nat := 10

  /** A volume of the job template; `claim` is its PVC, empty when it has none. */
  datatype Volume = Volume(name: string, claim: string)

  /** Absent timestamps are empty strings. */
  datatype CronJob = CronJob(
    name: string, namespace: string, suspended: bool, lastSuccess: string, lastSchedule: string,
    active: bool, restoreHook: bool, volumes: seq<Volume>)

  datatype RunState = Succeeded | FailedRun | Active

  /** A Job and the CronJob its owner reference names; empty when none does. */
  datatype Job = Job(name: string, namespace: string, owner: string, state: RunState, startedAt: string)

  datatype ComponentClass = VolumeArchive | HostArchive | Declarative | OtherClass

  datatype Archived = Archived(class_: ComponentClass, name: string, profile: string, routine: string)

  datatype LedgerEntry = LedgerEntry(claim: string, namespace: string)

  datatype Record = Record(
    backupId: string, observedAt: string, restorable: bool, components: seq<Archived>, ledger: seq<LedgerEntry>)

  datatype Placement = Placement(profile: string, namespace: string)

  /** A bundle and the namespaces it claims. */
  datatype Bundle = Bundle(name: string, namespace: string, memberNamespaces: seq<string>)

  /** One backup observation; `hoursSince` reads a timestamp's age at the observation time. */
  datatype Facts = Facts(
    plan: Plan, cronjobs: seq<CronJob>, platform: Option<Record>, bundles: seq<Placement>,
    controlPlane: set<string>, hoursSince: string -> Option<real>, staleHours: real, platformStaleHours: real)

  // ----- Restore path -----------------------------------------------------

  datatype Shape = ByHook | ByVolume | Unsupported

  predicate IsData(v: Volume) { v.name != SINK_VOLUME && v.claim != "" }

  function ShapeOf(cj: CronJob): Shape {
    if cj.restoreHook then ByHook
    else if exists v :: v in cj.volumes && IsData(v) then ByVolume
    else Unsupported
  }

  method RestoreShape(cj: CronJob) returns (shape: Shape)
    ensures shape == ShapeOf(cj)
  {
    if cj.restoreHook {
      return ByHook;
    }
    for i := 0 to |cj.volumes|
      invariant forall k :: 0 <= k < i ==> !IsData(cj.volumes[k])
    {
      if cj.volumes[i].name != SINK_VOLUME && cj.volumes[i].claim != "" {
        assert cj.volumes[i] in cj.volumes && IsData(cj.volumes[i]);
        return ByVolume;
      }
    }
    shape := Unsupported;
  }

  /** The claim behind the first sink volume; empty when there is none. */
  function SinkClaim(volumes: seq<Volume>): string
    decreases |volumes|
  {
    if volumes == [] then ""
    else if volumes[0].name == SINK_VOLUME then volumes[0].claim
    else SinkClaim(volumes[1..])
  }

  // ----- The schedule axis ------------------------------------------------

  datatype RoutineState = Failing | Never | Late | Disabled | Running | Current

  function LevelOfState(s: RoutineState): Level {
    match s
    case Failing => Unhealthy
    case Never => Degraded
    case Late => Degraded
    case Disabled => Degraded
    case Running => Healthy
    case Current => Healthy
  }

  function StateOf(f: Facts, cj: CronJob): RoutineState {
    if cj.suspended then Disabled
    else if cj.lastSuccess == "" then if cj.lastSchedule != "" then Failing else Never
    else match f.hoursSince(cj.lastSuccess)
      case None => Never
      case Some(age) => if cj.active then Running else if age > f.staleHours then Late else Current
  }

  /** A routine that is doing its job and could be put back. */
  predicate Protects(f: Facts, cj: CronJob) {
    && !cj.suspended
    && cj.lastSuccess != "" && f.hoursSince(cj.lastSuccess).Some?
    && (cj.active || f.hoursSince(cj.lastSuccess).value <= f.staleHours)
    && (cj.restoreHook || exists v :: v in cj.volumes && IsData(v))
  }

  // ----- Ownership --------------------------------------------------------

  function RFindFrom(text: string, word: string, i: int): int
    requires i + |word| <= |text|
    decreases i + 1
  {
    if i < 0 then -1 else if text[i..i + |word|] == word then i else RFindFrom(text, word, i - 1)
  }

  /** `str.rfind`: the last place the word occurs, -1 when it does not. */
  function RFind(text: string, word: string): int {
    if |word| > |text| then -1 else RFindFrom(text, word, |text| - |word|)
  }

  predicate Mentions(routine: string, id: string) { id != "" && RFind(routine, id) >= 0 }

  predicate LaterMention(routine: string, a: string, b: string) {
    RFind(routine, a) > RFind(routine, b) || (RFind(routine, a) == RFind(routine, b) && |a| > |b|)
  }

  predicate OccursAt(text: string, word: string, i: int) {
    0 <= i && i + |word| <= |text| && text[i..i + |word|] == word
  }

  lemma {:induction false} RFindFromIs(text: string, word: string, i: int)
    requires i + |word| <= |text|
    ensures var at := RFindFrom(text, word, i);
      && (at == -1 || OccursAt(text, word, at))
      && forall j :: at < j <= i ==> !OccursAt(text, word, j)
    decreases i + 1
  {
    if i >= 0 && text[i..i + |word|] != word {
      RFindFromIs(text, word, i - 1);
    }
  }

  /** The last place a word occurs in a text, -1 only when it occurs nowhere. */
  lemma RFindIs(text: string, word: string)
    ensures RFind(text, word) == -1 || OccursAt(text, word, RFind(text, word))
    ensures forall j :: j > RFind(text, word) ==> !OccursAt(text, word, j)
  {
    if |word| <= |text| {
      RFindFromIs(text, word, |text| - |word|);
    }
  }

  lemma MentionsIff(routine: string, id: string)
    ensures Mentions(routine, id) <==> id != "" && exists i :: OccursAt(routine, id, i)
  {
    RFindIs(routine, id);
  }

  function Living(cs: seq<Component>, ids: seq<string>, ns: string): seq<string>
    decreases |ids|
  {
    if ids == [] then []
    else
      Living(cs, ids[..|ids| - 1], ns)
      + if ns in NamespacesOf(cs, ids[|ids| - 1]) then [ids[|ids| - 1]] else []
  }

  function FirstPlacedIn(bundles: seq<Placement>, ns: string): seq<string>
    decreases |bundles|
  {
    if bundles == [] then []
    else if bundles[0].namespace == ns then [bundles[0].profile]
    else FirstPlacedIn(bundles[1..], ns)
  }

  /** Who lives in a namespace: the components that run there, else the first profile a
      bundle places there. */
  function Residents(f: Facts, ns: string): seq<string> {
    var living := Living(f.plan.components, WorkloadIds(f.plan.components), ns);
    if living != [] then living else FirstPlacedIn(f.bundles, ns)
  }

  function Latest(routine: string, ids: seq<string>): Option<string>
    decreases |ids|
  {
    if ids == [] then None
    else
      var best, id := Latest(routine, ids[..|ids| - 1]), ids[|ids| - 1];
      if !Mentions(routine, id) then best
      else if best.None? || LaterMention(routine, id, best.value) then Some(id)
      else best
  }

  function FirstAgent(cs: seq<Component>, ids: seq<string>): Option<string>
    decreases |ids|
  {
    if ids == [] then None else if IsAgent(cs, ids[0]) then Some(ids[0]) else FirstAgent(cs, ids[1..])
  }

  /** `_owner`: the resident a routine belongs to. */
  function Owner(f: Facts, ns: string, routine: string): Option<string> {
    var residents := Residents(f, ns);
    var named := Latest(routine, residents);
    if named.Some? then named
    else if FirstAgent(f.plan.components, residents).Some? then FirstAgent(f.plan.components, residents)
    else if residents != [] then Some(residents[0])
    else None
  }

  lemma {:induction false} LatestIsLatest(routine: string, ids: seq<string>)
    ensures Latest(routine, ids).None? <==> forall id :: id in ids ==> !Mentions(routine, id)
    ensures Latest(routine, ids).Some? ==>
      && Latest(routine, ids).value in ids && Mentions(routine, Latest(routine, ids).value)
      && forall id :: id in ids && Mentions(routine, id) ==> !LaterMention(routine, id, Latest(routine, ids).value)
    decreases |ids|
  {
    if ids != [] {
      var last := |ids| - 1;
      assert ids == ids[..last] + [ids[last]];
      LatestIsLatest(routine, ids[..last]);
    }
  }

  lemma {:induction false} FirstAgentIsAnAgent(cs: seq<Component>, ids: seq<string>)
    ensures FirstAgent(cs, ids).None? <==> forall id :: id in ids ==> !IsAgent(cs, id)
    ensures FirstAgent(cs, ids).Some? ==> FirstAgent(cs, ids).value in ids && IsAgent(cs, FirstAgent(cs, ids).value)
    decreases |ids|
  {
    if ids != [] {
      assert ids[0] in ids && forall id :: id in ids[1..] ==> id in ids;
      FirstAgentIsAnAgent(cs, ids[1..]);
    }
  }

  /** A routine belongs to a resident of its namespace whenever there is one: the resident
      mentioned last in its name, the longest such; failing any mention, an agent. */
  lemma OwnerIsTheSubject(f: Facts, ns: string, routine: string)
    ensures var owner, residents := Owner(f, ns, routine), Residents(f, ns);
      && (owner.None? <==> residents == [])
      && (owner.Some? ==>
            && owner.value in residents
            && (forall id :: id in residents && Mentions(routine, id) ==>
                  Mentions(routine, owner.value) && !LaterMention(routine, id, owner.value))
            && (forall id :: id in residents && IsAgent(f.plan.components, id) ==>
                  Mentions(routine, owner.value) || IsAgent(f.plan.components, owner.value)))
  {
    LatestIsLatest(routine, Residents(f, ns));
    FirstAgentIsAnAgent(f.plan.components, Residents(f, ns));
  }

  // ----- Artifacts and runs -----------------------------------------------

  datatype Artifact = Restorable | Available | Unmeasured | Declared | EphemeralByDesign

  /** What the last platform backup found in each routine's sink, by profile and routine. */
  function Artifacts(cs: seq<Archived>, restorable: bool): map<string, Artifact>
    decreases |cs|
  {
    if cs == [] then map[]
    else
      var before, c := Artifacts(cs[..|cs| - 1], restorable), cs[|cs| - 1];
      if c.class_.VolumeArchive? && c.profile != "" && c.routine != ""
      then before[c.profile + "/" + c.routine := if restorable then Restorable else Available]
      else before
  }

  function PlatformArtifacts(platform: Option<Record>): map<string, Artifact> {
    if platform.None? then map[] else Artifacts(platform.value.components, platform.value.restorable)
  }

  function WithoutPrefix(text: string, prefix: string): string {
    if |prefix| <= |text| && text[..|prefix|] == prefix then text[|prefix|..] else text
  }

  /** The artifact of a routine: under its owner, else under its namespace's profile. A
      routine without an owner is looked up under the literal "None". */
  function ArtifactOf(f: Facts, cj: CronJob): Artifact {
    var artifacts, owner := PlatformArtifacts(f.platform), Owner(f, cj.namespace, cj.name);
    var byOwner := (if owner.Some? then owner.value else "None") + "/" + cj.name;
    var byNamespace := WithoutPrefix(cj.namespace, "hermes-") + "/" + cj.name;
    if byOwner in artifacts then artifacts[byOwner]
    else if byNamespace in artifacts then artifacts[byNamespace]
    else Unmeasured
  }

  /** An artifact is only ever called restorable because the whole backup was restored. */
  lemma {:induction false} ArtifactsShareTheVerdict(cs: seq<Archived>, restorable: bool)
    ensures forall k :: k in Artifacts(cs, restorable) ==>
              Artifacts(cs, restorable)[k] == if restorable then Restorable else Available
    decreases |cs|
  {
    if cs != [] {
      ArtifactsShareTheVerdict(cs[..|cs| - 1], restorable);
    }
  }

  predicate NewestFirst(a: Job, b: Job) { AtMost(b.startedAt, a.startedAt) }

  function OwnedBy(jobs: seq<Job>, ns: string, routine: string): seq<Job>
    decreases |jobs|
  {
    if jobs == [] || ns == "" || routine == "" then []
    else
      var last := jobs[|jobs| - 1];
      OwnedBy(jobs[..|jobs| - 1], ns, routine) + if last.namespace == ns && last.owner == routine then [last] else []
  }

  /** A routine's retained runs, newest first, at most ten. */
  function RunsOf(jobs: seq<Job>, ns: string, routine: string): seq<Job> {
    var runs := SortedBy(NewestFirst, OwnedBy(jobs, ns, routine));
    if |runs| > MAX_RUNS then runs[..MAX_RUNS] else runs
  }
}
