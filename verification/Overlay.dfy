/** The runtime overlay: Argo Applications joined onto the plan's instances, and every
    component's level and sources (control-plane/nexus/plugin_api.py:1936-1948, 3726-3941). */
module Overlay {
  import opened Wrappers
  import opened Levels
  import opened Plans
  import opened Collector

  /** An Argo Application; `destination` is the namespace it deploys to. */
  datatype App = App(name: string, destination: string, health: string, sync: string)

  /** One reading of the cluster's Applications, or the reason there is none. */
  datatype Reading = Read(apps: seq<App>) | Unreadable(disabled: bool)

  const OTHER_KINDS: seq<Kind> := [Grafana, Uptime, Eval, Backup, Communication, Reconciliation]

  function ArgoLevel(health: string, sync: string): Level {
    if health == "Degraded" || health == "Missing" then Unhealthy
    else if health == "Progressing" || health == "Suspended" then Degraded
    else if health == "Healthy" then if sync == "OutOfSync" then Degraded else Healthy
    else Unknown
  }

  // ----- Matching an instance to its Application --------------------------

  predicate DeploysTo(a: App, ns: string, name: string) { a.name == name && a.destination == ns }

  function DeployedTo(apps: seq<App>, ns: string, name: string): Option<App>
    decreases |apps|
  {
    if apps == [] || ns == "" || name == "" then None
    else if DeploysTo(apps[|apps| - 1], ns, name) then Some(apps[|apps| - 1])
    else DeployedTo(apps[..|apps| - 1], ns, name)
  }

  function CountNamed(apps: seq<App>, name: string): nat
    decreases |apps|
  {
    if apps == [] || name == "" then 0
    else CountNamed(apps[..|apps| - 1], name) + if apps[|apps| - 1].name == name then 1 else 0
  }

  function LastNamed(apps: seq<App>, name: string): Option<App>
    decreases |apps|
  {
    if apps == [] || name == "" then None
    else if apps[|apps| - 1].name == name then Some(apps[|apps| - 1])
    else LastNamed(apps[..|apps| - 1], name)
  }

  /** The Application an instance stands for: the one deployed to its namespace under its
      name, else the only one of that name, else none. */
  function MatchOf(apps: seq<App>, inst: Instance): Option<App> {
    if DeployedTo(apps, inst.namespace, inst.application).Some? then DeployedTo(apps, inst.namespace, inst.application)
    else if CountNamed(apps, inst.application) >= 2 then None
    else LastNamed(apps, inst.application)
  }

  datatype Index = Index(byDest: map<(string, string), App>, byName: map<string, App>, ambiguous: set<string>)

  ghost predicate Indexes(index: Index, apps: seq<App>) {
    && (forall ns, name :: Get(index.byDest, (ns, name)) == DeployedTo(apps, ns, name))
    && (forall name :: Get(index.byName, name) == LastNamed(apps, name))
    && (forall name :: name in index.ambiguous <==> CountNamed(apps, name) >= 2)
  }

  lemma {:induction false} NamedIffCounted(apps: seq<App>, name: string)
    ensures LastNamed(apps, name).Some? <==> CountNamed(apps, name) >= 1
    decreases |apps|
  {
    if apps != [] {
      NamedIffCounted(apps[..|apps| - 1], name);
    }
  }

  /** One more Application indexed. */
  lemma IndexNext(index: Index, apps: seq<App>, i: nat)
    requires i < |apps| && Indexes(index, apps[..i])
    ensures apps[i].name == "" ==> Indexes(index, apps[..i + 1])
    ensures apps[i].name != "" ==>
      var a := apps[i];
      Indexes(Index(if a.destination != "" then index.byDest[(a.destination, a.name) := a] else index.byDest,
                    index.byName[a.name := a],
                    if a.name in index.byName then index.ambiguous + {a.name} else index.ambiguous), apps[..i + 1])
  {
    var a := apps[i];
    assert apps[..i + 1][..i] == apps[..i];
    NamedIffCounted(apps[..i], a.name);
    assert Get(index.byName, a.name) == LastNamed(apps[..i], a.name);
    if a.name != "" {
      var byDest := if a.destination != "" then index.byDest[(a.destination, a.name) := a] else index.byDest;
      var ambiguous := if a.name in index.byName then index.ambiguous + {a.name} else index.ambiguous;
      forall ns, name ensures Get(byDest, (ns, name)) == DeployedTo(apps[..i + 1], ns, name) {
        assert Get(index.byDest, (ns, name)) == DeployedTo(apps[..i], ns, name);
      }
      var byName := index.byName[a.name := a];
      forall name ensures Get(byName, name) == LastNamed(apps[..i + 1], name) {
        assert Get(index.byName, name) == LastNamed(apps[..i], name);
      }
      forall name ensures name in ambiguous <==> CountNamed(apps[..i + 1], name) >= 2 {
        assert name in index.ambiguous <==> CountNamed(apps[..i], name) >= 2;
      }
    } else {
      forall ns, name ensures DeployedTo(apps[..i + 1], ns, name) == DeployedTo(apps[..i], ns, name) {}
      forall name ensures LastNamed(apps[..i + 1], name) == LastNamed(apps[..i], name) {}
      forall name ensures CountNamed(apps[..i + 1], name) == CountNamed(apps[..i], name) {}
    }
  }

  /** `_argo_index`. */
  method ArgoIndex(apps: seq<App>) returns (index: Index)
    ensures Indexes(index, apps)
  {
    var byDest: map<(string, string), App>, byName: map<string, App>, ambiguous: set<string> := map[], map[], {};
    for i := 0 to |apps|
      invariant Indexes(Index(byDest, byName, ambiguous), apps[..i])
    {
      IndexNext(Index(byDest, byName, ambiguous), apps, i);
      var a := apps[i];
      if a.name == "" {
        continue;
      }
      if a.destination != "" {
        byDest := byDest[(a.destination, a.name) := a];
      }
      if a.name in byName {
        ambiguous := ambiguous + {a.name};
      }
      byName := byName[a.name := a];
    }
    assert apps[..|apps|] == apps;
    index := Index(byDest, byName, ambiguous);
  }

  function LevelOfInstance(reading: Reading, inst: Instance): Level {
    if reading.Unreadable? then Unknown
    else match MatchOf(reading.apps, inst)
      case None => Unknown
      case Some(a) => ArgoLevel(a.health, a.sync)
  }

  /** The four-way match of the instance loop. */
  method MatchInstance(reading: Reading, index: Index, inst: Instance) returns (level: Level)
    requires Indexes(index, if reading.Read? then reading.apps else [])
    ensures level == LevelOfInstance(reading, inst)
  {
    if reading.Unreadable? {
      return Unknown;
    }
    var key := (inst.namespace, inst.application);
    assert Get(index.byDest, (inst.namespace, inst.application))
        == DeployedTo(reading.apps, inst.namespace, inst.application);
    assert Get(index.byName, inst.application) == LastNamed(reading.apps, inst.application);
    if inst.application != "" && key in index.byDest {
      level := ArgoLevel(index.byDest[key].health, index.byDest[key].sync);
    } else if inst.application == "" || inst.application !in index.byName {
      NamedIffCounted(reading.apps, inst.application);
      level := Unknown;
    } else if inst.application in index.ambiguous {
      level := Unknown;
    } else {
      level := ArgoLevel(index.byName[inst.application].health, index.byName[inst.application].sync);
    }
  }

  // ----- Components -------------------------------------------------------

  datatype ComponentRecord = ComponentRecord(level: Level, argo: Source, others: seq<Source>)

  /** What one poll brings to an overlay. */
  datatype Inputs = Inputs(
    reading: Reading, observedAt: string, globals: map<Kind, Source>, narrowed: map<Kind, map<string, Source>>)

  function OtherSource(inputs: Inputs, k: Kind): Source {
    if k in inputs.globals then inputs.globals[k] else MakeSource(k, NotConfigured, Unknown, None)
  }

  function RowFor(inputs: Inputs, k: Kind, cid: string): Source {
    if k in inputs.narrowed && cid in inputs.narrowed[k] then inputs.narrowed[k][cid] else OtherSource(inputs, k)
  }

  function RowsFor(inputs: Inputs, cid: string): seq<Source> {
    seq(|OTHER_KINDS|, i requires 0 <= i < |OTHER_KINDS| => RowFor(inputs, OTHER_KINDS[i], cid))
  }

  function InstanceLevels(reading: Reading, instances: seq<Instance>): (levels: seq<Level>)
    ensures |levels| == |instances|
    decreases |instances|
  {
    if instances == [] then []
    else InstanceLevels(reading, instances[..|instances| - 1]) + [LevelOfInstance(reading, instances[|instances| - 1])]
  }

  function RecordOf(inputs: Inputs, c: Component): ComponentRecord {
    if !c.resolved then
      ComponentRecord(Unknown, MakeSource(Argocd, Configured, Unknown, None), RowsFor(inputs, c.id))
    else
      var level := WorstOf(InstanceLevels(inputs.reading, c.instances));
      var status := if inputs.reading.Unreadable? then Failed else Configured;
      ComponentRecord(level, MakeSource(Argocd, status, level, Some(inputs.observedAt)), RowsFor(inputs, c.id))
  }

  type Records = map<string, ComponentRecord>

  /** The component records; a repeated id keeps its last record. */
  function RecordsOf(inputs: Inputs, cs: seq<Component>): Records
    decreases |cs|
  {
    if cs == [] then map[]
    else
      var before, c := RecordsOf(inputs, cs[..|cs| - 1]), cs[|cs| - 1];
      if IsWorkload(c) then before[c.id := RecordOf(inputs, c)] else before
  }

  function InstancesOf(reading: Reading, before: map<string, Level>, instances: seq<Instance>): map<string, Level>
    decreases |instances|
  {
    if instances == [] then before
    else
      var last := instances[|instances| - 1];
      InstancesOf(reading, before, instances[..|instances| - 1])[last.id := LevelOfInstance(reading, last)]
  }

  function AllInstances(reading: Reading, cs: seq<Component>): map<string, Level>
    decreases |cs|
  {
    if cs == [] then map[]
    else
      var before, c := AllInstances(reading, cs[..|cs| - 1]), cs[|cs| - 1];
      if IsWorkload(c) then InstancesOf(reading, before, c.instances) else before
  }

  lemma {:induction false} RecordsAreTheWorkloads(inputs: Inputs, cs: seq<Component>)
    ensures forall id :: id in RecordsOf(inputs, cs) <==> id in WorkloadIds(cs)
    decreases |cs|
  {
    if cs != [] {
      RecordsAreTheWorkloads(inputs, cs[..|cs| - 1]);
    }
  }

  /** The levels of the listed records, in order; ids without one are passed over. */
  function KnownLevels(records: Records, ids: seq<string>): seq<Level>
    decreases |ids|
  {
    if ids == [] then []
    else
      var last := ids[|ids| - 1];
      KnownLevels(records, ids[..|ids| - 1]) + if last in records then [records[last].level] else []
  }

  /** The fleet-wide Argo source. */
  function ArgoSource(inputs: Inputs, worst: Level): Source {
    match inputs.reading
    case Read(_) => MakeSource(Argocd, Configured, worst, Some(inputs.observedAt))
    case Unreadable(disabled) =>
      MakeSource(Argocd, NotConfigured, worst, Some(inputs.observedAt)).(
        status := if disabled then NotConfigured else Failed)
  }

  function SourcesOf(inputs: Inputs, worst: Level): map<Kind, Source> {
    map k: Kind | k in [Argocd] + OTHER_KINDS ::
      if k == Argocd then ArgoSource(inputs, worst) else OtherSource(inputs, k)
  }

  datatype Document = Document(
    observedAt: string, stale: bool, sources: map<Kind, Source>, order: seq<string>, components: Records,
    instances: map<string, Level>)

  function OverlayOf(plan: Plan, inputs: Inputs): Document {
    var records, order := RecordsOf(inputs, plan.components), WorkloadIds(plan.components);
    var sources := SourcesOf(inputs, WorstOf(KnownLevels(records, order)));
    Document(inputs.observedAt, exists k :: k in sources && sources[k].status.Stale?, sources, order, records,
             AllInstances(inputs.reading, plan.components))
  }

  /** One component's turn of the loop. */
  method JoinComponent(inputs: Inputs, index: Index, c: Component, seen: map<string, Level>)
    returns (r: ComponentRecord, instances: map<string, Level>)
    requires Indexes(index, if inputs.reading.Read? then inputs.reading.apps else [])
    ensures r == RecordOf(inputs, c) && instances == InstancesOf(inputs.reading, seen, c.instances)
  {
    var levels: seq<Level> := [];
    instances := seen;
    for i := 0 to |c.instances|
      invariant levels == InstanceLevels(inputs.reading, c.instances[..i])
      invariant instances == InstancesOf(inputs.reading, seen, c.instances[..i])
    {
      assert c.instances[..i + 1][..i] == c.instances[..i];
      var level := MatchInstance(inputs.reading, index, c.instances[i]);
      levels := levels + [level];
      instances := instances[c.instances[i].id := level];
    }
    assert c.instances[..|c.instances|] == c.instances;
    if !c.resolved {
      r := ComponentRecord(Unknown, MakeSource(Argocd, Configured, Unknown, None), RowsFor(inputs, c.id));
    } else {
      var level := Rollup(levels);
      var status := if inputs.reading.Unreadable? then Failed else Configured;
      r := ComponentRecord(level, MakeSource(Argocd, status, level, Some(inputs.observedAt)), RowsFor(inputs, c.id));
    }
  }

  /** `build_overlay`, up to its rollups. */
  method BuildOverlay(plan: Plan, inputs: Inputs) returns (o: Document)
    ensures o == OverlayOf(plan, inputs)
  {
    var index := ArgoIndex(if inputs.reading.Read? then inputs.reading.apps else []);
    var records: Records, order: seq<string>, instances: map<string, Level> := map[], [], map[];
    var cs := plan.components;
    for i := 0 to |cs|
      invariant records == RecordsOf(inputs, cs[..i])
      invariant order == WorkloadIds(cs[..i])
      invariant instances == AllInstances(inputs.reading, cs[..i])
    {
      assert cs[..i + 1][..i] == cs[..i];
      if !IsWorkload(cs[i]) {
        continue;
      }
      var r;
      r, instances := JoinComponent(inputs, index, cs[i], instances);
      if cs[i].id !in order {
        order := order + [cs[i].id];
      }
      records := records[cs[i].id := r];
    }
    assert cs[..|cs|] == cs;
    var worst := Rollup(KnownLevels(records, order));
    var sources := SourcesOf(inputs, worst);
    o := Document(inputs.observedAt, exists k :: k in sources && sources[k].status.Stale?, sources, order, records,
                  instances);
  }
}
