/** What the overlay's levels can be trusted to mean. */
module HealthClaims {
  import opened Wrappers
  import opened Levels
  import opened Plans
  import opened Sorting
  import opened Collector
  import opened Overlay
  import opened Rollups

  // ----- Matching ---------------------------------------------------------

  predicate Deploys(apps: seq<App>, ns: string, name: string) {
    ns != "" && name != "" && exists i :: 0 <= i < |apps| && DeploysTo(apps[i], ns, name)
  }

  predicate OnlyOneNamed(apps: seq<App>, name: string, a: App) {
    exists i :: 0 <= i < |apps| && apps[i] == a && a.name == name
      && forall j :: 0 <= j < |apps| && apps[j].name == name ==> j == i
  }

  lemma {:induction false} DeployedToIs(apps: seq<App>, ns: string, name: string)
    ensures DeployedTo(apps, ns, name).Some? <==> Deploys(apps, ns, name)
    ensures DeployedTo(apps, ns, name).Some? ==>
      DeployedTo(apps, ns, name).value in apps && DeploysTo(DeployedTo(apps, ns, name).value, ns, name)
    decreases |apps|
  {
    if apps != [] {
      var last := |apps| - 1;
      DeployedToIs(apps[..last], ns, name);
      assert forall i :: 0 <= i < last ==> apps[..last][i] == apps[i];
    }
  }

  lemma {:induction false} CountedIs(apps: seq<App>, name: string)
    requires name != ""
    ensures CountNamed(apps, name) == 0 <==> forall i :: 0 <= i < |apps| ==> apps[i].name != name
    ensures CountNamed(apps, name) == 1 ==>
              LastNamed(apps, name).Some? && OnlyOneNamed(apps, name, LastNamed(apps, name).value)
    ensures CountNamed(apps, name) >= 2 ==> forall a :: !OnlyOneNamed(apps, name, a)
    decreases |apps|
  {
    if apps != [] {
      var last := |apps| - 1;
      var front := apps[..last];
      CountedIs(front, name);
      assert forall i :: 0 <= i < last ==> front[i] == apps[i];
      if apps[last].name == name {
        if CountNamed(front, name) >= 1 {
          var i :| 0 <= i < last && front[i].name == name;
          assert apps[i].name == name && i != last;
        }
      } else {
        forall a ensures OnlyOneNamed(front, name, a) <==> OnlyOneNamed(apps, name, a) {
          OnlyOneStep(apps, name, a);
        }
      }
    }
  }

  lemma OnlyOneStep(apps: seq<App>, name: string, a: App)
    requires apps != [] && apps[|apps| - 1].name != name
    ensures OnlyOneNamed(apps[..|apps| - 1], name, a) <==> OnlyOneNamed(apps, name, a)
  {
    var front := apps[..|apps| - 1];
    assert forall i :: 0 <= i < |front| ==> front[i] == apps[i];
    if OnlyOneNamed(front, name, a) {
      var i :| 0 <= i < |front| && front[i] == a && a.name == name
               && forall j :: 0 <= j < |front| && front[j].name == name ==> j == i;
      assert apps[i] == a;
    }
    if OnlyOneNamed(apps, name, a) {
      var i :| 0 <= i < |apps| && apps[i] == a && a.name == name
               && forall j :: 0 <= j < |apps| && apps[j].name == name ==> j == i;
      assert front[i] == a;
    }
  }

  /** An instance is matched to an Application of its name deployed to its namespace when
      there is one, and otherwise to the only Application of its name anywhere. */
  lemma MatchIs(apps: seq<App>, inst: Instance, a: App)
    ensures MatchOf(apps, inst) == Some(a) ==>
      && a in apps && a.name == inst.application && inst.application != ""
      && (if Deploys(apps, inst.namespace, inst.application) then a.destination == inst.namespace
          else OnlyOneNamed(apps, inst.application, a))
    ensures MatchOf(apps, inst).None? <==>
      && !Deploys(apps, inst.namespace, inst.application)
      && (inst.application == "" || CountNamed(apps, inst.application) != 1)
  {
    DeployedToIs(apps, inst.namespace, inst.application);
    NamedIffCounted(apps, inst.application);
    if inst.application != "" {
      CountedIs(apps, inst.application);
    }
  }

  /** The name-only fallback is not confined to instances without a namespace: an instance
      is matched to an Application that deploys elsewhere exactly when none of its name
      deploys to its namespace and exactly one of its name deploys somewhere else. */
  lemma MatchedElsewhereIff(apps: seq<App>, inst: Instance)
    requires inst.namespace != "" && inst.application != ""
    ensures (MatchOf(apps, inst).Some? && MatchOf(apps, inst).value.destination != inst.namespace) <==>
            (!Deploys(apps, inst.namespace, inst.application) && CountNamed(apps, inst.application) == 1)
  {
    DeployedToIs(apps, inst.namespace, inst.application);
    NamedIffCounted(apps, inst.application);
    CountedIs(apps, inst.application);
    if CountNamed(apps, inst.application) == 1 {
      var i :| 0 <= i < |apps| && apps[i] == LastNamed(apps, inst.application).value;
      assert apps[i].destination == inst.namespace ==> DeploysTo(apps[i], inst.namespace, inst.application);
    }
  }

  /** So a missing deployment can read green: nothing is deployed to the instance's
      namespace, and its component is healthy. */
  lemma MissingDeploymentReadsGreenExample(inputs: Inputs)
    requires inputs.reading == Read([App("hermes-a", "elsewhere", "Healthy", "Synced")])
    ensures var c := Component("a", Agent, "a", true, [Instance("a1", "hermes-a", "hermes-a")]);
      RecordOf(inputs, c).level == Healthy && !Deploys(inputs.reading.apps, "hermes-a", "hermes-a")
  {
    var apps, inst := inputs.reading.apps, Instance("a1", "hermes-a", "hermes-a");
    assert apps[..0] == [] && [inst][..0] == [];
    DeployedToIs(apps, "hermes-a", "hermes-a");
    assert CountNamed([], "hermes-a") == 0 && CountNamed(apps, "hermes-a") == 1;
    assert MatchOf(apps, inst) == Some(apps[0]);
    assert InstanceLevels(inputs.reading, [inst]) == InstanceLevels(inputs.reading, []) + [Healthy];
    GreenIff([Healthy]);
  }

  // ----- A green component ------------------------------------------------

  predicate GreenInstance(apps: seq<App>, inst: Instance) {
    var app := MatchOf(apps, inst);
    app.Some? && app.value.health == "Healthy" && app.value.sync != "OutOfSync"
  }

  lemma {:induction false} LevelOfEach(reading: Reading, instances: seq<Instance>, i: nat)
    requires i < |instances|
    ensures InstanceLevels(reading, instances)[i] == LevelOfInstance(reading, instances[i])
    decreases |instances|
  {
    if i < |instances| - 1 {
      LevelOfEach(reading, instances[..|instances| - 1], i);
    }
  }

  /** A component is green exactly when its binding is resolved, the Applications were read,
      it has an instance, and every instance is matched to a healthy, synced Application. */
  lemma ComponentIsGreenIff(inputs: Inputs, c: Component)
    ensures RecordOf(inputs, c).level == Healthy <==>
            && c.resolved && inputs.reading.Read? && c.instances != []
            && forall i :: 0 <= i < |c.instances| ==> GreenInstance(inputs.reading.apps, c.instances[i])
  {
    var levels := InstanceLevels(inputs.reading, c.instances);
    GreenAtEveryIndex(levels);
    forall i | 0 <= i < |c.instances| ensures levels[i] == Healthy <==> GreenIn(inputs.reading, c.instances[i]) {
      LevelOfEach(inputs.reading, c.instances, i);
      GreenInstanceIff(inputs.reading, c.instances[i]);
    }
    assert c.instances != [] ==> (levels[0] == Healthy <==> GreenIn(inputs.reading, c.instances[0]));
  }

  /** What a matched Application says of an instance's level. */
  lemma InstanceLevelIs(apps: seq<App>, inst: Instance)
    ensures var level, app := LevelOfInstance(Read(apps), inst), MatchOf(apps, inst);
      && (level == Unhealthy <==> app.Some? && app.value.health in {"Degraded", "Missing"})
      && (level == Degraded <==>
          app.Some? && (app.value.health in {"Progressing", "Suspended"}
                        || (app.value.health == "Healthy" && app.value.sync == "OutOfSync")))
      && (level == Healthy <==> app.Some? && app.value.health == "Healthy" && app.value.sync != "OutOfSync")
  {
  }

  /** A component is unhealthy exactly when it is resolved and one of its instances is matched to
      an Application that is degraded or missing. */
  lemma ComponentIsUnhealthyIff(inputs: Inputs, c: Component)
    ensures RecordOf(inputs, c).level == Unhealthy <==>
            && c.resolved && inputs.reading.Read?
            && exists i :: 0 <= i < |c.instances| && IsDown(inputs.reading.apps, c.instances[i])
  {
    var levels := InstanceLevels(inputs.reading, c.instances);
    WorstIsTheMaximum(levels, WorstOf(levels));
    forall i | 0 <= i < |c.instances|
      ensures levels[i] == Unhealthy <==> inputs.reading.Read? && IsDown(inputs.reading.apps, c.instances[i])
    {
      LevelOfEach(inputs.reading, c.instances, i);
      if inputs.reading.Read? {
        InstanceLevelIs(inputs.reading.apps, c.instances[i]);
      }
    }
    assert forall l :: l in levels <==> exists i :: 0 <= i < |levels| && levels[i] == l;
    assert forall l :: Rank(l) >= Rank(Unhealthy) ==> l == Unhealthy;
  }

  predicate IsDown(apps: seq<App>, inst: Instance) {
    var app := MatchOf(apps, inst);
    app.Some? && (app.value.health == "Degraded" || app.value.health == "Missing")
  }

  predicate GreenIn(reading: Reading, inst: Instance) { reading.Read? && GreenInstance(reading.apps, inst) }

  lemma GreenInstanceIff(reading: Reading, inst: Instance)
    ensures LevelOfInstance(reading, inst) == Healthy <==> GreenIn(reading, inst)
  {
  }

  lemma GreenAtEveryIndex(levels: seq<Level>)
    ensures WorstOf(levels) == Healthy <==> levels != [] && forall i :: 0 <= i < |levels| ==> levels[i] == Healthy
  {
    GreenIff(levels);
    assert forall i :: 0 <= i < |levels| ==> levels[i] in levels;
  }

  // ----- Over poll histories ----------------------------------------------

  /** The inputs a poll hands to the overlay. When the collection as a whole fell over, the
      overlay gets no source at all. */
  function InputsAfter(history: History, usable: bool, reading: Reading, at: string): Inputs
    requires history != [] && Complete(history[|history| - 1])
  {
    if usable then
      Inputs(reading, at, map k | k in JOBS :: Served(history, k).fleet,
             map k | k in JOBS :: Served(history, k).narrowed)
    else Inputs(reading, at, map[], map[])
  }

  function OverlayAfter(plan: Plan, history: History, usable: bool, reading: Reading, at: string): Document
    requires history != [] && Complete(history[|history| - 1])
  {
    OverlayOf(plan, InputsAfter(history, usable, reading, at))
  }

  lemma RowsAreServed(history: History, usable: bool, reading: Reading, at: string, k: Kind, cid: string)
    requires history != [] && Complete(history[|history| - 1]) && k in OTHER_KINDS
    ensures var inputs := InputsAfter(history, usable, reading, at);
      var absent := MakeSource(k, NotConfigured, Unknown, None);
      && OtherSource(inputs, k) == (if usable then RowOf(Served(history, k), None) else absent)
      && RowFor(inputs, k, cid) == (if usable then RowOf(Served(history, k), Some(cid)) else absent)
  {
    assert k in JOBS;
  }

  lemma FleetSource(plan: Plan, history: History, usable: bool, reading: Reading, at: string, k: Kind)
    requires history != [] && Complete(history[|history| - 1]) && k in OTHER_KINDS
    ensures k in OverlayAfter(plan, history, usable, reading, at).sources
    ensures OverlayAfter(plan, history, usable, reading, at).sources[k]
         == (if usable then Served(history, k).fleet else MakeSource(k, NotConfigured, Unknown, None))
  {
    RowsAreServed(history, usable, reading, at, k, "");
  }

  lemma {:induction false} RecordsHonest(inputs: Inputs, cs: seq<Component>, id: string)
    requires id in RecordsOf(inputs, cs)
    ensures Honest(RecordsOf(inputs, cs)[id].argo) && RecordsOf(inputs, cs)[id].others == RowsFor(inputs, id)
    ensures RecordsOf(inputs, cs)[id].argo.status.Configured? ==>
              RecordsOf(inputs, cs)[id].argo.level == RecordsOf(inputs, cs)[id].level
    ensures inputs.reading.Unreadable? ==> RecordsOf(inputs, cs)[id].level == Unknown
    decreases |cs|
  {
    var last := cs[|cs| - 1];
    if IsWorkload(last) && last.id == id {
      var levels := InstanceLevels(inputs.reading, last.instances);
      if inputs.reading.Unreadable? {
        UnreadIsUnknown(inputs.reading, last.instances);
        WorstIsTheMaximum(levels, Unknown);
      }
    } else {
      RecordsHonest(inputs, cs[..|cs| - 1], id);
    }
  }

  lemma {:induction false} UnreadIsUnknown(reading: Reading, instances: seq<Instance>)
    requires reading.Unreadable?
    ensures forall l :: l in InstanceLevels(reading, instances) ==> l == Unknown
    decreases |instances|
  {
    if instances != [] {
      UnreadIsUnknown(reading, instances[..|instances| - 1]);
    }
  }

  lemma OthersServed(plan: Plan, history: History, usable: bool, reading: Reading, at: string, id: string, i: nat)
    requires history != [] && Complete(history[|history| - 1]) && i < |OTHER_KINDS|
    requires id in OverlayAfter(plan, history, usable, reading, at).components
    ensures var others := OverlayAfter(plan, history, usable, reading, at).components[id].others;
      && |others| == |OTHER_KINDS|
      && others[i] == (if usable then RowOf(Served(history, OTHER_KINDS[i]), Some(id))
                       else MakeSource(OTHER_KINDS[i], NotConfigured, Unknown, None))
  {
    RecordsHonest(InputsAfter(history, usable, reading, at), plan.components, id);
    RowsAreServed(history, usable, reading, at, OTHER_KINDS[i], id);
  }

  /** After any history of polls, every source of the overlay, fleet-wide or on a component,
      reads unknown when it says it is not configured or failed; and an overlay built without
      a reading of the Applications has no component at any other level than unknown. */
  lemma OverlayIsHonest(plan: Plan, history: History, usable: bool, reading: Reading, at: string)
    requires history != [] && Complete(history[|history| - 1]) && AdaptersUseTheConstructor(history)
    ensures var o := OverlayAfter(plan, history, usable, reading, at);
      && (forall k :: k in o.sources ==> o.sources[k].kind == k && Honest(o.sources[k]))
      && (forall id :: id in o.components ==>
            && Honest(o.components[id].argo)
            && (reading.Unreadable? ==> o.components[id].level == Unknown)
            && forall i :: 0 <= i < |o.components[id].others| ==> Honest(o.components[id].others[i]))
  {
    var o, inputs := OverlayAfter(plan, history, usable, reading, at), InputsAfter(history, usable, reading, at);
    forall k | k in o.sources ensures o.sources[k].kind == k && Honest(o.sources[k]) {
      if k != Argocd {
        assert k in OTHER_KINDS;
        RowsAreServed(history, usable, reading, at, k, "");
        if usable { NeverGreenUnobserved(history, k, None); }
      }
    }
    forall id | id in o.components
      ensures Honest(o.components[id].argo) && (reading.Unreadable? ==> o.components[id].level == Unknown)
      ensures forall i :: 0 <= i < |o.components[id].others| ==> Honest(o.components[id].others[i])
    {
      RecordsHonest(inputs, plan.components, id);
      forall i | 0 <= i < |o.components[id].others| ensures Honest(o.components[id].others[i]) {
        OthersServed(plan, history, usable, reading, at, id, i);
        if usable { NeverGreenUnobserved(history, OTHER_KINDS[i], Some(id)); }
      }
    }
  }

  /** An overlay is marked stale exactly when some adapter failed in this poll after having
      succeeded before, or answered with a stale record itself. */
  lemma StaleIff(plan: Plan, history: History, usable: bool, reading: Reading, at: string)
    requires history != [] && Complete(history[|history| - 1])
    ensures OverlayAfter(plan, history, usable, reading, at).stale <==>
            usable && exists k :: k in OTHER_KINDS && SaysStale(history, k)
  {
    var sources := OverlayAfter(plan, history, usable, reading, at).sources;
    forall k | k in OTHER_KINDS
      ensures k in sources && (sources[k].status.Stale? <==> usable && SaysStale(history, k))
    {
      FleetSource(plan, history, usable, reading, at, k);
      ServedStaleIff(history, k);
    }
    SourceKinds(plan, InputsAfter(history, usable, reading, at));
  }

  lemma SourceKinds(plan: Plan, inputs: Inputs)
    ensures var o := OverlayOf(plan, inputs);
      && (forall k :: k in o.sources ==> k == Argocd || k in OTHER_KINDS)
      && Argocd in o.sources && !o.sources[Argocd].status.Stale?
      && (o.stale <==> exists k :: k in OTHER_KINDS && k in o.sources && o.sources[k].status.Stale?)
  {
  }

  ghost predicate SaysStale(history: History, k: Kind) {
    history != [] && k in history[|history| - 1] &&
    var outcome, earlier := history[|history| - 1][k], history[..|history| - 1];
    match outcome
    case Succeeded(a) => a.fleet.status.Stale?
    case Unwired => false
    case Broken => exists n: nat :: LastSuccess(earlier, k, n)
  }

  lemma ServedStaleIff(history: History, k: Kind)
    requires history != [] && k in history[|history| - 1]
    ensures Served(history, k).fleet.status.Stale? <==> SaysStale(history, k)
  {
    MemoryIsTheLastSuccess(history[..|history| - 1], k);
  }

  /** The platform's own aggregate is green only when every component is, and every other
      platform source was reported green by its adapter's most recent success. */
  lemma GreenSystemWasObserved(plan: Plan, history: History, usable: bool, reading: Reading, at: string,
                               inventory: seq<Workload>)
    requires history != [] && Complete(history[|history| - 1]) && AdaptersUseTheConstructor(history)
    requires SystemOf(inventory, OverlayAfter(plan, history, usable, reading, at).sources).level == Healthy
    ensures var o := OverlayAfter(plan, history, usable, reading, at);
      && usable && reading.Read?
      && o.order != [] && (forall id :: id in o.order ==> id in o.components && o.components[id].level == Healthy)
      && forall k :: k in {Grafana, Communication, Backup, Reconciliation, Uptime} ==> WasGreen(history, k)
  {
    var o := OverlayAfter(plan, history, usable, reading, at);
    SystemGreenIff(o.sources);
    SystemKindsAre();
    assert Argocd in SYSTEM_KINDS && Grafana in SYSTEM_KINDS;
    FleetSource(plan, history, usable, reading, at, Grafana);
    GreenArgo(plan, InputsAfter(history, usable, reading, at));
    forall k | k in SYSTEM_KINDS && k != Argocd ensures WasGreen(history, k) {
      assert k in OTHER_KINDS;
      FleetSource(plan, history, usable, reading, at, k);
      GreenWasObserved(history, k, None);
    }
  }

  /** The adapter's most recent success reported the fleet green. */
  ghost predicate WasGreen(history: History, k: Kind) {
    exists n: nat :: LastSuccess(history, k, n) && history[n][k].answer.fleet.level == Healthy
  }

  lemma SystemKindsAre()
    ensures forall k :: k in SYSTEM_KINDS <==> k in {Argocd, Grafana, Communication, Backup, Reconciliation, Uptime}
  {
  }

  lemma SystemGreenIff(sources: map<Kind, Source>)
    ensures WorstOf(SystemLevels(sources)) == Healthy <==>
            forall k :: k in SYSTEM_KINDS ==> LevelOfSource(sources, k) == Healthy
  {
    var levels := SystemLevels(sources);
    GreenIff(levels);
    assert forall i :: 0 <= i < |SYSTEM_KINDS| ==>
             levels[i] == LevelOfSource(sources, SYSTEM_KINDS[i]) && levels[i] in levels;
    forall k | k in SYSTEM_KINDS && WorstOf(levels) == Healthy ensures LevelOfSource(sources, k) == Healthy {
      var i :| 0 <= i < |SYSTEM_KINDS| && SYSTEM_KINDS[i] == k;
      assert levels[i] == LevelOfSource(sources, k);
    }
  }

  /** The fleet-wide Argo source is green only when there are components and all are green. */
  lemma GreenArgo(plan: Plan, inputs: Inputs)
    ensures var o := OverlayOf(plan, inputs);
      Argocd in o.sources && (o.sources[Argocd].level == Healthy <==>
        inputs.reading.Read? && o.order != []
        && forall id :: id in o.order ==> id in o.components && o.components[id].level == Healthy)
  {
    var o := OverlayOf(plan, inputs);
    var levels := KnownLevels(o.components, o.order);
    RecordsAreTheWorkloads(inputs, plan.components);
    GreenIff(levels);
    forall id | id in o.order ensures o.components[id].level in levels {
      KnownLevelsAre(o.components, o.order, o.components[id].level);
    }
    forall l | l in levels ensures exists id :: id in o.order && id in o.components && o.components[id].level == l {
      KnownLevelsAre(o.components, o.order, l);
    }
    assert o.order != [] ==> o.order[0] in o.order;
    assert levels != [] ==> levels[0] in levels;
  }

  lemma {:induction false} KnownLevelsAre(records: Records, ids: seq<string>, l: Level)
    ensures l in KnownLevels(records, ids) <==> exists id :: id in ids && id in records && records[id].level == l
    decreases |ids|
  {
    if ids != [] {
      var front, last := ids[..|ids| - 1], ids[|ids| - 1];
      assert ids == front + [last];
      KnownLevelsAre(records, front, l);
    }
  }

  // ----- The Argo rows and the instances ----------------------------------

  /** The fleet-wide Argo source and a component's own: configured when the Applications were read,
      failed when they could not be, and unconfigured fleet-wide when Argo is switched off. */
  lemma ArgoRowsAre(plan: Plan, inputs: Inputs, c: Component)
    ensures var fleet, r := OverlayOf(plan, inputs).sources[Argocd], RecordOf(inputs, c);
      && fleet.kind == Argocd && fleet.observedAt == Some(inputs.observedAt)
      && (fleet.status == Configured <==> inputs.reading.Read?)
      && (fleet.status == NotConfigured <==> inputs.reading.Unreadable? && inputs.reading.disabled)
      && (fleet.status == Failed <==> inputs.reading.Unreadable? && !inputs.reading.disabled)
      && (inputs.reading.Unreadable? ==> fleet.level == Unknown)
      && r.argo.kind == Argocd && r.argo.level == r.level
      && (!c.resolved ==> r.level == Unknown && r.argo.status == Configured && r.argo.observedAt.None?)
      && (c.resolved ==> r.argo.observedAt == Some(inputs.observedAt)
                         && (r.argo.status == Configured <==> inputs.reading.Read?)
                         && (r.argo.status == Failed <==> inputs.reading.Unreadable?))
  {
    var o := OverlayOf(plan, inputs);
    assert Argocd in [Argocd] + OTHER_KINDS;
    assert o.sources[Argocd] == ArgoSource(inputs, WorstOf(KnownLevels(o.components, o.order)));
    if inputs.reading.Unreadable? {
      UnreadIsUnknown(inputs.reading, c.instances);
      WorstIsTheMaximum(InstanceLevels(inputs.reading, c.instances), Unknown);
    }
  }

  /** The overlay's record under an id is that of the plan's last component of the id. */
  lemma {:induction false} RecordIs(inputs: Inputs, cs: seq<Component>, i: nat)
    requires i < |cs| && (cs[i].kind == Agent || cs[i].kind == Application)
    requires forall j :: i < j < |cs| ==> cs[j].id != cs[i].id
    ensures cs[i].id in RecordsOf(inputs, cs) && RecordsOf(inputs, cs)[cs[i].id] == RecordOf(inputs, cs[i])
    decreases |cs|
  {
    if i < |cs| - 1 {
      RecordIs(inputs, cs[..|cs| - 1], i);
    }
  }

  /** An instance under an id of its own is listed at its own level. */
  predicate OnlyInstance(cs: seq<Component>, i: nat, k: nat)
    requires i < |cs| && k < |cs[i].instances|
  {
    forall j, l :: 0 <= j < |cs| && 0 <= l < |cs[j].instances| && (j != i || l != k) ==>
      cs[j].instances[l].id != cs[i].instances[k].id
  }

  lemma {:induction false} InstancesOfIs(reading: Reading, before: map<string, Level>, instances: seq<Instance>,
                                         id: string)
    ensures (forall l :: 0 <= l < |instances| ==> instances[l].id != id) ==>
      (id in InstancesOf(reading, before, instances) <==> id in before)
      && (id in before ==> InstancesOf(reading, before, instances)[id] == before[id])
    decreases |instances|
  {
    if instances != [] {
      InstancesOfIs(reading, before, instances[..|instances| - 1], id);
    }
  }

  lemma {:induction false} InstanceAt(reading: Reading, before: map<string, Level>, instances: seq<Instance>, k: nat)
    requires k < |instances| && forall l :: k < l < |instances| ==> instances[l].id != instances[k].id
    ensures instances[k].id in InstancesOf(reading, before, instances)
    ensures InstancesOf(reading, before, instances)[instances[k].id] == LevelOfInstance(reading, instances[k])
    decreases |instances|
  {
    if k < |instances| - 1 {
      InstanceAt(reading, before, instances[..|instances| - 1], k);
    }
  }

  lemma {:induction false} InstancesAre(reading: Reading, cs: seq<Component>, i: nat, k: nat)
    requires i < |cs| && k < |cs[i].instances| && (cs[i].kind == Agent || cs[i].kind == Application)
    requires OnlyInstance(cs, i, k)
    ensures var id := cs[i].instances[k].id;
      id in AllInstances(reading, cs) && AllInstances(reading, cs)[id] == LevelOfInstance(reading, cs[i].instances[k])
    decreases |cs|
  {
    var last := |cs| - 1;
    var before := AllInstances(reading, cs[..last]);
    if i < last {
      assert forall j, l :: 0 <= j < last && 0 <= l < |cs[..last][j].instances| && (j != i || l != k) ==>
        cs[..last][j].instances[l].id != cs[..last][i].instances[k].id;
      InstancesAre(reading, cs[..last], i, k);
      InstancesOfIs(reading, before, cs[last].instances, cs[i].instances[k].id);
    } else {
      InstanceAt(reading, before, cs[i].instances, k);
    }
  }
}
