/** The named aggregates of the overlay
    (control-plane/nexus/plugin_api.py:3957-4005, 4015-4037, 4040-4122). */
module Rollups {
  import opened Wrappers
  import opened Levels
  import opened Plans
  import opened Sorting
  import opened Overlay
  import Backups
  import BackupsDot

  datatype Entry = Entry(level: Level, members: seq<string>)

  function Affected(records: Records, ids: seq<string>): seq<string>
    decreases |ids|
  {
    if ids == [] then []
    else
      var last := ids[|ids| - 1];
      Affected(records, ids[..|ids| - 1])
      + if last in records && NeedsAttention(records[last].level) then [last] else []
  }

  /** `_rollup_entry`: the ladder over the known members, and the affected ones sorted. */
  function EntryOf(records: Records, ids: seq<string>): Entry {
    Entry(WorstOf(KnownLevels(records, ids)), Sorted(Affected(records, ids)))
  }

  /** A canvas sheet and the components its cards show, repeats included. */
  datatype Sheet = Sheet(id: string, cards: seq<string>)

  datatype BundleProfiles = BundleProfiles(name: string, profiles: set<string>)

  /** A platform workload and the source kind that stands for it, if any. */
  datatype Workload = Workload(id: string, source: Option<Kind>)

  function Without(ids: seq<string>, hidden: set<string>): seq<string>
    decreases |ids|
  {
    if ids == [] then []
    else Without(ids[..|ids| - 1], hidden) + if ids[|ids| - 1] in hidden then [] else [ids[|ids| - 1]]
  }

  /** The ids of one kind, as the plan lists them. */
  function OfKind(cs: seq<Component>, kind: ComponentKind): seq<string>
    decreases |cs|
  {
    if cs == [] then []
    else OfKind(cs[..|cs| - 1], kind) + if cs[|cs| - 1].kind == kind then [cs[|cs| - 1].id] else []
  }

  predicate Contains(records: Records, n: Node) { n.parent != "" && n.ref in records }

  /** Each group's members that have a record, in view order. */
  function GroupMembers(nodes: seq<Node>, records: Records): map<string, seq<string>>
    decreases |nodes|
  {
    if nodes == [] then map[]
    else
      var before, n := GroupMembers(nodes[..|nodes| - 1], records), nodes[|nodes| - 1];
      if Contains(records, n) then before[n.parent := (if n.parent in before then before[n.parent] else []) + [n.ref]]
      else before
  }

  function Parented(nodes: seq<Node>, records: Records): set<string> {
    set n | n in nodes && Contains(records, n) :: n.ref
  }

  /** The group loop. */
  method CollectGroups(nodes: seq<Node>, records: Records)
    returns (groups: map<string, seq<string>>, parented: set<string>)
    ensures groups == GroupMembers(nodes, records) && parented == Parented(nodes, records)
  {
    groups, parented := map[], {};
    for i := 0 to |nodes|
      invariant groups == GroupMembers(nodes[..i], records)
      invariant parented == Parented(nodes[..i], records)
    {
      assert nodes[..i + 1][..i] == nodes[..i] && nodes[..i + 1] == nodes[..i] + [nodes[i]];
      var n := nodes[i];
      if Contains(records, n) {
        groups := groups[n.parent := (if n.parent in groups then groups[n.parent] else []) + [n.ref]];
        parented := parented + {n.ref};
      }
    }
    assert nodes[..|nodes|] == nodes;
  }

  /** First occurrences, in order. */
  function Distinctly(ids: seq<string>): seq<string>
    decreases |ids|
  {
    if ids == [] then []
    else
      var before, last := Distinctly(ids[..|ids| - 1]), ids[|ids| - 1];
      if last in before then before else before + [last]
  }

  function AllCards(sheets: seq<Sheet>): seq<string>
    decreases |sheets|
  {
    if sheets == [] then [] else AllCards(sheets[..|sheets| - 1]) + Distinctly(sheets[|sheets| - 1].cards)
  }

  lemma {:induction false} DistinctlyAppend(a: seq<string>, b: seq<string>, k: nat)
    requires k < |b|
    ensures Distinctly(a + b[..k + 1])
         == if b[k] in Distinctly(a + b[..k]) then Distinctly(a + b[..k]) else Distinctly(a + b[..k]) + [b[k]]
  {
    assert (a + b[..k + 1])[..|a| + k] == a + b[..k];
  }

  /** The union half of `_workspace_memberships`: every shown component once, in order. */
  method UnionOfSheets(sheets: seq<Sheet>) returns (shown: seq<string>)
    ensures shown == Distinctly(AllCards(sheets))
  {
    shown := [];
    for i := 0 to |sheets|
      invariant shown == Distinctly(AllCards(sheets[..i]))
    {
      assert sheets[..i + 1][..i] == sheets[..i];
      ghost var before := AllCards(sheets[..i]);
      var refs := Distinctly(sheets[i].cards);
      assert before + refs[..0] == before;
      for k := 0 to |refs|
        invariant shown == Distinctly(before + refs[..k])
      {
        DistinctlyAppend(before, refs, k);
        if refs[k] !in shown {
          shown := shown + [refs[k]];
        }
      }
      assert refs[..|refs|] == refs;
    }
    assert sheets[..|sheets|] == sheets;
  }

  // ----- The platform's own aggregate -------------------------------------

  const SYSTEM_KINDS: seq<Kind> := [Argocd, Grafana, Communication, Backup, Reconciliation, Uptime]

  function LevelOfSource(sources: map<Kind, Source>, k: Kind): Level {
    if k in sources then sources[k].level else Unknown
  }

  function SystemLevels(sources: map<Kind, Source>): seq<Level> {
    seq(|SYSTEM_KINDS|, i requires 0 <= i < |SYSTEM_KINDS| => LevelOfSource(sources, SYSTEM_KINDS[i]))
  }

  function BadWorkloads(inventory: seq<Workload>, sources: map<Kind, Source>): seq<string>
    decreases |inventory|
  {
    if inventory == [] then []
    else
      var w := inventory[|inventory| - 1];
      BadWorkloads(inventory[..|inventory| - 1], sources)
      + if w.source.Some? && w.source.value in SYSTEM_KINDS && NeedsAttention(LevelOfSource(sources, w.source.value))
        then [w.id] else []
  }

  /** `_system_rollup`. */
  function SystemOf(inventory: seq<Workload>, sources: map<Kind, Source>): Entry {
    Entry(WorstOf(SystemLevels(sources)), Sorted(BadWorkloads(inventory, sources)))
  }

  // ----- All of them ------------------------------------------------------

  datatype Aggregates = Aggregates(
    agents: Entry, applications: Entry, groups: map<string, Entry>, ungrouped: Entry,
    bundles: map<string, Entry>, unbundled: Entry, sheets: map<string, Entry>, fleet: Entry, system: Entry,
    backups: BackupsDot.Dot)

  function BundleMembers(cs: seq<Component>, order: seq<string>, profiles: set<string>): seq<string>
    decreases |order|
  {
    if order == [] then []
    else
      var last := order[|order| - 1];
      BundleMembers(cs, order[..|order| - 1], profiles) + if ProfileOf(cs, last) in profiles then [last] else []
  }

  /** The bundles with a known member, and who is in one. */
  function BundleEntries(cs: seq<Component>, order: seq<string>, records: Records, membership: seq<BundleProfiles>)
    : map<string, Entry>
    decreases |membership|
  {
    if membership == [] then map[]
    else
      var before, b := BundleEntries(cs, order, records, membership[..|membership| - 1]), membership[|membership| - 1];
      var members := Sorted(BundleMembers(cs, order, b.profiles));
      if members == [] then before else before[b.name := EntryOf(records, members)]
  }

  function Bundled(cs: seq<Component>, order: seq<string>, membership: seq<BundleProfiles>): set<string>
    decreases |membership|
  {
    if membership == [] then {}
    else
      var members := BundleMembers(cs, order, membership[|membership| - 1].profiles);
      Bundled(cs, order, membership[..|membership| - 1]) + set id | id in members
  }

  function SheetEntries(records: Records, sheets: seq<Sheet>): map<string, Entry>
    decreases |sheets|
  {
    if sheets == [] then map[]
    else
      var last := sheets[|sheets| - 1];
      SheetEntries(records, sheets[..|sheets| - 1])[last.id := EntryOf(records, Sorted(Distinctly(last.cards)))]
  }

  function FleetMembers(order: seq<string>, sheets: seq<Sheet>): seq<string> {
    var shown := Distinctly(AllCards(sheets));
    Sorted(if shown != [] then shown else order)
  }

  function AggregatesOf(plan: Plan, o: Document, membership: seq<BundleProfiles>, sheets: seq<Sheet>,
                        inventory: seq<Workload>, view: Option<Backups.View>): Aggregates
  {
    var groups := GroupMembers(plan.nodes, o.components);
    Aggregates(
      EntryOf(o.components, OfKind(plan.components, Agent)),
      EntryOf(o.components, OfKind(plan.components, Application)),
      map g | g in groups :: EntryOf(o.components, Sorted(groups[g])),
      EntryOf(o.components, Sorted(Without(o.order, Parented(plan.nodes, o.components)))),
      BundleEntries(plan.components, o.order, o.components, membership),
      EntryOf(o.components,
              Sorted(Without(OfKind(plan.components, Agent), Bundled(plan.components, o.order, membership)))),
      SheetEntries(o.components, sheets),
      EntryOf(o.components, FleetMembers(o.order, sheets)),
      SystemOf(inventory, o.sources),
      BackupsDot.RollupOf(view))
  }

  /** The bundle loop. */
  method CollectBundles(cs: seq<Component>, order: seq<string>, records: Records, membership: seq<BundleProfiles>)
    returns (bundles: map<string, Entry>, bundled: set<string>)
    ensures bundles == BundleEntries(cs, order, records, membership)
    ensures bundled == Bundled(cs, order, membership)
  {
    bundles, bundled := map[], {};
    for i := 0 to |membership|
      invariant bundles == BundleEntries(cs, order, records, membership[..i])
      invariant bundled == Bundled(cs, order, membership[..i])
    {
      assert membership[..i + 1][..i] == membership[..i];
      var members := BundleMembers(cs, order, membership[i].profiles);
      SortedHasTheSame(AtMost, members);
      if members != [] {
        assert members[0] in Sorted(members);
        bundles := bundles[membership[i].name := EntryOf(records, Sorted(members))];
        bundled := bundled + set id | id in members;
      }
    }
    assert membership[..|membership|] == membership;
  }

  /** The sheet loop. */
  method CollectSheets(records: Records, sheets: seq<Sheet>) returns (bySheet: map<string, Entry>)
    ensures bySheet == SheetEntries(records, sheets)
  {
    bySheet := map[];
    for i := 0 to |sheets|
      invariant bySheet == SheetEntries(records, sheets[..i])
    {
      assert sheets[..i + 1][..i] == sheets[..i];
      bySheet := bySheet[sheets[i].id := EntryOf(records, Sorted(Distinctly(sheets[i].cards)))];
    }
    assert sheets[..|sheets|] == sheets;
  }

  /** `_build_rollups`. */
  method BuildRollups(plan: Plan, o: Document, membership: seq<BundleProfiles>, sheets: seq<Sheet>,
                      inventory: seq<Workload>, view: Option<Backups.View>) returns (r: Aggregates)
    ensures r == AggregatesOf(plan, o, membership, sheets, inventory, view)
  {
    var records, agents := o.components, OfKind(plan.components, Agent);
    var groups, parented := CollectGroups(plan.nodes, records);
    var bundles, bundled := CollectBundles(plan.components, o.order, records, membership);
    var bySheet := CollectSheets(records, sheets);
    var shown := UnionOfSheets(sheets);
    r := Aggregates(
      EntryOf(records, agents),
      EntryOf(records, OfKind(plan.components, Application)),
      map g | g in groups :: EntryOf(records, Sorted(groups[g])),
      EntryOf(records, Sorted(Without(o.order, parented))),
      bundles,
      EntryOf(records, Sorted(Without(agents, bundled))),
      bySheet,
      EntryOf(records, Sorted(if shown != [] then shown else o.order)),
      SystemOf(inventory, o.sources),
      BackupsDot.RollupOf(view));
  }
}
