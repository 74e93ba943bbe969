/** What the named aggregates can be trusted to mean. */
module RollupClaims {
  import opened Wrappers
  import opened Levels
  import opened Plans
  import opened Sorting
  import opened Overlay
  import opened Rollups
  import opened HealthClaims
  import Backups
  import BackupsDot

  lemma {:induction false} AffectedAre(records: Records, ids: seq<string>, id: string)
    ensures id in Affected(records, ids) <==> id in ids && id in records && NeedsAttention(records[id].level)
    decreases |ids|
  {
    if ids != [] {
      assert ids == ids[..|ids| - 1] + [ids[|ids| - 1]];
      AffectedAre(records, ids[..|ids| - 1], id);
    }
  }

  /** Some listed component has a record. */
  predicate Observes(records: Records, ids: seq<string>) { exists id :: id in ids && id in records }

  lemma ObservesIff(records: Records, ids: seq<string>)
    ensures Observes(records, ids) <==> KnownLevels(records, ids) != []
  {
    var levels := KnownLevels(records, ids);
    if levels != [] {
      KnownLevelsAre(records, ids, levels[0]);
    }
    if Observes(records, ids) {
      var id :| id in ids && id in records;
      KnownLevelsAre(records, ids, records[id].level);
    }
  }

  lemma EntryLevel(records: Records, ids: seq<string>)
    ensures var e := EntryOf(records, ids);
      && (!Observes(records, ids) ==> e.level == Unknown)
      && (Observes(records, ids) ==> exists id :: id in ids && id in records && records[id].level == e.level)
      && (forall id :: id in ids && id in records ==> Rank(records[id].level) <= Rank(e.level))
  {
    var levels, worst := KnownLevels(records, ids), EntryOf(records, ids).level;
    WorstIsTheMaximum(levels, worst);
    ObservesIff(records, ids);
    KnownLevelsAre(records, ids, worst);
    forall id | id in ids && id in records ensures Rank(records[id].level) <= Rank(worst) {
      KnownLevelsAre(records, ids, records[id].level);
    }
  }

  lemma EntryMembers(records: Records, ids: seq<string>)
    ensures var e := EntryOf(records, ids);
      && (forall id :: id in e.members <==> id in ids && id in records && NeedsAttention(records[id].level))
      && InOrder(AtMost, e.members)
  {
    var affected := Affected(records, ids);
    SortedHasTheSame(AtMost, affected);
    StringsAreTotallyOrdered();
    SortedIsInOrder(AtMost, affected);
    forall id ensures id in affected <==> id in ids && id in records && NeedsAttention(records[id].level) {
      AffectedAre(records, ids, id);
    }
  }

  /** An aggregate is the worst of its known members, unknown when it has none. It names
      exactly the known members that need attention, in order, and it names one exactly when
      its own level needs attention. */
  lemma EntryIsFaithful(records: Records, ids: seq<string>)
    ensures var e := EntryOf(records, ids);
      && (!Observes(records, ids) ==> e.level == Unknown)
      && (Observes(records, ids) ==> exists id :: id in ids && id in records && records[id].level == e.level)
      && (forall id :: id in ids && id in records ==> Rank(records[id].level) <= Rank(e.level))
      && (forall id :: id in e.members <==> id in ids && id in records && NeedsAttention(records[id].level))
      && InOrder(AtMost, e.members)
      && (e.members != [] <==> NeedsAttention(e.level))
  {
    EntryLevel(records, ids);
    EntryMembers(records, ids);
    var members := EntryOf(records, ids).members;
    assert members != [] ==> members[0] in members;
  }

  // ----- Groups -----------------------------------------------------------

  lemma {:induction false} MembersAreParented(nodes: seq<Node>, records: Records)
    ensures forall g, id :: g in GroupMembers(nodes, records) && id in GroupMembers(nodes, records)[g] ==>
              id in Parented(nodes, records)
    ensures forall id :: id in Parented(nodes, records) ==>
              id in records && exists g :: g in GroupMembers(nodes, records) && id in GroupMembers(nodes, records)[g]
    decreases |nodes|
  {
    if nodes != [] {
      var front, n := nodes[..|nodes| - 1], nodes[|nodes| - 1];
      assert nodes == front + [n];
      MembersAreParented(front, records);
      var before, after := GroupMembers(front, records), GroupMembers(nodes, records);
      forall g, id | g in after && id in after[g] ensures id in Parented(nodes, records) {
        if g in before && id in before[g] {
          assert id in Parented(front, records);
          var m :| m in front && Contains(records, m) && m.ref == id;
          assert m in nodes;
        } else {
          assert Contains(records, n) && id == n.ref && n in nodes;
        }
      }
      forall id | id in Parented(nodes, records)
        ensures id in records && exists g :: g in after && id in after[g]
      {
        if id in Parented(front, records) {
          var g :| g in before && id in before[g];
          assert g in after && id in after[g];
        } else {
          assert Contains(records, n) && n.ref == id;
          assert n.parent in after && id in after[n.parent];
        }
      }
    }
  }

  lemma {:induction false} WithoutIs(ids: seq<string>, hidden: set<string>, id: string)
    ensures id in Without(ids, hidden) <==> id in ids && id !in hidden
    decreases |ids|
  {
    if ids != [] {
      assert ids == ids[..|ids| - 1] + [ids[|ids| - 1]];
      WithoutIs(ids[..|ids| - 1], hidden, id);
    }
  }

  /** A bucket of the directory: a group with a known member, or the ungrouped one. */
  predicate IsBucket(plan: Plan, o: Document, ids: seq<string>) {
    var groups, rest := GroupMembers(plan.nodes, o.components), Without(o.order, Parented(plan.nodes, o.components));
    (exists g :: g in groups && ids == groups[g]) || (rest != [] && ids == rest)
  }

  ghost predicate OrderOfRecords(o: Document) { forall id :: id in o.order <==> id in o.components }

  /** Every component is in some bucket, and buckets hold nothing else. */
  lemma BucketsPartitionTheFleet(plan: Plan, o: Document, id: string)
    requires OrderOfRecords(o)
    ensures id in o.components <==> exists ids :: IsBucket(plan, o, ids) && id in ids
  {
    var groups, parented := GroupMembers(plan.nodes, o.components), Parented(plan.nodes, o.components);
    var rest := Without(o.order, parented);
    MembersAreParented(plan.nodes, o.components);
    WithoutIs(o.order, parented, id);
    if id in o.components {
      if id in parented {
        var g :| g in groups && id in groups[g];
        assert IsBucket(plan, o, groups[g]);
      } else {
        assert IsBucket(plan, o, rest);
      }
    }
  }

  /** Take the levels of all non-empty buckets, in any order: their worst is the worst of the
      whole fleet. Grouping hides nothing. */
  lemma BucketsRollUpToTheFleet(plan: Plan, o: Document, levels: seq<Level>)
    requires OrderOfRecords(o)
    requires forall l ::
               l in levels <==> exists ids :: IsBucket(plan, o, ids) && EntryOf(o.components, Sorted(ids)).level == l
    ensures WorstOf(levels) == WorstOf(KnownLevels(o.components, o.order))
  {
    var all := EntryOf(o.components, o.order);
    EntryIsFaithful(o.components, o.order);
    forall l | l in levels ensures Rank(l) <= Rank(all.level) && Observes(o.components, o.order) {
      var ids :| IsBucket(plan, o, ids) && EntryOf(o.components, Sorted(ids)).level == l;
      BucketIsBelow(plan, o, ids);
    }
    if Observes(o.components, o.order) {
      var ids := WorstIsInABucket(plan, o);
      assert EntryOf(o.components, Sorted(ids)).level in levels;
    }
    assert levels != [] ==> levels[0] in levels;
    WorstIsTheMaximum(levels, all.level);
  }

  lemma WorstIsInABucket(plan: Plan, o: Document) returns (ids: seq<string>)
    requires OrderOfRecords(o) && Observes(o.components, o.order)
    ensures IsBucket(plan, o, ids)
    ensures EntryOf(o.components, Sorted(ids)).level == EntryOf(o.components, o.order).level
  {
    EntryIsFaithful(o.components, o.order);
    var id :| id in o.order && id in o.components && o.components[id].level == EntryOf(o.components, o.order).level;
    BucketsPartitionTheFleet(plan, o, id);
    ids :| IsBucket(plan, o, ids) && id in ids;
    SortedHasTheSame(AtMost, ids);
    EntryIsFaithful(o.components, Sorted(ids));
    BucketIsBelow(plan, o, ids);
  }

  lemma BucketIsBelow(plan: Plan, o: Document, ids: seq<string>)
    requires OrderOfRecords(o) && IsBucket(plan, o, ids)
    ensures Observes(o.components, o.order)
    ensures Rank(EntryOf(o.components, Sorted(ids)).level) <= Rank(EntryOf(o.components, o.order).level)
  {
    BucketIsKnown(plan, o, ids);
    SortedHasTheSame(AtMost, ids);
    assert ids[0] in ids && ids[0] in o.components && ids[0] in Sorted(ids);
    EntryIsFaithful(o.components, Sorted(ids));
    EntryIsFaithful(o.components, o.order);
  }

  lemma BucketIsKnown(plan: Plan, o: Document, ids: seq<string>)
    requires OrderOfRecords(o) && IsBucket(plan, o, ids)
    ensures ids != [] && forall id :: id in ids ==> id in o.components
  {
    MembersAreParented(plan.nodes, o.components);
    GroupsAreNeverEmpty(plan.nodes, o.components);
    forall id | id in ids ensures id in o.components {
      WithoutIs(o.order, Parented(plan.nodes, o.components), id);
    }
  }

  lemma {:induction false} GroupsAreNeverEmpty(nodes: seq<Node>, records: Records)
    ensures forall g :: g in GroupMembers(nodes, records) ==> GroupMembers(nodes, records)[g] != []
    decreases |nodes|
  {
    if nodes != [] {
      GroupsAreNeverEmpty(nodes[..|nodes| - 1], records);
    }
  }

  // ----- Sheets and the fleet ---------------------------------------------

  lemma {:induction false} DistinctlyHasTheSame(ids: seq<string>, id: string)
    ensures id in Distinctly(ids) <==> id in ids
    decreases |ids|
  {
    if ids != [] {
      assert ids == ids[..|ids| - 1] + [ids[|ids| - 1]];
      DistinctlyHasTheSame(ids[..|ids| - 1], id);
    }
  }

  predicate ShownOn(sheets: seq<Sheet>, id: string) { exists i :: 0 <= i < |sheets| && id in sheets[i].cards }

  lemma {:induction false} AllCardsAre(sheets: seq<Sheet>, id: string)
    ensures id in AllCards(sheets) <==> ShownOn(sheets, id)
    decreases |sheets|
  {
    if sheets != [] {
      var last := |sheets| - 1;
      AllCardsAre(sheets[..last], id);
      DistinctlyHasTheSame(sheets[last].cards, id);
      assert forall i :: 0 <= i < last ==> sheets[..last][i] == sheets[i];
    }
  }

  /** The fleet aggregate covers exactly what some sheet shows; with nothing shown anywhere
      it covers everything. */
  lemma FleetMembersAre(order: seq<string>, sheets: seq<Sheet>, id: string)
    ensures id in FleetMembers(order, sheets) <==>
            ShownOn(sheets, id) || (id in order && forall x :: !ShownOn(sheets, x))
  {
    var shown := Distinctly(AllCards(sheets));
    SortedHasTheSame(AtMost, if shown != [] then shown else order);
    forall x ensures x in shown <==> ShownOn(sheets, x) {
      DistinctlyHasTheSame(AllCards(sheets), x);
      AllCardsAre(sheets, x);
    }
    assert shown != [] ==> shown[0] in shown;
  }

  /** The fleet is at least as bad as a sheet exactly when that sheet shows an observed
      component, or the fleet is not green anyway: a sheet of unknown cards reads unknown on
      its own and counts for nothing in the fleet. */
  lemma FleetIsAsBadAsItsSheetsIff(records: Records, order: seq<string>, sheets: seq<Sheet>, i: nat)
    requires i < |sheets|
    ensures var fleet := EntryOf(records, FleetMembers(order, sheets));
      var sheet := EntryOf(records, Sorted(Distinctly(sheets[i].cards)));
      Rank(fleet.level) >= Rank(sheet.level) <==> Observes(records, sheets[i].cards) || fleet.level != Healthy
  {
    var fleet, cards := FleetMembers(order, sheets), Sorted(Distinctly(sheets[i].cards));
    SortedHasTheSame(AtMost, Distinctly(sheets[i].cards));
    forall id ensures id in cards <==> id in sheets[i].cards {
      DistinctlyHasTheSame(sheets[i].cards, id);
    }
    forall id | id in cards ensures id in fleet {
      FleetMembersAre(order, sheets, id);
    }
    EntryIsFaithful(records, fleet);
    EntryIsFaithful(records, cards);
    assert Observes(records, cards) <==> Observes(records, sheets[i].cards);
  }

  /** A component that needs attention is named by the fleet aggregate exactly when some
      sheet shows it, or no sheet shows anything: once the workspace holds any card, a
      problem on no sheet is missing from the fleet. */
  lemma FleetNamesIff(records: Records, order: seq<string>, sheets: seq<Sheet>, id: string)
    requires id in order && id in records && NeedsAttention(records[id].level)
    ensures id in EntryOf(records, FleetMembers(order, sheets)).members <==>
            ShownOn(sheets, id) || forall x :: !ShownOn(sheets, x)
  {
    EntryIsFaithful(records, FleetMembers(order, sheets));
    FleetMembersAre(order, sheets, id);
  }

  /** Two components, one broken, and a sheet that shows only the other: the fleet is green. */
  lemma UnplacedProblemExample(records: Records)
    requires records.Keys == {"a", "b"} && records["a"].level == Healthy && records["b"].level == Unhealthy
    ensures EntryOf(records, FleetMembers(["a", "b"], [Sheet("home", ["a"])])) == Entry(Healthy, [])
  {
    var sheets := [Sheet("home", ["a"])];
    var fleet := FleetMembers(["a", "b"], sheets);
    assert sheets[0].cards == ["a"];
    forall x ensures x in fleet <==> x == "a" {
      FleetMembersAre(["a", "b"], sheets, x);
      assert ShownOn(sheets, "a");
    }
    EntryIsFaithful(records, fleet);
    assert Observes(records, fleet);
  }

  /** A green component on one sheet, and another sheet with a card nobody observes: that sheet
      reads unknown, the fleet green. */
  lemma UnknownSheetExample(records: Records)
    requires records.Keys == {"a"} && records["a"].level == Healthy
    ensures var sheets := [Sheet("home", ["a"]), Sheet("ghosts", ["z"])];
      && EntryOf(records, FleetMembers(["a"], sheets)).level == Healthy
      && EntryOf(records, Sorted(Distinctly(sheets[1].cards))).level == Unknown
      && Rank(Healthy) < Rank(Unknown)
  {
    var sheets := [Sheet("home", ["a"]), Sheet("ghosts", ["z"])];
    assert "a" in sheets[0].cards && sheets[1].cards == ["z"];
    GreenFleet(records, "a", sheets);
    UnknownCards(records, ["z"]);
  }

  lemma GreenFleet(records: Records, a: string, sheets: seq<Sheet>)
    requires records.Keys == {a} && records[a].level == Healthy && ShownOn(sheets, a)
    ensures EntryOf(records, FleetMembers([a], sheets)).level == Healthy
  {
    FleetMembersAre([a], sheets, a);
    EntryIsFaithful(records, FleetMembers([a], sheets));
    assert Observes(records, FleetMembers([a], sheets));
  }

  lemma UnknownCards(records: Records, cards: seq<string>)
    requires !Observes(records, cards)
    ensures EntryOf(records, Sorted(Distinctly(cards))).level == Unknown
  {
    var shown := Sorted(Distinctly(cards));
    SortedHasTheSame(AtMost, Distinctly(cards));
    forall id | id in shown ensures id in cards {
      DistinctlyHasTheSame(cards, id);
    }
    EntryIsFaithful(records, shown);
  }

  // ----- Bundles ----------------------------------------------------------

  ghost predicate ShelfAsBad(entries: map<string, Entry>, rank: nat) {
    exists b :: b in entries && Rank(entries[b].level) >= rank
  }

  lemma {:induction false} BundledHasAnEntry(cs: seq<Component>, order: seq<string>, records: Records,
                                             membership: seq<BundleProfiles>, id: string)
    requires id in Bundled(cs, order, membership) && id in records && DistinctBundles(membership)
    ensures ShelfAsBad(BundleEntries(cs, order, records, membership), Rank(records[id].level))
    decreases |membership|
  {
    var last := |membership| - 1;
    var members := BundleMembers(cs, order, membership[last].profiles);
    if id in members {
      SortedHasTheSame(AtMost, members);
      EntryIsFaithful(records, Sorted(members));
      assert BundleEntries(cs, order, records, membership)[membership[last].name] == EntryOf(records, Sorted(members));
    } else {
      BundledHasAnEntry(cs, order, records, membership[..last], id);
      OlderShelfStays(cs, order, records, membership, Rank(records[id].level));
    }
  }

  predicate DistinctBundles(membership: seq<BundleProfiles>) {
    forall i, j :: 0 <= i < j < |membership| ==> membership[i].name != membership[j].name
  }

  lemma OlderShelfStays(cs: seq<Component>, order: seq<string>, records: Records, membership: seq<BundleProfiles>,
                        rank: nat)
    requires membership != [] && DistinctBundles(membership)
    requires ShelfAsBad(BundleEntries(cs, order, records, membership[..|membership| - 1]), rank)
    ensures ShelfAsBad(BundleEntries(cs, order, records, membership), rank)
  {
    var last := |membership| - 1;
    var before := BundleEntries(cs, order, records, membership[..last]);
    var b :| b in before && Rank(before[b].level) >= rank;
    EntryNames(cs, order, records, membership[..last], b);
    assert BundleEntries(cs, order, records, membership)[b] == before[b];
  }

  lemma {:induction false} EntryNames(cs: seq<Component>, order: seq<string>, records: Records,
                                      membership: seq<BundleProfiles>, b: string)
    requires b in BundleEntries(cs, order, records, membership)
    ensures exists i :: 0 <= i < |membership| && membership[i].name == b
    decreases |membership|
  {
    var last := |membership| - 1;
    if membership[last].name != b {
      EntryNames(cs, order, records, membership[..last], b);
      var i :| 0 <= i < last && membership[..last][i].name == b;
      assert membership[i].name == b;
    }
  }

  /** The bundle shelves and the unbundled one together are as bad as the worst agent. */
  lemma ShelvesCoverTheAgents(plan: Plan, o: Document, membership: seq<BundleProfiles>, sheets: seq<Sheet>,
                              inventory: seq<Workload>, view: Option<Backups.View>)
    requires Observes(o.components, OfKind(plan.components, Agent))
    requires DistinctBundles(membership)
    ensures var r := AggregatesOf(plan, o, membership, sheets, inventory, view);
      || Rank(r.unbundled.level) >= Rank(r.agents.level)
      || ShelfAsBad(r.bundles, Rank(r.agents.level))
  {
    var agents, records := OfKind(plan.components, Agent), o.components;
    var bundled := Bundled(plan.components, o.order, membership);
    EntryIsFaithful(records, agents);
    var id :| id in agents && id in records && records[id].level == EntryOf(records, agents).level;
    if id in bundled {
      BundledHasAnEntry(plan.components, o.order, records, membership, id);
    } else {
      var rest := Without(agents, bundled);
      WithoutIs(agents, bundled, id);
      SortedHasTheSame(AtMost, rest);
      EntryIsFaithful(records, Sorted(rest));
    }
  }

  /** An overlay's component order lists exactly its records. */
  lemma OverlayOrder(plan: Plan, inputs: Inputs)
    ensures OrderOfRecords(OverlayOf(plan, inputs))
  {
    RecordsAreTheWorkloads(inputs, plan.components);
  }

  // ----- Every named aggregate --------------------------------------------

  lemma {:induction false} OfKindAre(cs: seq<Component>, kind: ComponentKind, id: string)
    ensures id in OfKind(cs, kind) <==> exists c :: c in cs && c.kind == kind && c.id == id
    decreases |cs|
  {
    if cs != [] {
      assert cs == cs[..|cs| - 1] + [cs[|cs| - 1]];
      OfKindAre(cs[..|cs| - 1], kind, id);
    }
  }

  lemma {:induction false} GroupHas(nodes: seq<Node>, records: Records, g: string, id: string)
    ensures g in GroupMembers(nodes, records) <==>
            exists n :: n in nodes && n.parent == g && g != "" && n.ref in records
    ensures g in GroupMembers(nodes, records) ==>
            (id in GroupMembers(nodes, records)[g] <==> id in records && Node(id, g) in nodes)
    decreases |nodes|
  {
    if nodes != [] {
      var front, last := nodes[..|nodes| - 1], nodes[|nodes| - 1];
      assert nodes == front + [last];
      GroupHas(front, records, g, id);
      if g !in GroupMembers(front, records) {
        assert id in records && Node(id, g) in front && g != "" ==> Node(id, g).parent == g;
      }
      assert last == Node(last.ref, last.parent);
    }
  }

  /** Who an aggregate over some components names and how bad it is: the worst of those that have a
      record, and unknown when none has. */
  ghost predicate Sums(records: Records, e: Entry, covered: set<string>) {
    && (forall id :: id in e.members <==> id in covered && id in records && NeedsAttention(records[id].level))
    && (forall id :: id in covered && id in records ==> Rank(records[id].level) <= Rank(e.level))
    && (if exists id :: id in covered && id in records
        then exists id :: id in covered && id in records && records[id].level == e.level
        else e.level == Unknown)
  }

  lemma SumsIds(records: Records, ids: seq<string>, covered: set<string>)
    requires forall id :: id in ids <==> id in covered
    ensures Sums(records, EntryOf(records, ids), covered)
  {
    EntryIsFaithful(records, ids);
    assert Observes(records, ids) <==> exists id :: id in covered && id in records;
  }

  lemma SumsSorted(records: Records, ids: seq<string>, covered: set<string>)
    requires forall id :: id in ids <==> id in covered
    ensures Sums(records, EntryOf(records, Sorted(ids)), covered)
  {
    SortedHasTheSame(AtMost, ids);
    SumsIds(records, Sorted(ids), covered);
  }

  function IdsOfKind(plan: Plan, kind: ComponentKind): set<string> {
    set c | c in plan.components && c.kind == kind :: c.id
  }

  /** The two directories cover the agents and the applications of the plan. */
  lemma DirectoriesAre(plan: Plan, o: Document, membership: seq<BundleProfiles>, sheets: seq<Sheet>,
                       inventory: seq<Workload>, view: Option<Backups.View>)
    ensures var r := AggregatesOf(plan, o, membership, sheets, inventory, view);
      && Sums(o.components, r.agents, IdsOfKind(plan, Agent))
      && Sums(o.components, r.applications, IdsOfKind(plan, Application))
  {
    forall id ensures id in OfKind(plan.components, Agent) <==> id in IdsOfKind(plan, Agent) {
      OfKindAre(plan.components, Agent, id);
    }
    forall id ensures id in OfKind(plan.components, Application) <==> id in IdsOfKind(plan, Application) {
      OfKindAre(plan.components, Application, id);
    }
    SumsIds(o.components, OfKind(plan.components, Agent), IdsOfKind(plan, Agent));
    SumsIds(o.components, OfKind(plan.components, Application), IdsOfKind(plan, Application));
  }

  function ChildrenOf(plan: Plan, o: Document, g: string): set<string> {
    set n | n in plan.nodes && n.parent == g && n.ref in o.components :: n.ref
  }

  /** Every group with an observed child has an aggregate, over exactly its children; the ungrouped
      one covers whatever has no parent. */
  lemma GroupsAre(plan: Plan, o: Document, membership: seq<BundleProfiles>, sheets: seq<Sheet>,
                  inventory: seq<Workload>, view: Option<Backups.View>, g: string)
    requires OrderOfRecords(o)
    ensures var r := AggregatesOf(plan, o, membership, sheets, inventory, view);
      && (g in r.groups <==> g != "" && ChildrenOf(plan, o, g) != {})
      && (g in r.groups ==> Sums(o.components, r.groups[g], ChildrenOf(plan, o, g)))
      && Sums(o.components, r.ungrouped,
              set id | id in o.components && forall n :: n in plan.nodes && n.ref == id ==> n.parent == "")
  {
    var groups := GroupMembers(plan.nodes, o.components);
    GroupHas(plan.nodes, o.components, g, "");
    if n :| n in plan.nodes && n.parent == g && g != "" && n.ref in o.components {
      assert n.ref in ChildrenOf(plan, o, g);
    }
    if g in groups {
      forall id ensures id in groups[g] <==> id in ChildrenOf(plan, o, g) {
        GroupHas(plan.nodes, o.components, g, id);
        assert Node(id, g) in plan.nodes ==> Node(id, g).ref == id;
        assert forall n :: n in plan.nodes && n.parent == g && n.ref == id ==> n == Node(id, g);
      }
      SumsSorted(o.components, groups[g], ChildrenOf(plan, o, g));
    }
    UngroupedAre(plan, o);
  }

  lemma UngroupedAre(plan: Plan, o: Document)
    requires OrderOfRecords(o)
    ensures Sums(o.components, EntryOf(o.components, Sorted(Without(o.order, Parented(plan.nodes, o.components)))),
                 set id | id in o.components && forall n :: n in plan.nodes && n.ref == id ==> n.parent == "")
  {
    var rest := Without(o.order, Parented(plan.nodes, o.components));
    var covered := set id | id in o.components && forall n :: n in plan.nodes && n.ref == id ==> n.parent == "";
    forall id ensures id in rest <==> id in covered {
      WithoutIs(o.order, Parented(plan.nodes, o.components), id);
    }
    SumsSorted(o.components, rest, covered);
  }

  /** Each sheet's aggregate covers the components its cards show; the fleet covers what any shows,
      or everything; the Backups entry is the dot of the view. */
  lemma SheetsAndFleetAre(plan: Plan, o: Document, membership: seq<BundleProfiles>, sheets: seq<Sheet>,
                          inventory: seq<Workload>, view: Option<Backups.View>, i: nat)
    requires OrderOfRecords(o) && i < |sheets|
    requires forall j :: i < j < |sheets| ==> sheets[j].id != sheets[i].id
    ensures var r := AggregatesOf(plan, o, membership, sheets, inventory, view);
      && sheets[i].id in r.sheets && Sums(o.components, r.sheets[sheets[i].id], set id | id in sheets[i].cards)
      && r.backups == BackupsDot.RollupOf(view)
  {
    SheetEntryIs(o.components, sheets, i);
    forall id ensures id in Distinctly(sheets[i].cards) <==> id in sheets[i].cards {
      DistinctlyHasTheSame(sheets[i].cards, id);
    }
    SumsSorted(o.components, Distinctly(sheets[i].cards), set id | id in sheets[i].cards);
  }

  lemma {:induction false} SheetEntryIs(records: Records, sheets: seq<Sheet>, i: nat)
    requires i < |sheets| && forall j :: i < j < |sheets| ==> sheets[j].id != sheets[i].id
    ensures sheets[i].id in SheetEntries(records, sheets)
    ensures SheetEntries(records, sheets)[sheets[i].id] == EntryOf(records, Sorted(Distinctly(sheets[i].cards)))
    decreases |sheets|
  {
    if i < |sheets| - 1 {
      SheetEntryIs(records, sheets[..|sheets| - 1], i);
    }
  }

  lemma FleetIs(plan: Plan, o: Document, membership: seq<BundleProfiles>, sheets: seq<Sheet>,
                inventory: seq<Workload>, view: Option<Backups.View>)
    requires OrderOfRecords(o)
    ensures Sums(o.components, AggregatesOf(plan, o, membership, sheets, inventory, view).fleet,
                 if exists x :: ShownOn(sheets, x) then set s, id | s in sheets && id in s.cards :: id
                 else o.components.Keys)
  {
    var covered := if exists x :: ShownOn(sheets, x) then set s, id | s in sheets && id in s.cards :: id
                   else o.components.Keys;
    forall id ensures id in FleetMembers(o.order, sheets) <==> id in covered {
      FleetMembersAre(o.order, sheets, id);
      assert ShownOn(sheets, id) <==> exists s :: s in sheets && id in s.cards;
    }
    SumsIds(o.components, FleetMembers(o.order, sheets), covered);
  }

  lemma {:induction false} BadWorkloadsAre(inventory: seq<Workload>, sources: map<Kind, Source>, id: string)
    ensures id in BadWorkloads(inventory, sources) <==> exists w :: w in inventory && IsBad(w, sources) && w.id == id
    decreases |inventory|
  {
    if inventory != [] {
      assert inventory == inventory[..|inventory| - 1] + [inventory[|inventory| - 1]];
      BadWorkloadsAre(inventory[..|inventory| - 1], sources, id);
      SystemKindsAre();
    }
  }

  /** A platform workload whose own source, one of the six, is in trouble. */
  predicate IsBad(w: Workload, sources: map<Kind, Source>) {
    && w.source.Some? && w.source.value in {Argocd, Grafana, Communication, Backup, Reconciliation, Uptime}
    && w.source.value in sources && NeedsAttention(sources[w.source.value].level)
  }

  /** The platform's aggregate names exactly its workloads in trouble and is as bad as the worst of
      the six sources, an absent one reading unknown. */
  lemma SystemIs(inventory: seq<Workload>, sources: map<Kind, Source>)
    ensures var e := SystemOf(inventory, sources);
      && (forall id :: id in e.members <==> exists w :: w in inventory && IsBad(w, sources) && w.id == id)
      && (forall k :: k in {Argocd, Grafana, Communication, Backup, Reconciliation, Uptime} ==>
            Rank(LevelOfSource(sources, k)) <= Rank(e.level))
      && exists k :: k in {Argocd, Grafana, Communication, Backup, Reconciliation, Uptime}
           && LevelOfSource(sources, k) == e.level
  {
    var levels := SystemLevels(sources);
    WorstIsTheMaximum(levels, WorstOf(levels));
    SystemKindsAre();
    assert forall i :: 0 <= i < |SYSTEM_KINDS| ==>
             levels[i] == LevelOfSource(sources, SYSTEM_KINDS[i]) && levels[i] in levels;
    forall k | k in SYSTEM_KINDS ensures Rank(LevelOfSource(sources, k)) <= Rank(WorstOf(levels)) {
      var i :| 0 <= i < |SYSTEM_KINDS| && SYSTEM_KINDS[i] == k;
    }
    var i :| 0 <= i < |levels| && levels[i] == WorstOf(levels);
    assert SYSTEM_KINDS[i] in SYSTEM_KINDS;
    SortedHasTheSame(AtMost, BadWorkloads(inventory, sources));
    forall id ensures id in SystemOf(inventory, sources).members <==>
      exists w :: w in inventory && IsBad(w, sources) && w.id == id
    {
      BadWorkloadsAre(inventory, sources, id);
    }
  }

  // ----- Bundles, one by one ----------------------------------------------

  lemma {:induction false} BundleMembersAre(cs: seq<Component>, order: seq<string>, profiles: set<string>, id: string)
    ensures id in BundleMembers(cs, order, profiles) <==> id in order && ProfileOf(cs, id) in profiles
    decreases |order|
  {
    if order != [] {
      assert order == order[..|order| - 1] + [order[|order| - 1]];
      BundleMembersAre(cs, order[..|order| - 1], profiles, id);
    }
  }

  function MembersOf(plan: Plan, o: Document, b: BundleProfiles): set<string> {
    set id | id in o.components && ProfileOf(plan.components, id) in b.profiles
  }

  lemma {:induction false} BundleEntryIs(plan: Plan, o: Document, membership: seq<BundleProfiles>, i: nat)
    requires OrderOfRecords(o) && i < |membership| && DistinctBundles(membership)
    ensures var entries := BundleEntries(plan.components, o.order, o.components, membership);
      && (membership[i].name in entries <==> MembersOf(plan, o, membership[i]) != {})
      && (membership[i].name in entries ==>
            Sums(o.components, entries[membership[i].name], MembersOf(plan, o, membership[i])))
    decreases |membership|
  {
    var last := |membership| - 1;
    var front := membership[..last];
    var members := BundleMembers(plan.components, o.order, membership[last].profiles);
    SortedHasTheSame(AtMost, members);
    if i < last {
      BundleEntryIs(plan, o, front, i);
    } else {
      if membership[last].name in BundleEntries(plan.components, o.order, o.components, front) {
        EntryNames(plan.components, o.order, o.components, front, membership[last].name);
      }
      forall id ensures id in members <==> id in MembersOf(plan, o, membership[last]) {
        BundleMembersAre(plan.components, o.order, membership[last].profiles, id);
      }
      assert members != [] ==> members[0] in members;
      assert Sorted(members) != [] ==> Sorted(members)[0] in Sorted(members);
      SumsSorted(o.components, members, MembersOf(plan, o, membership[last]));
    }
  }

  lemma {:induction false} BundledAre(plan: Plan, o: Document, membership: seq<BundleProfiles>, id: string)
    requires OrderOfRecords(o)
    ensures id in Bundled(plan.components, o.order, membership) <==>
            exists b :: b in membership && id in MembersOf(plan, o, b)
    decreases |membership|
  {
    if membership != [] {
      var last := |membership| - 1;
      assert membership == membership[..last] + [membership[last]];
      BundledAre(plan, o, membership[..last], id);
      BundleMembersAre(plan.components, o.order, membership[last].profiles, id);
      assert membership[last] in membership;
      if b :| b in membership && id in MembersOf(plan, o, b) {
        assert b in membership[..last] || b == membership[last];
      }
    }
  }

  /** Every bundle with an observed member has its shelf, over exactly its members; the unbundled
      one covers the agents in no bundle. */
  lemma ShelvesAre(plan: Plan, o: Document, membership: seq<BundleProfiles>, sheets: seq<Sheet>,
                   inventory: seq<Workload>, view: Option<Backups.View>, i: nat)
    requires OrderOfRecords(o) && i < |membership| && DistinctBundles(membership)
    ensures var r := AggregatesOf(plan, o, membership, sheets, inventory, view);
      && (membership[i].name in r.bundles <==> MembersOf(plan, o, membership[i]) != {})
      && (membership[i].name in r.bundles ==>
            Sums(o.components, r.bundles[membership[i].name], MembersOf(plan, o, membership[i])))
      && Sums(o.components, r.unbundled,
              set id | id in IdsOfKind(plan, Agent) && forall b :: b in membership ==> id !in MembersOf(plan, o, b))
  {
    BundleEntryIs(plan, o, membership, i);
    UnbundledAre(plan, o, membership);
  }

  lemma UnbundledAre(plan: Plan, o: Document, membership: seq<BundleProfiles>)
    requires OrderOfRecords(o)
    ensures Sums(o.components,
                 EntryOf(o.components, Sorted(Without(OfKind(plan.components, Agent),
                                                      Bundled(plan.components, o.order, membership)))),
                 set id | id in IdsOfKind(plan, Agent) && forall b :: b in membership ==> id !in MembersOf(plan, o, b))
  {
    var agents, bundled := OfKind(plan.components, Agent), Bundled(plan.components, o.order, membership);
    var covered :=
      set id | id in IdsOfKind(plan, Agent) && forall b :: b in membership ==> id !in MembersOf(plan, o, b);
    forall id ensures id in Without(agents, bundled) <==> id in covered {
      WithoutIs(agents, bundled, id);
      OfKindAre(plan.components, Agent, id);
      BundledAre(plan, o, membership, id);
    }
    SumsSorted(o.components, Without(agents, bundled), covered);
  }
}
