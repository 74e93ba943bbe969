/** What the Backups view says of one component and one routine, in the plan's and the
    cluster's own terms (control-plane/nexus/plugin_api.py:2445-2469, 2870-2893, 3075-3130). */
module BackupClaims {
  import opened Wrappers
  import opened Levels
  import opened Plans
  import opened Sorting
  import opened Routines
  import opened Backups
  import opened BackupsDot

  // ----- One component of the plan ----------------------------------------

  /** The plan declares `c`, and no other component under its id. */
  predicate Declares(cs: seq<Component>, c: Component) { c in cs && forall d :: d in cs && d.id == c.id ==> d == c }

  lemma DeclaresBefore(cs: seq<Component>, c: Component)
    requires Declares(cs, c) && cs[|cs| - 1].id != c.id
    ensures Declares(cs[..|cs| - 1], c)
  {
    assert cs == cs[..|cs| - 1] + [cs[|cs| - 1]];
  }

  lemma {:induction false} AgentIff(cs: seq<Component>, c: Component)
    requires Declares(cs, c)
    ensures IsAgent(cs, c.id) <==> c.kind == Agent
    decreases |cs|
  {
    if cs[|cs| - 1].id != c.id {
      DeclaresBefore(cs, c);
      AgentIff(cs[..|cs| - 1], c);
    }
  }

  lemma {:induction false} ProfileIs(cs: seq<Component>, c: Component)
    requires Declares(cs, c)
    ensures ProfileOf(cs, c.id) == if c.profile == "" then c.id else c.profile
    decreases |cs|
  {
    if cs[|cs| - 1].id != c.id {
      DeclaresBefore(cs, c);
      ProfileIs(cs[..|cs| - 1], c);
    }
  }

  predicate HasInstanceIn(instances: seq<Instance>, ns: string) {
    ns != "" && exists i :: 0 <= i < |instances| && instances[i].namespace == ns
  }

  lemma {:induction false} NamespacesAre(instances: seq<Instance>, ns: string)
    ensures ns in Namespaces(instances) <==> HasInstanceIn(instances, ns)
    decreases |instances|
  {
    if instances != [] {
      var last := |instances| - 1;
      NamespacesAre(instances[..last], ns);
      assert forall i :: 0 <= i < last ==> instances[..last][i] == instances[i];
    }
  }

  lemma {:induction false} DeclaredNamespaces(cs: seq<Component>, c: Component)
    requires Declares(cs, c) && (c.kind == Agent || c.kind == Application)
    ensures NamespacesOf(cs, c.id) == Namespaces(c.instances)
    decreases |cs|
  {
    if cs[|cs| - 1].id != c.id {
      DeclaresBefore(cs, c);
      DeclaredNamespaces(cs[..|cs| - 1], c);
    }
  }

  /** A bundle places the profile in the namespace; a profile's first placement counts. */
  predicate Places(bundles: seq<Placement>, profile: string, ns: string) {
    exists i :: 0 <= i < |bundles| && bundles[i] == Placement(profile, ns)
      && forall j :: 0 <= j < i ==> bundles[j].profile != profile
  }

  lemma {:induction false} PlacementIs(bundles: seq<Placement>, profile: string, ns: string)
    requires ns != ""
    ensures PlacementOf(bundles, profile) == ns <==> Places(bundles, profile, ns)
    decreases |bundles|
  {
    if bundles != [] {
      var rest := bundles[1..];
      PlacementIs(rest, profile, ns);
      if bundles[0].profile == profile {
        assert bundles[0] == Placement(profile, ns) ==> Places(bundles, profile, ns);
      } else {
        if Places(rest, profile, ns) {
          var i :| 0 <= i < |rest| && rest[i] == Placement(profile, ns)
                   && forall j :: 0 <= j < i ==> rest[j].profile != profile;
          assert bundles[i + 1] == rest[i] && forall j :: 0 < j < i + 1 ==> bundles[j] == rest[j - 1];
        }
        if Places(bundles, profile, ns) {
          var i :| 0 <= i < |bundles| && bundles[i] == Placement(profile, ns)
                   && forall j :: 0 <= j < i ==> bundles[j].profile != profile;
          assert rest[i - 1] == bundles[i] && forall j :: 0 <= j < i - 1 ==> rest[j] == bundles[j + 1];
        }
      }
    }
  }

  /** The component runs in the namespace: an instance of its own does, or a bundle places its
      profile there. */
  predicate RunsIn(f: Facts, c: Component, ns: string) {
    || HasInstanceIn(c.instances, ns)
    || (ns != "" && Places(f.bundles, if c.profile == "" then c.id else c.profile, ns))
  }

  lemma RunsInIff(f: Facts, c: Component, ns: string)
    requires Declares(f.plan.components, c) && (c.kind == Agent || c.kind == Application)
    ensures ns in Whereabouts(f, c.id) <==> RunsIn(f, c, ns)
  {
    ProfileIs(f.plan.components, c);
    DeclaredNamespaces(f.plan.components, c);
    NamespacesAre(c.instances, ns);
    if ns != "" {
      PlacementIs(f.bundles, ProfileOf(f.plan.components, c.id), ns);
    }
  }

  // ----- Who lives in a namespace -----------------------------------------

  lemma {:induction false} LivingAre(cs: seq<Component>, ids: seq<string>, ns: string, id: string)
    ensures id in Living(cs, ids, ns) <==> id in ids && ns in NamespacesOf(cs, id)
    decreases |ids|
  {
    if ids != [] {
      assert ids == ids[..|ids| - 1] + [ids[|ids| - 1]];
      LivingAre(cs, ids[..|ids| - 1], ns, id);
    }
  }

  /** Bundles place this profile in the namespace, and no other profile before it. */
  predicate PlacedFirst(bundles: seq<Placement>, profile: string, ns: string) {
    exists i :: 0 <= i < |bundles| && bundles[i] == Placement(profile, ns)
      && forall j :: 0 <= j < i ==> bundles[j].namespace != ns
  }

  lemma {:induction false} FirstPlacedIs(bundles: seq<Placement>, ns: string)
    ensures FirstPlacedIn(bundles, ns) == [] <==> forall i :: 0 <= i < |bundles| ==> bundles[i].namespace != ns
    ensures FirstPlacedIn(bundles, ns) != [] ==>
            |FirstPlacedIn(bundles, ns)| == 1 && PlacedFirst(bundles, FirstPlacedIn(bundles, ns)[0], ns)
    decreases |bundles|
  {
    if bundles != [] {
      var rest := bundles[1..];
      FirstPlacedIs(rest, ns);
      assert forall i :: 0 < i < |bundles| ==> bundles[i] == rest[i - 1];
      if bundles[0].namespace == ns {
        assert bundles[0] == Placement(bundles[0].profile, ns);
      } else if FirstPlacedIn(rest, ns) != [] {
        var i :| 0 <= i < |rest| && rest[i] == Placement(FirstPlacedIn(rest, ns)[0], ns)
                 && forall j :: 0 <= j < i ==> rest[j].namespace != ns;
        assert bundles[i + 1] == rest[i];
      }
    }
  }

  /** The residents of a namespace are the components with an instance there; only when there is
      none, the first profile a bundle places there. */
  lemma ResidentsAre(f: Facts, ns: string, c: Component)
    requires Declares(f.plan.components, c) && (c.kind == Agent || c.kind == Application)
    ensures HasInstanceIn(c.instances, ns) ==> c.id in Residents(f, ns)
    ensures c.id in Residents(f, ns) ==> HasInstanceIn(c.instances, ns) || PlacedFirst(f.bundles, c.id, ns)
  {
    LivesThereIff(f.plan.components, ns, c);
    ResidentsFrom(f, ns, Living(f.plan.components, WorkloadIds(f.plan.components), ns));
  }

  lemma LivesThereIff(cs: seq<Component>, ns: string, c: Component)
    requires Declares(cs, c) && (c.kind == Agent || c.kind == Application)
    ensures c.id in Living(cs, WorkloadIds(cs), ns) <==> HasInstanceIn(c.instances, ns)
  {
    LivingAre(cs, WorkloadIds(cs), ns, c.id);
    WorkloadIsListed(cs, c);
    DeclaredNamespaces(cs, c);
    NamespacesAre(c.instances, ns);
  }

  lemma ResidentsFrom(f: Facts, ns: string, living: seq<string>)
    requires living == Living(f.plan.components, WorkloadIds(f.plan.components), ns)
    ensures living != [] ==> Residents(f, ns) == living
    ensures living == [] ==>
      && (Residents(f, ns) == [] <==> forall i :: 0 <= i < |f.bundles| ==> f.bundles[i].namespace != ns)
      && forall id :: id in Residents(f, ns) ==> PlacedFirst(f.bundles, id, ns)
  {
    FirstPlacedIs(f.bundles, ns);
  }

  // ----- What nothing covers ----------------------------------------------

  /** It runs somewhere, and no routine runs anywhere it does. */
  ghost predicate Unguarded(f: Facts, c: Component) {
    (exists ns :: RunsIn(f, c, ns)) && forall cj :: cj in f.cronjobs ==> !RunsIn(f, c, cj.namespace)
  }

  lemma UnguardedIff(f: Facts, c: Component)
    requires Declares(f.plan.components, c) && (c.kind == Agent || c.kind == Application)
    ensures Unguarded(f, c) <==> !IsCovered(f, c.id)
  {
    var where := Whereabouts(f, c.id);
    forall ns ensures ns in where <==> RunsIn(f, c, ns) {
      RunsInIff(f, c, ns);
    }
    assert where != [] ==> where[0] in where;
    assert forall cj :: cj in f.cronjobs ==> (Covers(f, c.id, cj) <==> RunsIn(f, c, cj.namespace));
  }

  lemma {:induction false} UncoveredAre(f: Facts, index: map<string, string>, ids: seq<string>, u: Uncovered)
    ensures u in UncoveredRows(f, index, ids) <==>
            u.id in ids && !IsCovered(f, u.id) && u == UncoveredRow(f, index, u.id)
    decreases |ids|
  {
    if ids != [] {
      var last := |ids| - 1;
      assert ids == ids[..last] + [ids[last]];
      UncoveredAre(f, index, ids[..last], u);
    }
  }

  lemma {:induction false} WorkloadIsListed(cs: seq<Component>, c: Component)
    requires c in cs && (c.kind == Agent || c.kind == Application)
    ensures c.id in WorkloadIds(cs)
    decreases |cs|
  {
    if cs[|cs| - 1] != c {
      assert cs == cs[..|cs| - 1] + [cs[|cs| - 1]];
      WorkloadIsListed(cs[..|cs| - 1], c);
    }
  }

  predicate ListedAt(view: View, id: string, level: Level) {
    exists i :: 0 <= i < |view.unprotected| && view.unprotected[i].id == id && view.unprotected[i].level == level
  }

  /** An agent or application is on the uncovered list exactly when it runs somewhere and no
      routine does: an agent at degraded, an application at unknown, and at no other level. */
  lemma ListedIff(f: Facts, jobs: seq<Job>, membership: seq<Bundle>, c: Component, level: Level)
    requires Declares(f.plan.components, c) && (c.kind == Agent || c.kind == Application)
    ensures ListedAt(ViewOf(f, jobs, membership), c.id, level) <==>
            Unguarded(f, c) && level == if c.kind == Agent then Degraded else Unknown
  {
    var view, index := ViewOf(f, jobs, membership), BundleIndex(membership);
    var ids := WorkloadIds(f.plan.components);
    UnguardedIff(f, c);
    AgentIff(f.plan.components, c);
    WorkloadIsListed(f.plan.components, c);
    SortedHasTheSame(AtMost, ids);
    forall u ensures u in view.unprotected <==>
      u.id in ids && !IsCovered(f, u.id) && u == UncoveredRow(f, index, u.id)
    {
      UncoveredAre(f, index, Sorted(ids), u);
    }
    if Unguarded(f, c) {
      var u := UncoveredRow(f, index, c.id);
      assert u in view.unprotected;
      var i :| 0 <= i < |view.unprotected| && view.unprotected[i] == u;
    }
    if ListedAt(view, c.id, level) {
      var i :| 0 <= i < |view.unprotected| && view.unprotected[i].id == c.id && view.unprotected[i].level == level;
      assert view.unprotected[i] in view.unprotected;
    }
  }

  /** So an unguarded agent is named by the dot and keeps it at degraded or worse ... */
  lemma UnguardedAgentIsNamed(f: Facts, jobs: seq<Job>, membership: seq<Bundle>, c: Component)
    requires Declares(f.plan.components, c) && c.kind == Agent && Unguarded(f, c)
    ensures var dot := RollupOf(Some(ViewOf(f, jobs, membership)));
      c.id in dot.members && (dot.level == Degraded || dot.level == Unhealthy)
  {
    ListedIff(f, jobs, membership, c, Degraded);
    DegradedIsNamed(ViewOf(f, jobs, membership), c.id);
  }

  lemma DegradedIsNamed(view: View, id: string)
    requires ListedAt(view, id, Degraded)
    ensures id in RollupOf(Some(view)).members && Rank(RollupOf(Some(view)).level) >= Rank(Degraded)
  {
    var i :| 0 <= i < |view.unprotected| && view.unprotected[i].id == id && view.unprotected[i].level == Degraded;
    DotNamesEveryProblem(view, id);
    DotIsAsBad(view, i);
  }

  /** The dot is at least as bad as anything on the uncovered list. */
  lemma DotIsAsBad(view: View, i: nat)
    requires i < |view.unprotected|
    ensures Rank(RollupOf(Some(view)).level) >= Rank(view.unprotected[i].level)
  {
    UncoveredLevelAt(view.unprotected, i);
    WorstIsTheMaximum(DotLevels(view), WorstOf(DotLevels(view)));
    assert view.unprotected[i].level in DotLevels(view);
  }

  /** ... and an unguarded application only keeps it from green: it is a member only if a row of
      its own name is in trouble or unproven. */
  lemma UnguardedApplicationIsNotAccused(f: Facts, jobs: seq<Job>, membership: seq<Bundle>, c: Component)
    requires Declares(f.plan.components, c) && c.kind == Application && Unguarded(f, c)
    ensures var view := ViewOf(f, jobs, membership);
      && RollupOf(Some(view)).level != Healthy
      && (c.id in RollupOf(Some(view)).members ==> Accuses(view.routines, c.id) || Unproven(view.routines, c.id))
  {
    ListedIff(f, jobs, membership, c, Unknown);
    ListedIff(f, jobs, membership, c, Degraded);
    ListedIff(f, jobs, membership, c, Unhealthy);
    UnknownIsNotAccused(ViewOf(f, jobs, membership), c.id);
  }

  lemma UnknownIsNotAccused(view: View, id: string)
    requires ListedAt(view, id, Unknown) && !ListedAt(view, id, Degraded) && !ListedAt(view, id, Unhealthy)
    ensures RollupOf(Some(view)).level != Healthy
    ensures id in RollupOf(Some(view)).members ==> Accuses(view.routines, id) || Unproven(view.routines, id)
  {
    var i :| 0 <= i < |view.unprotected| && view.unprotected[i].id == id && view.unprotected[i].level == Unknown;
    DotNamesEveryProblem(view, id);
    DotIsAsBad(view, i);
    assert !AccusesUncovered(view.unprotected, id);
  }

  lemma {:induction false} UncoveredLevelAt(rows: seq<Uncovered>, i: nat)
    requires i < |rows|
    ensures rows[i].level in UncoveredLevels(rows)
    decreases |rows|
  {
    if i > 0 {
      UncoveredLevelAt(rows[1..], i - 1);
    }
  }

  // ----- One routine ------------------------------------------------------

  /** A declared hook, or a claimed volume other than the archive's own. */
  predicate CanBePutBack(cj: CronJob) {
    cj.restoreHook || exists v :: v in cj.volumes && v.name != "backups" && v.claim != ""
  }

  /** The level of a routine's row, from the cluster's own fields. */
  lemma RoutineLevelIs(f: Facts, jobs: seq<Job>, index: map<string, string>, cj: CronJob)
    ensures var level, age := CronRow(f, jobs, index, cj).level, f.hoursSince(cj.lastSuccess);
      && (level == Unhealthy <==>
          !CanBePutBack(cj) || (!cj.suspended && cj.lastSuccess == "" && cj.lastSchedule != ""))
      && (level == Healthy <==>
          && CanBePutBack(cj) && !cj.suspended && cj.lastSuccess != "" && age.Some?
          && (cj.active || age.value <= f.staleHours))
      && level != Unknown
  {
  }

  // ----- The order of the page --------------------------------------------

  lemma WorstFirstIsTotal()
    ensures IsTotalOrder(WorstFirst)
  {
    StringsAreTotallyOrdered();
    forall a, b ensures WorstFirst(a, b) || WorstFirst(b, a) {
      assert AtMost(a.id, b.id) || AtMost(b.id, a.id);
    }
    forall a, b, c | WorstFirst(a, b) && WorstFirst(b, c) ensures WorstFirst(a, c) {
      assert AtMost(a.id, b.id) && AtMost(b.id, c.id) ==> AtMost(a.id, c.id);
    }
  }

  /** The page lists the worst rows first, and rows of one level by their ids. */
  lemma PageIsWorstFirst(f: Facts, jobs: seq<Job>, membership: seq<Bundle>, i: nat, j: nat)
    requires i < j < |ViewOf(f, jobs, membership).routines|
    ensures var a, b := ViewOf(f, jobs, membership).routines[i], ViewOf(f, jobs, membership).routines[j];
      Rank(a.level) >= Rank(b.level) && (a.level == b.level ==> AtMost(a.id, b.id))
  {
    WorstFirstIsTotal();
    SortedIsInOrder(WorstFirst, RowsOf(f, jobs, membership));
  }
}
