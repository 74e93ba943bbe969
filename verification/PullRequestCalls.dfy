/** The publisher's own calls in PR mode are runs of the concurrent protocol: a publish or a
    decommission is a clone, a decision, a forced push, a pull request opened and merged, in
    that order (plugin/gitops_emitter/harness/hermes.py:1060-1149,
    plugin/gitops_emitter/decommission_cli.py:129-169). */
module PullRequestCalls {
  import opened Wrappers
  import opened Text
  import opened GitPaths
  import opened GitModel
  import opened PublishSpec
  import opened HeadSpec
  import opened GitHost
  import opened Publisher
  import opened Proposals
  import opened Records
  import opened DirectRuns
  import opened PullRequestRuns

  /** One call of the publisher in PR mode. */
  datatype Call = Call(head: string, job: Job, message: string, autoMerge: bool, admitted: bool)

  /** What the publisher decides about a head: a publish compares, a removal looks. */
  function DecisionOf(job: Job, base: Tip, head: Tip, message: string): Decision {
    match job
    case Write(req) => Decide(base, head, req, message)
    case Remove(rels) => RemovalDecision(base, rels, message)
  }

  function Called(refs: Refs, pulls: Pulls, branch: string, guarded: set<string>, c: Call): (Published, Refs, Pulls) {
    var d := DecisionOf(c.job, TipIn(refs, branch), TipIn(refs, c.head), c.message);
    Pulling(refs, pulls, guarded, c.head, branch, c.message, d, c.autoMerge, c.admitted)
  }

  /** The server's branches and pull requests are those of the protocol's repository. */
  ghost predicate Mirrors(refs: Refs, pulls: Pulls, r: Repo) {
    && !StartsWith(r.branch, NAMESPACE)
    && r.trunk == TipIn(refs, r.branch) && r.pulls == pulls
    && forall h: string :: StartsWith(h, NAMESPACE) ==> HeadTip(r, h) == TipIn(refs, h)
  }

  /** The repository after some moves, each enabled in its turn. */
  function After(r: Repo, moves: seq<Move>): Option<Repo>
    decreases |moves|
  {
    if moves == [] then Some(r)
    else if Enabled(r, moves[0]) then After(Apply(r, moves[0]), moves[1..])
    else None
  }

  lemma {:induction false} AfterBoth(r: Repo, a: seq<Move>, b: seq<Move>)
    requires After(r, a).Some?
    ensures After(r, a + b) == After(After(r, a).value, b)
    decreases |a|
  {
    if a == [] {
      assert a + b == b;
    } else {
      assert (a + b)[0] == a[0] && (a + b)[1..] == a[1..] + b;
      AfterBoth(Apply(r, a[0]), a[1..], b);
    }
  }

  lemma AfterOne(r: Repo, m: Move)
    requires Enabled(r, m)
    ensures After(r, [m]) == Some(Apply(r, m))
  {
    assert [m][1..] == [];
  }

  lemma AfterNext(r: Repo, a: seq<Move>, m: Move)
    requires After(r, a).Some? && Enabled(After(r, a).value, m)
    ensures After(r, a + [m]) == Some(Apply(After(r, a).value, m))
  {
    AfterBoth(r, a, [m]);
    AfterOne(After(r, a).value, m);
  }

  // ----- Proposing --------------------------------------------------------

  /** `FoundOrOpened` is no move at all or one `OpenFor`. */
  lemma OpeningIsAMove(refs: Refs, pulls: Pulls, r: Repo, head: string, title: string) returns (moves: seq<Move>)
    requires Mirrors(refs, pulls, r) && StartsWith(head, NAMESPACE)
    requires FoundOrOpened(refs, pulls, head, r.branch, title).Some?
    ensures After(r, moves).Some?
    ensures Mirrors(refs, FoundOrOpened(refs, pulls, head, r.branch, title).value.1, After(r, moves).value)
    ensures After(r, moves).value.(pulls := r.pulls) == r
  {
    if FirstOpen(pulls, head, r.branch).Some? {
      moves := [];
    } else {
      moves := [OpenFor(head, title)];
      assert HeadTip(r, head) == TipIn(refs, head);
      AfterOne(r, OpenFor(head, title));
    }
  }

  /** `Proposing` is that, and one `MergePull` if the server merges. */
  lemma ProposingIsMoves(refs: Refs, pulls: Pulls, r: Repo, head: string, title: string, commit: Commit,
                         autoMerge: bool, admitted: bool) returns (moves: seq<Move>)
    requires Mirrors(refs, pulls, r) && StartsWith(head, NAMESPACE) && OneOpenEach(pulls)
    ensures After(r, moves).Some?
    ensures var (_, refs', pulls') := Proposing(refs, pulls, head, r.branch, title, commit, autoMerge, admitted);
      Mirrors(refs', pulls', After(r, moves).value)
  {
    var done := FoundOrOpened(refs, pulls, head, r.branch, title);
    if done.None? {
      return [];
    }
    moves := OpeningIsAMove(refs, pulls, r, head, title);
    var r1, n, ps := After(r, moves).value, done.value.0, done.value.1;
    if autoMerge && MergeResult(refs, ps[n], admitted).Some? {
      MergingIsAMove(refs, ps, r1, n, admitted);
      AfterNext(r, moves, MergePull(n));
      moves := moves + [MergePull(n)];
    }
  }

  lemma MergingIsAMove(refs: Refs, pulls: Pulls, r: Repo, n: nat, admitted: bool)
    requires Mirrors(refs, pulls, r) && n < |pulls|
    requires StartsWith(pulls[n].head, NAMESPACE) && pulls[n].base == r.branch
    requires MergeResult(refs, pulls[n], admitted).Some?
    ensures Enabled(r, MergePull(n))
    ensures Mirrors(refs[r.branch := MergeResult(refs, pulls[n], admitted).value],
                    pulls[n := pulls[n].(open := false)], Apply(r, MergePull(n)))
  {
    assert HeadTip(r, pulls[n].head) == TipIn(refs, pulls[n].head);
  }

  // ----- Deciding and pushing ---------------------------------------------

  lemma DecidingIsMoves(refs: Refs, pulls: Pulls, r: Repo, c: Call)
    requires Mirrors(refs, pulls, r) && StartsWith(c.head, NAMESPACE) && Rooted(c.job)
    ensures var after := After(r, [Clone(c.head, c.job, c.message), Choose(|r.flights|)]);
      var d := DecisionOf(c.job, TipIn(refs, r.branch), TipIn(refs, c.head), c.message);
      && after.Some? && Mirrors(refs, pulls, after.value)
      && after.value.branch == r.branch && after.value.trunk == r.trunk && after.value.heads == r.heads
      && |after.value.flights| == |r.flights| + 1
      && var f := after.value.flights[|r.flights|];
         f == Flight(c.head, c.job, c.message, if d.Push? then Ready(d.commit) else Over)
  {
    var clone, k := Clone(c.head, c.job, c.message), |r.flights|;
    AfterOne(r, clone);
    AfterNext(r, [clone], Choose(k));
    assert [clone] + [Choose(k)] == [clone, Choose(k)];
    assert HeadTip(r, c.head) == TipIn(refs, c.head);
  }

  lemma PushingIsAMove(refs: Refs, pulls: Pulls, r: Repo, k: nat)
    requires Mirrors(refs, pulls, r) && Enabled(r, Force(k)) && StartsWith(r.flights[k].head, NAMESPACE)
    ensures Mirrors(refs[r.flights[k].head := r.flights[k].phase.commit], pulls, Apply(r, Force(k)))
  {
    var head, r' := r.flights[k].head, Apply(r, Force(k));
    forall h: string | StartsWith(h, NAMESPACE)
      ensures HeadTip(r', h) == TipIn(refs[head := r.flights[k].phase.commit], h)
    {
      assert h != head ==> HeadTip(r', h) == HeadTip(r, h);
    }
  }

  /** A whole call is a run of moves that ends in the repository it leaves on the server. */
  lemma CallIsMoves(refs: Refs, pulls: Pulls, r: Repo, guarded: set<string>, c: Call) returns (moves: seq<Move>)
    requires Mirrors(refs, pulls, r) && StartsWith(c.head, NAMESPACE) && Rooted(c.job) && OneOpenEach(pulls)
    ensures After(r, moves).Some?
    ensures var (_, refs', pulls') := Called(refs, pulls, r.branch, guarded, c);
      Mirrors(refs', pulls', After(r, moves).value)
  {
    var d, k := DecisionOf(c.job, TipIn(refs, r.branch), TipIn(refs, c.head), c.message), |r.flights|;
    DecidingIsMoves(refs, pulls, r, c);
    moves := [Clone(c.head, c.job, c.message), Choose(k)];
    var r1 := After(r, moves).value;
    if d.HeadCarries? {
      var more := ProposingIsMoves(refs, pulls, r1, c.head, c.message, d.commit, c.autoMerge, c.admitted);
      AfterBoth(r, moves, more);
      moves := moves + more;
    } else if d.Push? && c.head !in guarded {
      PushingIsAMove(refs, pulls, r1, k);
      AfterNext(r, moves, Force(k));
      moves := moves + [Force(k)];
      var more := ProposingIsMoves(refs[c.head := d.commit], pulls, After(r, moves).value, c.head, c.message, d.commit,
                                   c.autoMerge, c.admitted);
      AfterBoth(r, moves, more);
      moves := moves + more;
    }
  }

  /** What `PublishByPull` promises of an accepted publish is what such a run of moves does ... */
  lemma PublishIsMoves(refs: Refs, pulls: Pulls, refs': Refs, pulls': Pulls, guarded: set<string>, cfg: Config,
                       name: string, req: Request, message: string, prefixes: seq<string>, admitted: bool,
                       answer: Published, r: Repo) returns (moves: seq<Move>)
    requires PublishedByPull(refs, pulls, refs', pulls', guarded, cfg, name, req, message, admitted, answer)
    requires RequestWithin(req, prefixes) && OneOpenEach(pulls) && Mirrors(refs, pulls, r) && r.branch == cfg.branch
    ensures After(r, moves).Some? && Mirrors(refs', pulls', After(r, moves).value)
  {
    forall f | f in req.Files() ensures Place(f) != [] {
      assert Within(f.rel, prefixes);
    }
    assert StartsWith(HeadBranch(name), NAMESPACE);
    moves := CallIsMoves(refs, pulls, r, guarded,
                         Call(HeadBranch(name), Write(req), message, cfg.autoMerge, admitted));
  }

  /** ... and so is what `RemoveRecord` promises in PR mode. */
  lemma RemovalIsMoves(refs: Refs, pulls: Pulls, refs': Refs, pulls': Pulls, guarded: set<string>, cfg: Config,
                       name: string, rivals: Rivals, admitted: bool, answer: Decommissioned, r: Repo)
    returns (moves: seq<Move>)
    requires RemovalIs(refs, pulls, refs', pulls', guarded, cfg, name, rivals, admitted, answer) && cfg.prMode
    requires OneOpenEach(pulls) && Mirrors(refs, pulls, r) && r.branch == cfg.branch
    ensures After(r, moves).Some? && Mirrors(refs', pulls', After(r, moves).value)
  {
    if !RemovalAllowed(cfg, name) {
      return [];
    }
    assert StartsWith(HeadBranch(name), NAMESPACE);
    moves := CallIsMoves(refs, pulls, r, guarded, Call(HeadBranch(name), Remove(RemovedRels(cfg, name)),
                                                       RemovalMessage(name), cfg.autoMerge, admitted));
  }

  // ----- Any number of calls ----------------------------------------------

  /** The server after each of a row of calls. */
  ghost predicate Calls(refs: seq<Refs>, pulls: seq<Pulls>, branch: string, guarded: set<string>, calls: seq<Call>) {
    && |refs| == |pulls| == |calls| + 1
    && (forall i :: 0 <= i < |calls| ==> StartsWith(calls[i].head, NAMESPACE) && Rooted(calls[i].job))
    && forall i :: 0 <= i < |calls| ==>
         refs[i + 1] == Called(refs[i], pulls[i], branch, guarded, calls[i]).1
         && pulls[i + 1] == Called(refs[i], pulls[i], branch, guarded, calls[i]).2
  }

  /** A server on which the publisher has done nothing yet. */
  ghost predicate Untouched(refs: Refs, pulls: Pulls, branch: string) {
    && !StartsWith(branch, NAMESPACE) && WellFormed(TreeOf(TipIn(refs, branch))) && pulls == []
    && forall h :: h in refs ==> !StartsWith(h, NAMESPACE)
  }

  lemma OneMoreMove(states: seq<Repo>, moves: seq<Move>, m: Move)
    requires History(states, moves) && Enabled(states[|moves|], m)
    ensures History(states + [Apply(states[|moves|], m)], moves + [m])
  {
    var more := moves + [m];
    assert forall i :: 0 <= i < |moves| ==> more[i] == moves[i];
  }

  lemma {:induction false} Extended(states: seq<Repo>, moves: seq<Move>, more: seq<Move>)
    returns (states': seq<Repo>, moves': seq<Move>)
    requires History(states, moves) && After(states[|moves|], more).Some?
    ensures History(states', moves') && states'[|moves'|] == After(states[|moves|], more).value
    decreases |more|
  {
    if more == [] {
      return states, moves;
    }
    OneMoreMove(states, moves, more[0]);
    states', moves' := Extended(states + [Apply(states[|moves|], more[0])], moves + [more[0]], more[1..]);
  }

  /** Any row of publishes and removals, from a server they have not touched, is a history of
      the protocol: what is proved of all histories holds of it. */
  lemma {:induction false} CallsAreAHistory(refs: seq<Refs>, pulls: seq<Pulls>, branch: string, guarded: set<string>,
                                            calls: seq<Call>, i: nat) returns (states: seq<Repo>, moves: seq<Move>)
    requires Calls(refs, pulls, branch, guarded, calls) && Untouched(refs[0], pulls[0], branch) && i <= |calls|
    ensures History(states, moves) && Mirrors(refs[i], pulls[i], states[|moves|]) && states[|moves|].branch == branch
  {
    if i == 0 {
      states, moves := [Repo(branch, TipIn(refs[0], branch), map[], [], [])], [];
    } else {
      states, moves := CallsAreAHistory(refs, pulls, branch, guarded, calls, i - 1);
      AlwaysSound(states, moves, |moves|);
      var more := CallIsMoves(refs[i - 1], pulls[i - 1], states[|moves|], guarded, calls[i - 1]);
      assert refs[i - 1 + 1] == Called(refs[i - 1], pulls[i - 1], branch, guarded, calls[i - 1]).1;
      KeepsBranch(states[|moves|], more);
      states, moves := Extended(states, moves, more);
    }
  }

  lemma {:induction false} KeepsBranch(r: Repo, moves: seq<Move>)
    requires After(r, moves).Some?
    ensures After(r, moves).value.branch == r.branch
    decreases |moves|
  {
    if moves != [] {
      KeepsBranch(Apply(r, moves[0]), moves[1..]);
    }
  }

  ghost predicate OneJobOver(c: Commit, trunk: Tip) { exists job :: Rooted(job) && OneCommitOver(job, c, trunk) }

  /** So after any row of calls each head branch is one job's change over a tip the base has or
      had, the base is a proper tree, and no head has two open pull requests. */
  lemma CallsKeepHeadsSound(refs: seq<Refs>, pulls: seq<Pulls>, branch: string, guarded: set<string>,
                            calls: seq<Call>, i: nat)
    requires Calls(refs, pulls, branch, guarded, calls) && Untouched(refs[0], pulls[0], branch) && i <= |calls|
    ensures OneOpenEach(pulls[i]) && WellFormed(TreeOf(TipIn(refs[i], branch)))
    ensures forall h :: h in refs[i] && StartsWith(h, NAMESPACE) ==> OneJobOver(refs[i][h], TipIn(refs[i], branch))
  {
    var states, moves := CallsAreAHistory(refs, pulls, branch, guarded, calls, i);
    AlwaysSound(states, moves, |moves|);
    var r := states[|moves|];
    forall h | h in refs[i] && StartsWith(h, NAMESPACE) ensures OneJobOver(refs[i][h], r.trunk) {
      assert HeadTip(r, h) == TipIn(refs[i], h);
      assert OneCommitOver(r.heads[h].job, refs[i][h], r.trunk);
    }
  }
}
