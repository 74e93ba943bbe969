/** PR mode under concurrency: publishes and removals for any number of agents, each a
    clone, a decision and a forced push on its own time, pull requests opened, merged
    and closed in between (plugin/gitops_emitter/gitrepo.py:386-579,
    plugin/gitops_emitter/forge.py:118-249, plugin/gitops_emitter/decommission_cli.py:129-169). */
module PullRequestRuns {
  import opened Wrappers
  import opened GitPaths
  import opened GitModel
  import opened PublishSpec
  import opened HeadSpec
  import opened GitHost
  import opened DirectRuns

  /** A head branch, and the job its one commit was made for. */
  datatype Head = Head(commit: Commit, job: Job)

  datatype FlightPhase = Cloned(base: Tip) | Ready(commit: Commit) | Over

  /** One run of the publisher: which head it is for, and how far it has come. */
  datatype Flight = Flight(head: string, job: Job, message: string, phase: FlightPhase)

  /** `branch` is the base branch's name, `trunk` its tip. */
  datatype Repo = Repo(branch: string, trunk: Tip, heads: map<string, Head>, pulls: seq<Pull>, flights: seq<Flight>)

  function HeadTip(r: Repo, head: string): Tip {
    if head in r.heads then Some(r.heads[head].commit) else None
  }

  datatype Move =
    | Clone(head: string, job: Job, message: string)
    | Choose(flight: nat)                // compare with base and head, commit locally
    | Force(flight: nat)                 // push --force the head branch
    | OpenFor(head: string, title: string)
    | MergePull(number: nat)
    | ClosePull(number: nat)             // someone closes it unmerged

  /** What a flight decides against the head branch as it is now. */
  function Chosen(f: Flight, head: Tip): FlightPhase
    requires f.phase.Cloned?
  {
    match f.job
    case Write(req) =>
      var d := Decide(f.phase.base, head, req, f.message);
      if d.Push? then Ready(d.commit) else Over
    case Remove(rels) =>
      var t := TreeOf(f.phase.base);
      if Removed(t, rels) == t then Over else Ready(Commit(f.phase.base, Removed(t, rels), f.message))
  }

  predicate Enabled(r: Repo, m: Move) {
    match m
    case Clone(_, job, _) => Rooted(job)
    case Choose(k) => k < |r.flights| && r.flights[k].phase.Cloned?
    case Force(k) => k < |r.flights| && r.flights[k].phase.Ready?
    case OpenFor(head, _) =>
      && FirstOpen(r.pulls, head, r.branch).None? && head in r.heads && r.trunk.Some?
      && !AncestorOrSame(HeadTip(r, head), r.trunk)
    case MergePull(n) =>
      && n < |r.pulls| && r.pulls[n].open && r.pulls[n].head in r.heads
      && !AncestorOrSame(HeadTip(r, r.pulls[n].head), r.trunk)
      && Squash(r.trunk, r.heads[r.pulls[n].head].commit, r.pulls[n].title).Some?
    case ClosePull(n) => n < |r.pulls|
  }

  function Apply(r: Repo, m: Move): Repo
    requires Enabled(r, m)
  {
    match m
    case Clone(head, job, message) => r.(flights := r.flights + [Flight(head, job, message, Cloned(r.trunk))])
    case Choose(k) =>
      var f := r.flights[k];
      r.(flights := r.flights[k := f.(phase := Chosen(f, HeadTip(r, f.head)))])
    case Force(k) =>
      var f := r.flights[k];
      r.(heads := r.heads[f.head := Head(f.phase.commit, f.job)], flights := r.flights[k := f.(phase := Over)])
    case OpenFor(head, title) => r.(pulls := r.pulls + [Pull(head, r.branch, title, true)])
    case MergePull(n) =>
      r.(trunk := Squash(r.trunk, r.heads[r.pulls[n].head].commit, r.pulls[n].title),
         pulls := r.pulls[n := r.pulls[n].(open := false)])
    case ClosePull(n) => r.(pulls := r.pulls[n := r.pulls[n].(open := false)])
  }

  /** A history: the repository after each move. */
  predicate History(states: seq<Repo>, moves: seq<Move>) {
    && |states| == |moves| + 1
    && Fresh(states[0])
    && forall i {:trigger moves[i]} :: 0 <= i < |moves| ==>
         Enabled(states[i], moves[i]) && states[i + 1] == Apply(states[i], moves[i])
  }

  predicate Fresh(r: Repo) {
    WellFormed(TreeOf(r.trunk)) && r.heads == map[] && r.pulls == [] && r.flights == []
  }

  // ----- The invariant ----------------------------------------------------

  /** One commit over a tip the trunk has (or had), carrying exactly its job's change. */
  predicate OneCommitOver(job: Job, c: Commit, trunk: Tip) {
    Own(job, c.parent, c) && AncestorOrSame(c.parent, trunk)
  }

  predicate FlightGood(f: Flight, trunk: Tip) {
    && Rooted(f.job)
    && match f.phase
       case Cloned(base) => WellFormed(TreeOf(base)) && AncestorOrSame(base, trunk)
       case Ready(c) => OneCommitOver(f.job, c, trunk)
       case Over => true
  }

  predicate Sound(r: Repo) {
    && WellFormed(TreeOf(r.trunk))
    && (forall h :: h in r.heads ==>
          OneCommitOver(r.heads[h].job, r.heads[h].commit, r.trunk) && Rooted(r.heads[h].job))
    && (forall f :: f in r.flights ==> FlightGood(f, r.trunk))
    && OneOpenEach(r.pulls)
    && (forall p :: p in r.pulls ==> p.base == r.branch)
  }

  lemma ChosenIsGood(f: Flight, head: Tip, trunk: Tip)
    requires f.phase.Cloned? && FlightGood(f, trunk)
    ensures FlightGood(f.(phase := Chosen(f, head)), trunk)
  {
    var t := TreeOf(f.phase.base);
    if Chosen(f, head).Ready? {
      ComputedIsWellFormed(f.job, t);
    }
  }

  /** A merge is the head's own change carried onto the trunk. */
  lemma MergeCarriesTheHead(r: Repo, n: nat)
    requires Sound(r) && Enabled(r, MergePull(n))
    ensures var c := r.heads[r.pulls[n].head].commit;
      var after := Apply(r, MergePull(n)).trunk;
      after.Some? && Carried(c.parent, c, r.trunk, after.value) && WellFormed(after.value.tree)
  {
    var c := r.heads[r.pulls[n].head].commit;
    OneCommitForkPoint(c, r.trunk);
  }

  lemma GoodLater(f: Flight, trunk: Tip, later: Tip)
    requires FlightGood(f, trunk) && AncestorOrSame(trunk, later)
    ensures FlightGood(f, later)
  {
    match f.phase
    case Cloned(base) => AncestorTransitive(base, trunk, later);
    case Ready(c) => AncestorTransitive(c.parent, trunk, later);
    case Over =>
  }

  lemma SoundAfter(r: Repo, m: Move)
    requires Sound(r) && Enabled(r, m)
    ensures Sound(Apply(r, m)) && AncestorOrSame(r.trunk, Apply(r, m).trunk)
  {
    var r' := Apply(r, m);
    match m {
      case Clone(_, _, _) =>
      case Choose(k) =>
        var f := r.flights[k];
        assert f in r.flights;
        ChosenIsGood(f, HeadTip(r, f.head), r.trunk);
      case Force(k) =>
        assert r.flights[k] in r.flights;
      case OpenFor(head, title) =>
        OpeningKeepsOneEach(r.pulls, Pull(head, r.branch, title, true));
      case ClosePull(n) =>
        ClosingKeepsOneEach(r.pulls, n);
        assert r.pulls[n] in r.pulls;
      case MergePull(n) =>
        MergeCarriesTheHead(r, n);
        ClosingKeepsOneEach(r.pulls, n);
        assert r.pulls[n] in r.pulls;
        forall f | f in r'.flights ensures FlightGood(f, r'.trunk) { GoodLater(f, r.trunk, r'.trunk); }
        forall h | h in r'.heads ensures OneCommitOver(r'.heads[h].job, r'.heads[h].commit, r'.trunk) {
          AncestorTransitive(r.heads[h].commit.parent, r.trunk, r'.trunk);
        }
    }
  }

  // ----- Over whole histories ---------------------------------------------

  /** At every moment each head is one commit over a tip of the trunk, and no head has
      two open pull requests. */
  lemma {:induction false} AlwaysSound(states: seq<Repo>, moves: seq<Move>, i: nat)
    requires History(states, moves) && i < |states|
    ensures Sound(states[i])
  {
    if i > 0 {
      AlwaysSound(states, moves, i - 1);
      assert states[i - 1 + 1] == Apply(states[i - 1], moves[i - 1]);
      SoundAfter(states[i - 1], moves[i - 1]);
    }
  }

  lemma OneMove(r: Repo, m: Move)
    requires Sound(r) && Enabled(r, m)
    ensures AncestorOrSame(r.trunk, Apply(r, m).trunk) && (!m.MergePull? ==> Apply(r, m).trunk == r.trunk)
  {
    SoundAfter(r, m);
  }

  lemma OneStep(states: seq<Repo>, moves: seq<Move>, k: nat)
    requires History(states, moves) && k < |moves|
    ensures k + 1 < |states| && AncestorOrSame(states[k].trunk, states[k + 1].trunk)
    ensures !moves[k].MergePull? ==> states[k + 1].trunk == states[k].trunk
  {
    AlwaysSound(states, moves, k);
    assert Enabled(states[k], moves[k]) && states[k + 1] == Apply(states[k], moves[k]);
    OneMove(states[k], moves[k]);
  }

  /** The trunk only fast-forwards, and only a merge moves it. */
  lemma {:induction false} OnlyMergesMoveTheTrunk(states: seq<Repo>, moves: seq<Move>, i: nat, j: nat)
    requires History(states, moves) && i <= j < |states|
    ensures AncestorOrSame(states[i].trunk, states[j].trunk)
    ensures states[i].trunk != states[j].trunk ==> exists k :: i <= k < j && moves[k].MergePull?
    decreases j - i
  {
    if i < j {
      OnlyMergesMoveTheTrunk(states, moves, i, j - 1);
      OneStep(states, moves, j - 1);
      AncestorTransitive(states[i].trunk, states[j - 1].trunk, states[j].trunk);
    }
  }

  // ----- What a merge is worth --------------------------------------------

  /** After the merge of a publish, another publish of the same request finds nothing to
      do exactly when, since the head was cut, nobody touched the files that were already
      right then or added files under the reconciled trees. */
  lemma MergeMakesQuietIff(states: seq<Repo>, moves: seq<Move>, i: nat, req: Request, head: Tip, message: string)
    requires History(states, moves) && i < |moves| && moves[i].MergePull?
    requires states[i].heads[states[i].pulls[moves[i].number].head].job == Write(req)
    requires WellSpelled(req) && Consistent(req.Files())
    ensures var c := states[i].heads[states[i].pulls[moves[i].number].head].commit;
      var cut, now := TreeOf(c.parent), TreeOf(states[i].trunk);
      Decide(states[i + 1].trunk, head, req, message).BaseCarries? <==> LeftAlone(cut, now, req)
  {
    AlwaysSound(states, moves, i);
    var r, n := states[i], moves[i].number;
    assert Enabled(r, moves[i]) && states[i + 1] == Apply(r, moves[i]);
    var c := r.heads[r.pulls[n].head].commit;
    MergeCarriesTheHead(r, n);
    LandedIsQuietIff(c, r.trunk, states[i + 1].trunk.value, req, head, message);
  }

  lemma LandedIsQuietIff(c: Commit, trunk: Tip, after: Commit, req: Request, head: Tip, message: string)
    requires Own(Write(req), c.parent, c) && Carried(c.parent, c, trunk, after) && WellFormed(after.tree)
    requires WellSpelled(req) && Consistent(req.Files()) && Rooted(Write(req))
    ensures var cut, now := TreeOf(c.parent), TreeOf(trunk);
      Decide(Some(after), head, req, message).BaseCarries? <==> LeftAlone(cut, now, req)
  {
    LandedIsDesiredIff(c.parent, c, trunk, after, req);
    BaseTestDecidesDesired(after.tree, req);
  }

  /** In particular a head cut from the very tip it is merged into: the trunk takes the
      head's tree as it is, and the next publish is a no-op. */
  lemma FreshMergeIsQuiet(states: seq<Repo>, moves: seq<Move>, i: nat, req: Request, head: Tip, message: string)
    requires History(states, moves) && i < |moves| && moves[i].MergePull?
    requires states[i].heads[states[i].pulls[moves[i].number].head].job == Write(req)
    requires states[i].heads[states[i].pulls[moves[i].number].head].commit.parent == states[i].trunk
    requires WellSpelled(req) && Consistent(req.Files())
    ensures TreeOf(states[i + 1].trunk) == states[i].heads[states[i].pulls[moves[i].number].head].commit.tree
    ensures Decide(states[i + 1].trunk, head, req, message).BaseCarries?
  {
    AlwaysSound(states, moves, i);
    var r, n := states[i], moves[i].number;
    assert Enabled(r, moves[i]) && states[i + 1] == Apply(r, moves[i]);
    SquashOfFreshHead(r.trunk, r.heads[r.pulls[n].head].commit, r.pulls[n].title);
    MergeMakesQuietIff(states, moves, i, req, head, message);
  }

  /** Whatever merges, a job's merge leaves everything outside its trees as it found it. */
  lemma MergesKeepTheOperatorsFiles(states: seq<Repo>, moves: seq<Move>, i: nat, prefixes: seq<string>)
    requires History(states, moves) && i < |moves| && moves[i].MergePull?
    requires JobWithin(states[i].heads[states[i].pulls[moves[i].number].head].job, prefixes)
    ensures SameOutside(TreeOf(states[i].trunk), TreeOf(states[i + 1].trunk), prefixes)
  {
    AlwaysSound(states, moves, i);
    var r, n := states[i], moves[i].number;
    assert Enabled(r, moves[i]) && states[i + 1] == Apply(r, moves[i]);
    var h := r.heads[r.pulls[n].head];
    MergeCarriesTheHead(r, n);
    OwnFrame(h.job, h.commit.parent, h.commit, prefixes);
    LandingFrame(h.commit.parent, h.commit, r.trunk, states[i + 1].trunk.value, prefixes);
  }

  // ----- What a publisher decides -----------------------------------------

  /** What the head branch's commit was made for: an earlier version of the same record, without
      carriage returns and over a base with no file in the place of a reconciled tree, or the
      record's removal. */
  predicate MadeFor(h: Head, req: Request) {
    match h.job
    case Write(earlier) =>
      && Place(earlier.record) == Place(req.record) && earlier.trees == req.trees && Consistent(earlier.Files())
      && CR !in earlier.record.data && TreesClear(TreeOf(h.commit.parent), earlier)
    case Remove(rels) => UnderAny(Place(req.record), rels) && NoFileAtTree(TreeOf(h.commit.parent), req.trees)
  }

  lemma HeadIsClear(h: Head, req: Request)
    requires Own(h.job, h.commit.parent, h.commit) && MadeFor(h, req)
    ensures NoFileAtTree(h.commit.tree, req.trees)
    ensures Place(req.record) in h.commit.tree ==> CR !in h.commit.tree[Place(req.record)]
  {
    var t := TreeOf(h.commit.parent);
    match h.job
    case Write(earlier) =>
      assert h.commit.tree == Delivered(t, earlier);
      ClearTreesStayClear(t, earlier);
      WrittenCarries(SweptFor(t, earlier), earlier.Files());
      assert earlier.record in earlier.Files();
    case Remove(rels) =>
  }

  /** In every history a publisher decides by one predicate: it is over when the base it cloned or
      the head it finds is as desired - or nothing can be written - and otherwise it has a commit
      over that base whose tree is. */
  lemma ChoosesByDesired(states: seq<Repo>, moves: seq<Move>, i: nat, req: Request)
    requires History(states, moves) && i < |moves| && moves[i].Choose?
    requires states[i].flights[moves[i].flight].job == Write(req)
    requires NormalRequest(req) && Consistent(req.Files())
    requires var head := states[i].flights[moves[i].flight].head;
      head in states[i].heads ==> MadeFor(states[i].heads[head], req)
    ensures moves[i].flight < |states[i + 1].flights|
    ensures var f := states[i].flights[moves[i].flight];
      var base, head := f.phase.base, HeadTip(states[i], f.head);
      var next := states[i + 1].flights[moves[i].flight].phase;
      && (next.Over? <==>
          || Desired(TreeOf(base), req) || (head.Some? && Desired(TreeOf(head), req))
          || !Writable(SweptFor(TreeOf(base), req), req.Files()))
      && (!next.Over? ==> next.Ready? && next.commit.parent == base && Desired(next.commit.tree, req))
  {
    AlwaysSound(states, moves, i);
    var r, k := states[i], moves[i].flight;
    assert Enabled(r, moves[i]) && states[i + 1] == Apply(r, moves[i]);
    var f := r.flights[k];
    assert f in r.flights;
    if f.head in r.heads {
      HeadIsClear(r.heads[f.head], req);
    }
    ChosenByDesired(f, HeadTip(r, f.head), req);
  }

  lemma ChosenByDesired(f: Flight, head: Tip, req: Request)
    requires f.phase.Cloned? && f.job == Write(req) && NormalRequest(req) && Consistent(req.Files())
    requires WellFormed(TreeOf(f.phase.base)) && WellFormed(TreeOf(head)) && NoFileAtTree(TreeOf(head), req.trees)
    requires Place(req.record) in TreeOf(head) ==> CR !in TreeOf(head)[Place(req.record)]
    ensures var base, next := f.phase.base, Chosen(f, head);
      && (next.Over? <==>
          || Desired(TreeOf(base), req) || (head.Some? && Desired(TreeOf(head), req))
          || !Writable(SweptFor(TreeOf(base), req), req.Files()))
      && (!next.Over? ==> next.Ready? && next.commit.parent == base && Desired(next.commit.tree, req))
  {
    DecideByDesired(f.phase.base, head, req, f.message);
    var t := TreeOf(f.phase.base);
    if Desired(t, req) {
      DeliveredOfDesired(t, req);
    }
  }
}
