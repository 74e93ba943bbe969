/** From a decision about a head branch to a pull request and its merge: what a publish
    (plugin/gitops_emitter/harness/hermes.py:1060-1149) and a decommission
    (plugin/gitops_emitter/decommission_cli.py:129-169) do alike in PR mode. */
module Proposals {
  import opened Wrappers
  import opened GitPaths
  import opened GitModel
  import opened PublishSpec
  import opened HeadSpec
  import opened GitHost
  import opened Publisher

  datatype Published =
    | NotGitHub
    | Direct(outcome: Outcome)
    | HeadFailed(head: HeadOutcome)
    | NoChange
    | OpenFailed
    | Proposed(number: nat, commit: Commit)
    | MergeFailed(number: nat)
    | Merged(number: nat, commit: Commit)

  type Pulls = seq<Pull>

  /** The pull request a head ends up with, found or opened, and the list it is in. */
  function FoundOrOpened(refs: Refs, pulls: Pulls, head: string, branch: string, title: string)
    : (r: Option<(nat, Pulls)>)
    ensures r.Some? ==> r.value.0 < |r.value.1| && OpenFrom(r.value.1[r.value.0], head, branch)
  {
    var found := FirstOpen(pulls, head, branch);
    if found.Some? then Some((found.value, pulls))
    else if head !in refs || branch !in refs || AncestorOrSame(TipIn(refs, head), TipIn(refs, branch)) then None
    else Some((|pulls|, pulls + [Pull(head, branch, title, true)]))
  }

  /** What proposing the commit on `head` answers, and what refs and pull requests become. */
  function Proposing(refs: Refs, pulls: Pulls, head: string, branch: string, title: string, commit: Commit,
                     autoMerge: bool, admitted: bool): (Published, Refs, Pulls)
  {
    match FoundOrOpened(refs, pulls, head, branch, title)
    case None => (OpenFailed, refs, pulls)
    case Some((n, ps)) =>
      if !autoMerge then (Proposed(n, commit), refs, ps)
      else match MergeResult(refs, ps[n], admitted)
        case None => (MergeFailed(n), refs, ps)
        case Some(m) => (Merged(n, m), refs[branch := m], ps[n := ps[n].(open := false)])
  }

  /** Find the open pull request of a head, or open one. */
  method FindOrOpen(host: Host, head: string, branch: string, title: string) returns (number: Option<nat>)
    requires OneOpenEach(host.pulls)
    modifies host`pulls
    ensures OneOpenEach(host.pulls)
    ensures var done := FoundOrOpened(host.refs, old(host.pulls), head, branch, title);
      && (number.None? <==> done.None?)
      && host.pulls == (if done.Some? then done.value.1 else old(host.pulls))
      && (number.Some? ==> number.value == done.value.0)
    ensures number.Some? ==> number == FirstOpen(host.pulls, head, branch)
  {
    number := host.FindOpen(head, branch);
    if number.None? {
      var reply := host.OpenPull(head, branch, title);
      if reply.Opened? {
        OnlyOpen(host.pulls, reply.number);
      }
      number := if reply.OpenRefused? then None else Some(reply.number);
    }
  }

  /** The pull-request half of a publish or a removal whose commit is on `head`. */
  method Propose(host: Host, head: string, branch: string, title: string, commit: Commit,
                 autoMerge: bool, admitted: bool) returns (r: Published)
    requires OneOpenEach(host.pulls)
    modifies host
    ensures (r, host.refs, host.pulls)
         == Proposing(old(host.refs), old(host.pulls), head, branch, title, commit, autoMerge, admitted)
  {
    var number := FindOrOpen(host, head, branch, title);
    if number.None? {
      return OpenFailed;
    }
    if !autoMerge {
      return Proposed(number.value, commit);
    }
    var merged := host.Merge(number.value, admitted);
    if merged.None? {
      return MergeFailed(number.value);
    }
    r := Merged(number.value, merged.value);
  }

  /** The open pull request of its head and base is the first one found. */
  lemma OnlyOpen(pulls: seq<Pull>, n: nat)
    requires OneOpenEach(pulls) && n < |pulls| && pulls[n].open
    ensures FirstOpen(pulls, pulls[n].head, pulls[n].base) == Some(n)
  {
    var f := FirstOpen(pulls, pulls[n].head, pulls[n].base);
    assert f.Some?;
  }

  lemma NoneLeftOpen(pulls: seq<Pull>, n: nat)
    requires OneOpenEach(pulls) && n < |pulls| && pulls[n].open
    ensures var after := pulls[n := pulls[n].(open := false)];
      OneOpenEach(after) && FirstOpen(after, pulls[n].head, pulls[n].base).None?
  {
    var after := pulls[n := pulls[n].(open := false)];
    forall i | 0 <= i < |after| && after[i].open
      ensures after[i].head != pulls[n].head || after[i].base != pulls[n].base
    {
      assert i != n && after[i] == pulls[i];
    }
  }

  /** The server would merge a commit into the base: its review admits it, it is not there
      already, and the two sides' changes can be merged. */
  predicate CanMerge(base: Tip, commit: Commit, admitted: bool) {
    admitted && !AncestorOrSame(Some(commit), base) && Squash(base, commit, "").Some?
  }

  /** Which of the four answers: no pull request can be had only when none is open and the base
      is missing or holds the commit already; without auto-merge it is proposed and stays
      open, whatever the server would do; with it, it is merged exactly when the server can. */
  predicate Answered(found: bool, base: Tip, commit: Commit, autoMerge: bool, admitted: bool, r: Published) {
    && (r.OpenFailed? <==> !found && (base.None? || AncestorOrSame(Some(commit), base)))
    && (r.Proposed? <==> !r.OpenFailed? && !autoMerge)
    && (r.Merged? <==> !r.OpenFailed? && autoMerge && CanMerge(base, commit, admitted))
    && (r.MergeFailed? <==> !r.OpenFailed? && autoMerge && !CanMerge(base, commit, admitted))
  }

  /** The pull requests afterwards: the one found, or one opened under this title; closed if merged. */
  predicate PullsAfter(pulls: Pulls, pulls': Pulls, head: string, branch: string, title: string, r: Published) {
    match r
    case Proposed(n, _) => pulls' == WithPull(pulls, head, branch, title, n, true)
    case MergeFailed(n) => pulls' == WithPull(pulls, head, branch, title, n, true)
    case Merged(n, _) => pulls' == WithPull(pulls, head, branch, title, n, false)
    case _ => pulls' == pulls
  }

  function WithPull(pulls: Pulls, head: string, branch: string, title: string, n: nat, open: bool): Pulls {
    if n < |pulls| && OpenFrom(pulls[n], head, branch) then pulls[n := pulls[n].(open := open)]
    else pulls + [Pull(head, branch, title, open)]
  }

  /** What proposing a commit leaves behind: at most one pull request per head and base, and
      one open for this one unless opening failed or it was merged; the base moved only if
      merged, and then to that commit's squash; no other ref moved. */
  predicate Proposal(refs: Refs, pulls: Pulls, refs': Refs, pulls': Pulls, head: string, branch: string,
                     title: string, commit: Commit, autoMerge: bool, admitted: bool, r: Published)
  {
    && OneOpenEach(pulls')
    && refs' - {branch} == refs - {branch}
    && Answered(FirstOpen(pulls, head, branch).Some?, TipIn(refs, branch), commit, autoMerge, admitted, r)
    && (!r.Merged? ==> refs' == refs)
    && PullsAfter(pulls, pulls', head, branch, title, r)
    && (r.Proposed? ==> r.commit == commit)
    && (r.Proposed? || r.MergeFailed? ==> FirstOpen(pulls', head, branch) == Some(r.number))
    && (r.Merged? ==>
      && r.number < |pulls'| && FirstOpen(pulls', head, branch).None?
      && TipIn(refs', branch) == Some(r.commit)
      && Squash(TipIn(refs, branch), commit, pulls'[r.number].title) == Some(r.commit))
  }

  lemma SquashWhateverItsTitle(base: Tip, commit: Commit, title: string)
    ensures Squash(base, commit, title).Some? <==> Squash(base, commit, "").Some?
  {
  }

  lemma OpenedIsOne(refs: Refs, pulls: Pulls, head: string, branch: string, title: string)
    requires OneOpenEach(pulls)
    ensures var done := FoundOrOpened(refs, pulls, head, branch, title);
      done.Some? ==> OneOpenEach(done.value.1) && FirstOpen(done.value.1, head, branch) == Some(done.value.0)
  {
    var done := FoundOrOpened(refs, pulls, head, branch, title);
    if FirstOpen(pulls, head, branch).None? && done.Some? {
      OpeningKeepsOneEach(pulls, Pull(head, branch, title, true));
      OnlyOpen(done.value.1, done.value.0);
    }
  }

  lemma ProposingIsAProposal(refs: Refs, pulls: Pulls, head: string, branch: string, title: string, commit: Commit,
                             autoMerge: bool, admitted: bool)
    requires OneOpenEach(pulls) && TipIn(refs, head) == Some(commit)
    ensures var (r, refs', pulls') := Proposing(refs, pulls, head, branch, title, commit, autoMerge, admitted);
      Proposal(refs, pulls, refs', pulls', head, branch, title, commit, autoMerge, admitted, r)
  {
    OpenedIsOne(refs, pulls, head, branch, title);
    var done := FoundOrOpened(refs, pulls, head, branch, title);
    if done.Some? {
      var (n, ps) := done.value;
      SquashWhateverItsTitle(TipIn(refs, branch), commit, ps[n].title);
      assert ps[n].(open := true) == ps[n] && ps[n := ps[n]] == ps;
      assert ps == WithPull(pulls, head, branch, title, n, true);
      if autoMerge && MergeResult(refs, ps[n], admitted).Some? {
        MergedIsAProposal(refs, pulls, ps, head, branch, title, n, commit, admitted);
      }
    }
  }

  lemma MergedIsAProposal(refs: Refs, pulls: Pulls, ps: Pulls, head: string, branch: string, title: string, n: nat,
                          commit: Commit, admitted: bool)
    requires OneOpenEach(ps) && n < |ps| && OpenFrom(ps[n], head, branch)
    requires FoundOrOpened(refs, pulls, head, branch, title) == Some((n, ps))
    requires TipIn(refs, head) == Some(commit) && MergeResult(refs, ps[n], admitted).Some?
    ensures var m := MergeResult(refs, ps[n], admitted).value;
      Proposal(refs, pulls, refs[branch := m], ps[n := ps[n].(open := false)], head, branch, title, commit, true,
               admitted, Merged(n, m))
  {
    NoneLeftOpen(ps, n);
    MergedIsAnswered(refs, pulls, ps, head, branch, title, n, commit, admitted);
    MergedIsListed(refs, pulls, ps, head, branch, title, n);
    MovesTheBase(refs, branch, MergeResult(refs, ps[n], admitted).value);
  }

  lemma MovesTheBase(refs: Refs, branch: string, m: Commit)
    ensures refs[branch := m] - {branch} == refs - {branch} && TipIn(refs[branch := m], branch) == Some(m)
  {
  }

  lemma MergedIsListed(refs: Refs, pulls: Pulls, ps: Pulls, head: string, branch: string, title: string, n: nat)
    requires n < |ps| && OpenFrom(ps[n], head, branch)
    requires FoundOrOpened(refs, pulls, head, branch, title) == Some((n, ps))
    ensures ps[n := ps[n].(open := false)] == WithPull(pulls, head, branch, title, n, false)
  {
  }

  lemma MergedIsAnswered(refs: Refs, pulls: Pulls, ps: Pulls, head: string, branch: string, title: string, n: nat,
                         commit: Commit, admitted: bool)
    requires n < |ps| && OpenFrom(ps[n], head, branch)
    requires FoundOrOpened(refs, pulls, head, branch, title) == Some((n, ps))
    requires TipIn(refs, head) == Some(commit) && MergeResult(refs, ps[n], admitted).Some?
    ensures Answered(FirstOpen(pulls, head, branch).Some?, TipIn(refs, branch), commit, true, admitted,
                     Merged(n, MergeResult(refs, ps[n], admitted).value))
  {
    SquashWhateverItsTitle(TipIn(refs, branch), commit, ps[n].title);
  }

  /** A merged commit that was cut from the base it is merged into brings its own tree. */
  lemma FreshMergeTree(base: Tip, commit: Commit, title: string, merged: Commit)
    requires Squash(base, commit, title) == Some(merged)
    requires commit.parent == base && WellFormed(commit.tree)
    ensures merged.tree == commit.tree && merged.parent == base
  {
    NotBelowItsParent(commit);
    SquashOfFreshHead(base, commit, title);
  }

  lemma HeadUntouched(refs: Refs, pulls: Pulls, head: string, branch: string, title: string, commit: Commit,
                      autoMerge: bool, admitted: bool)
    requires head != branch && TipIn(refs, head) == Some(commit)
    ensures var (r, refs', _) := Proposing(refs, pulls, head, branch, title, commit, autoMerge, admitted);
      TipIn(refs', head) == Some(commit) && refs' - {branch, head} == refs - {branch, head}
  {
  }

  // ----- From the decision ------------------------------------------------

  /** PR mode's table: nothing when the base is as wanted; nothing pushed when the head is;
      a forced push otherwise; then the pull request. */
  function Pulling(refs: Refs, pulls: Pulls, guarded: set<string>, head: string, branch: string, title: string,
                   d: Decision, autoMerge: bool, admitted: bool): (Published, Refs, Pulls)
  {
    match d
    case BaseCarries => (NoChange, refs, pulls)
    case Unwritable => (HeadFailed(Decided(Unwritable)), refs, pulls)
    case NothingToCommit => (HeadFailed(Decided(NothingToCommit)), refs, pulls)
    case HeadCarries(c) => Proposing(refs, pulls, head, branch, title, c, autoMerge, admitted)
    case Push(c) =>
      if head in guarded then (HeadFailed(HeadGuarded), refs, pulls)
      else Proposing(refs[head := c], pulls, head, branch, title, c, autoMerge, admitted)
  }

  /** A run that finds the base as wanted, or fails before the pull request, changes nothing;
      any other has the decided commit on the head - pushed by this run, or found there - and
      the answer and the pull request that `Answered` and `PullsAfter` say. The base branch moves by
      the merge alone, to the squash of that very commit; a merge of a commit this run pushed
      makes it carry exactly that commit's tree. No run touches any ref but the base and its
      own head. */
  predicate ByPull(refs: Refs, pulls: Pulls, refs': Refs, pulls': Pulls, guarded: set<string>, head: string,
                   branch: string, title: string, d: Decision, autoMerge: bool, admitted: bool, r: Published)
  {
    var base := TipIn(refs, branch);
    && OneOpenEach(pulls')
    && refs' - {branch, head} == refs - {branch, head}
    && !r.Direct? && !r.NotGitHub?
    && (r.NoChange? <==> d.BaseCarries?)
    && (r.HeadFailed? <==> d.Unwritable? || d.NothingToCommit? || (d.Push? && head in guarded))
    && (r.HeadFailed? ==> r.head == if d.Push? then HeadGuarded else Decided(d))
    && (r.NoChange? || r.HeadFailed? ==> refs' == refs && pulls' == pulls)
    && (!r.Merged? ==> TipIn(refs', branch) == base)
    && (!r.NoChange? && !r.HeadFailed? ==>
      && TipIn(refs', head) == Some(d.commit)
      && Answered(FirstOpen(pulls, head, branch).Some?, base, d.commit, autoMerge, admitted, r)
      && PullsAfter(pulls, pulls', head, branch, title, r))
    && (r.Proposed? ==> r.commit == d.commit)
    && (r.Proposed? || r.MergeFailed? ==> FirstOpen(pulls', head, branch) == Some(r.number))
    && (r.Merged? ==>
      && TipIn(refs', branch) == Some(r.commit) && FirstOpen(pulls', head, branch).None?
      && r.number < |pulls'| && Squash(base, d.commit, pulls'[r.number].title) == Some(r.commit))
    && (r.Merged? && d.Push? ==> r.commit.tree == d.commit.tree && r.commit.parent == base)
  }

  /** What is known of a decision: it keeps the head it names, or cuts a proper tree from the base. */
  predicate DecidedOn(d: Decision, base: Tip, head: Tip) {
    && (d.HeadCarries? ==> Some(d.commit) == head)
    && (d.Push? ==> d.commit.parent == base && WellFormed(d.commit.tree))
  }

  lemma PullingIsByPull(refs: Refs, pulls: Pulls, guarded: set<string>, head: string, branch: string, title: string,
                        d: Decision, autoMerge: bool, admitted: bool)
    requires OneOpenEach(pulls) && head != branch && DecidedOn(d, TipIn(refs, branch), TipIn(refs, head))
    ensures var (r, refs', pulls') := Pulling(refs, pulls, guarded, head, branch, title, d, autoMerge, admitted);
      ByPull(refs, pulls, refs', pulls', guarded, head, branch, title, d, autoMerge, admitted, r)
  {
    match d
    case HeadCarries(c) =>
      ProposingIsAProposal(refs, pulls, head, branch, title, c, autoMerge, admitted);
      HeadUntouched(refs, pulls, head, branch, title, c, autoMerge, admitted);
    case Push(c) =>
      if head !in guarded {
        PushedByPull(refs, pulls, guarded, head, branch, title, c, autoMerge, admitted);
      }
    case _ =>
  }

  lemma PushedByPull(refs: Refs, pulls: Pulls, guarded: set<string>, head: string, branch: string, title: string,
                     c: Commit, autoMerge: bool, admitted: bool)
    requires OneOpenEach(pulls) && head != branch && head !in guarded
    requires DecidedOn(Push(c), TipIn(refs, branch), TipIn(refs, head))
    ensures var (r, refs', pulls') := Proposing(refs[head := c], pulls, head, branch, title, c, autoMerge, admitted);
      ByPull(refs, pulls, refs', pulls', guarded, head, branch, title, Push(c), autoMerge, admitted, r)
  {
    var pushed := refs[head := c];
    ProposingIsAProposal(pushed, pulls, head, branch, title, c, autoMerge, admitted);
    HeadUntouched(pushed, pulls, head, branch, title, c, autoMerge, admitted);
    assert TipIn(pushed, branch) == TipIn(refs, branch);
    assert pushed - {branch, head} == refs - {branch, head};
    var (r, _, pulls') := Proposing(pushed, pulls, head, branch, title, c, autoMerge, admitted);
    if r.Merged? {
      FreshMergeTree(TipIn(refs, branch), c, pulls'[r.number].title, r.commit);
    }
  }
}
