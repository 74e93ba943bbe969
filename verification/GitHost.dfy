/** The server the publisher talks to: branches with git's push rule, and pull
    requests as plugin/gitops_emitter/forge.py uses them. */
module GitHost {
  import opened Wrappers
  import opened GitPaths
  import opened GitModel

  datatype PushReply = Accepted | Rejected | Guarded

  /** One commit someone else lands on a branch. */
  datatype Edit = Edit(tree: Tree, message: string)

  function Extend(tip: Tip, edits: seq<Edit>): (t: Tip)
    ensures AncestorOrSame(tip, t)
    ensures t.None? ==> tip.None?
    decreases |edits|
  {
    if edits == [] then tip
    else
      var next := Some(Commit(tip, edits[0].tree, edits[0].message));
      AncestorTransitive(tip, next, Extend(next, edits[1..]));
      Extend(next, edits[1..])
  }

  /** Where the history of `head` leaves that of `base`. */
  function ForkPoint(head: Tip, base: Tip): (f: Tip)
    ensures AncestorOrSame(f, head) && AncestorOrSame(f, base)
    decreases head
  {
    if AncestorOrSame(head, base) then head
    else if head.None? then NoneIsOldest(base); None
    else ForkPoint(head.value.parent, base)
  }

  /** A squash merge: the head's change since the fork point, as one commit on the base. */
  function Squash(base: Tip, head: Commit, message: string): Option<Commit> {
    match MergeTrees(TreeOf(ForkPoint(Some(head), base)), head.tree, TreeOf(base))
    case None => None
    case Some(m) => Some(Commit(base, m, message))
  }

  datatype Pull = Pull(head: string, base: string, title: string, open: bool)

  datatype OpenReply = Opened(number: nat) | Existing(number: nat) | OpenRefused

  /** An open pull request for `head` into `base`. */
  predicate OpenFrom(p: Pull, head: string, base: string) { p.open && p.head == head && p.base == base }

  /** The first open pull request for `head` into `base`; None only when there is none. */
  function FirstOpen(pulls: seq<Pull>, head: string, base: string): (n: Option<nat>)
    ensures n.Some? ==> n.value < |pulls| && OpenFrom(pulls[n.value], head, base)
                        && forall i :: 0 <= i < n.value ==> !OpenFrom(pulls[i], head, base)
    ensures n.None? ==> forall i :: 0 <= i < |pulls| ==> !OpenFrom(pulls[i], head, base)
    decreases |pulls|
  {
    if pulls == [] then None
    else
      var last := |pulls| - 1;
      var earlier := FirstOpen(pulls[..last], head, base);
      if earlier.Some? then earlier
      else if OpenFrom(pulls[last], head, base) then Some(last)
      else None
  }

  /** At most one open pull request per head and base. */
  predicate OneOpenEach(pulls: seq<Pull>) {
    forall i, j :: 0 <= i < j < |pulls| && pulls[i].open && pulls[j].open ==>
      pulls[i].head != pulls[j].head || pulls[i].base != pulls[j].base
  }

  type Refs = map<string, Commit>

  function TipIn(refs: Refs, branch: string): Tip { if branch in refs then Some(refs[branch]) else None }

  /** The squash commit a merge would make; None when the server would not merge.
      `admitted` is the server's own verdict: reviews, checks, permissions. */
  function MergeResult(refs: Refs, pr: Pull, admitted: bool): Option<Commit> {
    if !admitted || !pr.open || pr.head !in refs || AncestorOrSame(TipIn(refs, pr.head), TipIn(refs, pr.base)) then None
    else Squash(TipIn(refs, pr.base), refs[pr.head], pr.title)
  }

  class Host {
    var refs: Refs
    /** Branches the server lets change only by merging a pull request. */
    const guarded: set<string>
    var pulls: seq<Pull>

    constructor (refs: Refs, guarded: set<string>)
      ensures this.refs == refs && this.guarded == guarded && pulls == []
    {
      this.refs, this.guarded, pulls := refs, guarded, [];
    }

    function TipOf(branch: string): Tip
      reads this
    {
      TipIn(refs, branch)
    }

    /** `git push origin HEAD:refs/heads/<branch>`: a compare-and-set that only fast-forwards. */
    method Push(branch: string, c: Commit) returns (reply: PushReply)
      modifies this`refs
      ensures reply.Accepted? <==>
        old(TipOf(branch)) == Some(c) || (branch !in guarded && AncestorOrSame(old(TipOf(branch)), Some(c)))
      ensures reply.Guarded? <==> branch in guarded && old(TipOf(branch)) != Some(c)
      ensures refs == if reply.Accepted? then old(refs)[branch := c] else old(refs)
    {
      if TipOf(branch) == Some(c) {
        reply := Accepted;
        refs := refs[branch := c];
      } else if branch in guarded {
        reply := Guarded;
      } else if AncestorOrSame(TipOf(branch), Some(c)) {
        refs := refs[branch := c];
        reply := Accepted;
      } else {
        reply := Rejected;
      }
    }

    /** `git push --force`: unconditional, short of branch protection. */
    method ForcePush(branch: string, c: Commit) returns (ok: bool)
      modifies this`refs
      ensures ok <==> branch !in guarded
      ensures refs == if ok then old(refs)[branch := c] else old(refs)
    {
      ok := branch !in guarded;
      if ok {
        refs := refs[branch := c];
      }
    }

    /** Other writers fast-forward the branch while we are busy. */
    method Advance(branch: string, edits: seq<Edit>)
      modifies this`refs
      ensures TipOf(branch) == Extend(old(TipOf(branch)), edits)
      ensures refs - {branch} == old(refs) - {branch}
    {
      var tip := Extend(TipOf(branch), edits);
      if tip.Some? {
        refs := refs[branch := tip.value];
      }
    }

    /** `find_open_pull_request`: the server filters, the client takes the first. */
    method FindOpen(head: string, base: string) returns (n: Option<nat>)
      ensures n == FirstOpen(pulls, head, base)
      ensures n.None? <==> forall i :: 0 <= i < |pulls| ==> !OpenFrom(pulls[i], head, base)
    {
      n := FirstOpen(pulls, head, base);
    }

    /** `open_pull_request`: the server refuses a second open one for the same head,
        and then the one that is open is looked up and returned. */
    method OpenPull(head: string, base: string, title: string) returns (reply: OpenReply)
      requires OneOpenEach(pulls)
      modifies this`pulls
      ensures OneOpenEach(pulls)
      ensures reply.Opened? ==>
        && old(FirstOpen(pulls, head, base)).None?
        && head in refs && base in refs && !AncestorOrSame(TipOf(head), TipOf(base))
        && reply.number == |old(pulls)| && pulls == old(pulls) + [Pull(head, base, title, true)]
      ensures reply.Existing? ==> pulls == old(pulls) && Some(reply.number) == FirstOpen(pulls, head, base)
      ensures reply.OpenRefused? ==>
        && pulls == old(pulls) && FirstOpen(pulls, head, base).None?
        && (head !in refs || base !in refs || AncestorOrSame(TipOf(head), TipOf(base)))
    {
      var found := FindOpen(head, base);
      if found.Some? {
        reply := Existing(found.value);
      } else if head !in refs || base !in refs || AncestorOrSame(TipOf(head), TipOf(base)) {
        reply := OpenRefused;
      } else {
        reply := Opened(|pulls|);
        pulls := pulls + [Pull(head, base, title, true)];
      }
    }

    /** `merge_pull_request` (squash). */
    method Merge(number: nat, admitted: bool) returns (merged: Option<Commit>)
      requires number < |pulls|
      modifies this
      ensures merged == MergeResult(old(refs), old(pulls[number]), admitted)
      ensures refs == if merged.Some? then old(refs)[old(pulls[number].base) := merged.value] else old(refs)
      ensures pulls == if merged.Some? then old(pulls)[number := old(pulls[number]).(open := false)] else old(pulls)
    {
      var pr := pulls[number];
      merged := MergeResult(refs, pr, admitted);
      if merged.Some? {
        refs := refs[pr.base := merged.value];
        pulls := pulls[number := pr.(open := false)];
      }
    }
  }

  // ----- Pull requests stay single ----------------------------------------

  lemma OpeningKeepsOneEach(pulls: seq<Pull>, p: Pull)
    requires OneOpenEach(pulls) && FirstOpen(pulls, p.head, p.base).None?
    ensures OneOpenEach(pulls + [p])
  {
  }

  lemma ClosingKeepsOneEach(pulls: seq<Pull>, n: nat)
    requires OneOpenEach(pulls) && n < |pulls|
    ensures OneOpenEach(pulls[n := pulls[n].(open := false)])
  {
  }

  // ----- Squash merges ----------------------------------------------------

  /** A head that is one commit over an ancestor of the base forks there. */
  lemma OneCommitForkPoint(head: Commit, base: Tip)
    requires AncestorOrSame(head.parent, base) && !AncestorOrSame(Some(head), base)
    ensures ForkPoint(Some(head), base) == head.parent
  {
  }

  /** A head one commit over an ancestor of the base can be squashed onto it exactly when its
      change and the base's since then can be merged; every path ends as that merge says. */
  lemma SquashesIff(base: Tip, head: Commit, message: string)
    requires AncestorOrSame(head.parent, base) && !AncestorOrSame(Some(head), base)
    requires WellFormed(head.tree) && WellFormed(TreeOf(base))
    ensures var cut, squash := TreeOf(head.parent), Squash(base, head, message);
      && (squash.Some? <==> Mergeable(cut, head.tree, TreeOf(base)))
      && (squash.Some? ==>
        && squash.value.parent == base && squash.value.message == message
        && forall p: Path :: Lookup(squash.value.tree, p) == Ends(cut, head.tree, TreeOf(base), p))
  {
    OneCommitForkPoint(head, base);
    MergesIff(TreeOf(head.parent), head.tree, TreeOf(base));
  }

  /** Merging a head cut from the current base tip makes the base carry the head's tree. */
  lemma SquashOfFreshHead(base: Tip, head: Commit, message: string)
    requires head.parent == base && WellFormed(head.tree) && !AncestorOrSame(Some(head), base)
    ensures Squash(base, head, message) == Some(Commit(base, head.tree, message))
  {
    OneCommitForkPoint(head, base);
    MergeOntoBase(TreeOf(base), head.tree);
  }
}
