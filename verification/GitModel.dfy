/** What the publisher needs of git: file trees, immutable commits, ancestry, the
    path-wise three-way apply behind `git rebase`, and `git add -A -- <paths>`. */
module GitModel {
  import opened Wrappers
  import opened GitPaths

  newtype byte = x: int | 0 <= x < 256
  type Bytes = seq<byte>

  /** The files of one commit, by path. */
  type Tree = map<Path, Bytes>

  function Lookup(t: Tree, p: Path): Option<Bytes> { if p in t then Some(t[p]) else None }

  /** What git can store: proper paths, and no file where another needs a directory. */
  predicate WellFormed(t: Tree) {
    && (forall p :: p in t ==> p != [] && Proper(p))
    && (forall p, q :: p in t && q in t ==> !(p < q))
  }

  /** Two trees with the same answer at every path are the same tree. */
  lemma SameLookups(s: Tree, t: Tree)
    requires forall p: Path :: Lookup(s, p) == Lookup(t, p)
    ensures s == t
  {
    forall p: Path ensures p in s <==> p in t {
      assert Lookup(s, p) == Lookup(t, p);
    }
    forall p: Path | p in s ensures s[p] == t[p] {
      assert Lookup(s, p) == Lookup(t, p);
    }
  }

  // ----- Commits ----------------------------------------------------------

  /** A commit is its content: where two commits agree on parent, tree and message
      they are one commit, as their hashes are. */
  datatype Commit = Commit(parent: Option<Commit>, tree: Tree, message: string)

  /** What a branch points at; None is a branch that does not exist yet. */
  type Tip = Option<Commit>

  function TreeOf(tip: Tip): Tree { if tip.Some? then tip.value.tree else map[] }

  /** `a` is `b` or one of its ancestors; the missing branch precedes everything. */
  predicate AncestorOrSame(a: Tip, b: Tip)
    decreases b
  {
    a == b || (b.Some? && AncestorOrSame(a, b.value.parent))
  }

  lemma {:induction false} AncestorTransitive(a: Tip, b: Tip, c: Tip)
    requires AncestorOrSame(a, b) && AncestorOrSame(b, c)
    ensures AncestorOrSame(a, c)
    decreases c
  {
    if b != c {
      AncestorTransitive(a, b, c.value.parent);
    }
  }

  lemma {:induction false} NoneIsOldest(c: Tip)
    ensures AncestorOrSame(None, c)
    decreases c
  {
    if c.Some? {
      NoneIsOldest(c.value.parent);
    }
  }

  /** How many commits lead to a tip. */
  function Height(t: Tip): nat { if t.None? then 0 else 1 + Height(t.value.parent) }

  lemma {:induction false} AncestorsAreLower(a: Tip, b: Tip)
    requires AncestorOrSame(a, b)
    ensures Height(a) <= Height(b)
    ensures Height(a) == Height(b) ==> a == b
    decreases b
  {
    if a != b {
      AncestorsAreLower(a, b.value.parent);
    }
  }

  lemma AncestorAntisymmetric(a: Tip, b: Tip)
    requires AncestorOrSame(a, b) && AncestorOrSame(b, a)
    ensures a == b
  {
    AncestorsAreLower(a, b);
    AncestorsAreLower(b, a);
  }

  lemma NotBelowItsParent(c: Commit)
    ensures !AncestorOrSame(Some(c), c.parent)
  {
    if AncestorOrSame(Some(c), c.parent) {
      AncestorsAreLower(Some(c), c.parent);
    }
  }

  // ----- Three-way apply --------------------------------------------------

  predicate Changed(before: Tree, after: Tree, p: Path) { Lookup(before, p) != Lookup(after, p) }

  /** Both sides changed `p`, and not to the same thing. */
  predicate Clash(base: Tree, ours: Tree, theirs: Tree, p: Path) {
    Changed(base, ours, p) && Changed(base, theirs, p) && Lookup(ours, p) != Lookup(theirs, p)
  }

  /** `theirs`, with the change from `base` to `ours` replayed on top. */
  function Applied(base: Tree, ours: Tree, theirs: Tree): (m: Tree)
    ensures forall p: Path :: Lookup(m, p) == if Changed(base, ours, p) then Lookup(ours, p) else Lookup(theirs, p)
  {
    map p | p in ours.Keys + theirs.Keys
            && (if Changed(base, ours, p) then Lookup(ours, p) else Lookup(theirs, p)).Some?
      :: (if Changed(base, ours, p) then Lookup(ours, p) else Lookup(theirs, p)).value
  }

  /** The merged tree, or None for a conflict: on one path, or a file against a directory. */
  function MergeTrees(base: Tree, ours: Tree, theirs: Tree): Option<Tree> {
    if exists p :: p in base.Keys + ours.Keys + theirs.Keys && Clash(base, ours, theirs, p) then None
    else
      var m := Applied(base, ours, theirs);
      if WellFormed(m) then Some(m) else None
  }

  /** A merge that goes through lost nothing of either side. */
  lemma MergeKeepsBoth(base: Tree, ours: Tree, theirs: Tree, p: Path)
    requires MergeTrees(base, ours, theirs).Some?
    ensures Changed(base, ours, p) ==> Lookup(MergeTrees(base, ours, theirs).value, p) == Lookup(ours, p)
    ensures Changed(base, theirs, p) ==> Lookup(MergeTrees(base, ours, theirs).value, p) == Lookup(theirs, p)
    ensures !Changed(base, ours, p) && !Changed(base, theirs, p)
      ==> Lookup(MergeTrees(base, ours, theirs).value, p) == Lookup(base, p)
  {
    assert !Clash(base, ours, theirs, p) by {
      assert Clash(base, ours, theirs, p) ==> p in base.Keys + ours.Keys + theirs.Keys;
    }
  }

  /** What a path ends up with: our answer where we changed it, theirs everywhere else. */
  function Ends(base: Tree, ours: Tree, theirs: Tree, p: Path): Option<Bytes> {
    if Lookup(ours, p) != Lookup(base, p) then Lookup(ours, p) else Lookup(theirs, p)
  }

  /** No path was changed by both sides to different answers, and no file of the outcome
      stands where another needs a directory. */
  ghost predicate Mergeable(base: Tree, ours: Tree, theirs: Tree) {
    && (forall p: Path ::
          || Lookup(ours, p) == Lookup(base, p) || Lookup(theirs, p) == Lookup(base, p)
          || Lookup(ours, p) == Lookup(theirs, p))
    && (forall p: Path, q: Path ::
          p < q && Ends(base, ours, theirs, p).Some? ==> Ends(base, ours, theirs, q).None?)
  }

  /** A merge goes through exactly then, and every path ends as said. */
  lemma MergesIff(base: Tree, ours: Tree, theirs: Tree)
    requires WellFormed(ours) && WellFormed(theirs)
    ensures MergeTrees(base, ours, theirs).Some? <==> Mergeable(base, ours, theirs)
    ensures MergeTrees(base, ours, theirs).Some? ==>
      forall p: Path :: Lookup(MergeTrees(base, ours, theirs).value, p) == Ends(base, ours, theirs, p)
  {
    AppliedEnds(base, ours, theirs);
    ClashesIff(base, ours, theirs);
    OutcomeIsProper(base, ours, theirs, Applied(base, ours, theirs));
    MergesWhen(base, ours, theirs);
  }

  lemma MergesWhen(base: Tree, ours: Tree, theirs: Tree)
    ensures MergeTrees(base, ours, theirs).Some? <==>
      && !(exists p :: p in base.Keys + ours.Keys + theirs.Keys && Clash(base, ours, theirs, p))
      && WellFormed(Applied(base, ours, theirs))
    ensures MergeTrees(base, ours, theirs).Some? ==> MergeTrees(base, ours, theirs).value == Applied(base, ours, theirs)
  {
  }

  lemma AppliedEnds(base: Tree, ours: Tree, theirs: Tree)
    ensures forall p: Path :: Lookup(Applied(base, ours, theirs), p) == Ends(base, ours, theirs, p)
  {
  }

  lemma ClashesIff(base: Tree, ours: Tree, theirs: Tree)
    ensures (exists p :: p in base.Keys + ours.Keys + theirs.Keys && Clash(base, ours, theirs, p)) <==>
            exists p: Path ::
              && Lookup(ours, p) != Lookup(base, p) && Lookup(theirs, p) != Lookup(base, p)
              && Lookup(ours, p) != Lookup(theirs, p)
  {
    forall p: Path | Clash(base, ours, theirs, p) ensures p in base.Keys + ours.Keys + theirs.Keys {}
    if p: Path :| Lookup(ours, p) != Lookup(base, p) && Lookup(theirs, p) != Lookup(base, p)
                  && Lookup(ours, p) != Lookup(theirs, p) {
      assert Clash(base, ours, theirs, p);
    }
  }

  lemma OutcomeIsProper(base: Tree, ours: Tree, theirs: Tree, m: Tree)
    requires WellFormed(ours) && WellFormed(theirs)
    requires forall p: Path :: Lookup(m, p) == Ends(base, ours, theirs, p)
    ensures WellFormed(m) <==> forall p: Path, q: Path ::
              p < q && Ends(base, ours, theirs, p).Some? ==> Ends(base, ours, theirs, q).None?
  {
    forall p: Path ensures p in m <==> Ends(base, ours, theirs, p).Some? {
      assert Lookup(m, p) == Ends(base, ours, theirs, p);
    }
    forall p | p in m ensures p in ours || p in theirs {
      assert Ends(base, ours, theirs, p).Some?;
    }
  }

  /** The other side changed other paths only, and neither side's new files are in the way of
      the other's. */
  ghost predicate Apart(base: Tree, ours: Tree, theirs: Tree) {
    && (forall p: Path :: Lookup(ours, p) == Lookup(base, p) || Lookup(theirs, p) == Lookup(base, p))
    && (forall p, q :: p in ours && q in theirs && Changed(base, ours, p) && Changed(base, theirs, q) ==>
          !(p < q) && !(q < p))
  }

  lemma ApartMerges(base: Tree, ours: Tree, theirs: Tree)
    requires WellFormed(ours) && WellFormed(theirs) && Apart(base, ours, theirs)
    ensures Mergeable(base, ours, theirs)
  {
    forall p: Path, q: Path | p < q && Ends(base, ours, theirs, p).Some?
      ensures Ends(base, ours, theirs, q).None?
    {
      if Ends(base, ours, theirs, q).Some? {
        NotBothIn(base, ours, theirs, p, q);
      }
    }
  }

  /** A file of the outcome that only one side has is one that side wrote. */
  lemma NotBothIn(base: Tree, ours: Tree, theirs: Tree, p: Path, q: Path)
    requires WellFormed(ours) && WellFormed(theirs) && Apart(base, ours, theirs)
    requires Ends(base, ours, theirs, p).Some? && Ends(base, ours, theirs, q).Some?
    ensures !(p < q)
  {
    assert Lookup(ours, p) == Lookup(base, p) || Lookup(theirs, p) == Lookup(base, p);
    assert Lookup(ours, q) == Lookup(base, q) || Lookup(theirs, q) == Lookup(base, q);
    if p in ours && q in ours {
    } else if p in theirs && q in theirs {
    } else if p in ours {
      assert Changed(base, ours, p) && q in theirs && Changed(base, theirs, q);
    } else {
      assert Changed(base, ours, q) && p in theirs && Changed(base, theirs, p);
    }
  }

  /** Replaying on an unmoved base gives back our tree. */
  lemma MergeOntoBase(base: Tree, ours: Tree)
    requires WellFormed(ours)
    ensures MergeTrees(base, ours, base) == Some(ours)
  {
    SameLookups(Applied(base, ours, base), ours);
    assert forall p :: !Clash(base, ours, base, p);
  }

  /** `git rebase FETCH_HEAD`: our one commit replayed on `onto`. A commit that no
      longer changes anything is dropped, and HEAD becomes `onto` itself. */
  function Rebase(base: Tip, mine: Commit, onto: Tip): Option<Commit> {
    match MergeTrees(TreeOf(base), mine.tree, TreeOf(onto))
    case None => None
    case Some(m) =>
      if onto.Some? && m == onto.value.tree then Some(onto.value)
      else Some(Commit(onto, m, mine.message))
  }

  // ----- The index --------------------------------------------------------

  predicate Covered(p: Path, specs: seq<Path>) { exists i :: 0 <= i < |specs| && specs[i] <= p }

  /** The index after `git add -A -- specs` over a clean index of `base`. */
  function Staged(base: Tree, work: Tree, specs: seq<Path>): (index: Tree)
    ensures forall p: Path :: Lookup(index, p) == if Covered(p, specs) then Lookup(work, p) else Lookup(base, p)
  {
    map p | p in base.Keys + work.Keys
            && (if Covered(p, specs) then Lookup(work, p) else Lookup(base, p)).Some?
      :: (if Covered(p, specs) then Lookup(work, p) else Lookup(base, p)).value
  }

  /** Naming every changed path stages the whole work tree. */
  lemma StagingCoversTheWorkTree(base: Tree, work: Tree, specs: seq<Path>)
    requires forall p: Path :: Changed(base, work, p) ==> Covered(p, specs)
    ensures Staged(base, work, specs) == work
  {
    SameLookups(Staged(base, work, specs), work);
  }
}
