/** `publish`, `publish_to_head` and `remove_path` as they run: one work tree, one
    server, other writers in between (plugin/gitops_emitter/gitrepo.py:157-682). */
module Publisher {
  import opened Wrappers
  import opened GitPaths
  import opened GitModel
  import opened PublishSpec
  import opened HeadSpec
  import opened GitHost

  datatype Outcome =
    | Refused(verdict: Verdict)   // PathNotAllowed
    | Unchanged                   // None
    | CannotWrite                 // the file system refused a path
    | EmptyCommitRefused          // `git commit` had nothing to commit
    | BranchGuarded               // the server wants a pull request
    | RebaseConflict              // a concurrent write to the same file
    | RetryRejected               // the branch moved again
    | Landed(commit: Commit)

  /** What other writers land on the branch at the three moments that matter. */
  datatype Rivals = Rivals(beforePush: seq<Edit>, beforeFetch: seq<Edit>, beforeRetry: seq<Edit>)

  /** What a push attempt means for a branch at `tip`: the outcome and the branch's last tip. */
  ghost function PushStory(base: Tip, mine: Commit, tip: Tip, guarded: bool, rivals: Rivals): (Outcome, Tip) {
    var t1 := Extend(tip, rivals.beforePush);
    if t1 == Some(mine) || (!guarded && AncestorOrSame(t1, Some(mine))) then (Landed(mine), Some(mine))
    else if guarded then (BranchGuarded, t1)
    else
      var t2 := Extend(t1, rivals.beforeFetch);
      match Rebase(base, mine, t2)
      case None => (RebaseConflict, t2)
      case Some(again) =>
        var t3 := Extend(t2, rivals.beforeRetry);
        if AncestorOrSame(t3, Some(again)) then (Landed(again), Some(again)) else (RetryRejected, t3)
  }

  /** The direct-mode publish, from the tip it cloned. */
  ghost function PublishStory(tip: Tip, req: Request, message: string, guarded: bool, rivals: Rivals): (Outcome, Tip) {
    var t := TreeOf(tip);
    if BaseTest(t, req) then (Unchanged, tip)
    else if !Writable(SweptFor(t, req), req.Files()) then (CannotWrite, tip)
    else if Delivered(t, req) == t then (Unchanged, tip)
    else PushStory(tip, Commit(tip, Delivered(t, req), message), tip, guarded, rivals)
  }

  /** The same publish with a head branch: one commit over the tip, forced onto the head. */
  ghost function ForcedStory(tip: Tip, req: Request, message: string, guarded: bool): Outcome {
    var t := TreeOf(tip);
    if BaseTest(t, req) then Unchanged
    else if !Writable(SweptFor(t, req), req.Files()) then CannotWrite
    else if Delivered(t, req) == t then Unchanged
    else if guarded then BranchGuarded
    else Landed(Commit(tip, Delivered(t, req), message))
  }

  class WorkTree {
    var files: Tree

    constructor (files: Tree)
      ensures this.files == files
    {
      this.files := files;
    }

    /** One tree's sweep: every file strictly below it that the publish set does not list. */
    method SweepTree(tree: Path, keep: set<string>) returns (deleted: seq<string>)
      modifies this
      ensures files == SweptTree(old(files), tree, keep)
      ensures Reported(old(files), files, deleted)
    {
      deleted := [];
      var todo := set p | p in files && StrictlyUnder(p, tree);
      while todo != {}
        invariant forall p :: p in todo ==> p in old(files) && StrictlyUnder(p, tree)
        invariant files == Remaining(old(files), tree, keep, todo)
        invariant Reported(old(files), files, deleted)
        decreases |todo|
      {
        var p :| p in todo;
        OneLess(old(files), tree, keep, todo, p);
        todo := todo - {p};
        if Spelling(p) !in keep {
          ReportOne(old(files), files, deleted, p);
          files := files - {p};
          deleted := deleted + [Spelling(p)];
        }
      }
    }

    /** `_reconcile_replace_trees`. */
    method Reconcile(trees: seq<string>, all: seq<File>) returns (deleted: seq<string>)
      modifies this
      ensures files == Swept(old(files), trees, Keep(all))
      ensures Reported(old(files), files, deleted)
    {
      deleted := [];
      var keep := Keep(all);
      for i := 0 to |trees|
        invariant files == SweptEach(old(files), trees[..i], keep)
        invariant Reported(old(files), files, deleted)
      {
        ghost var before := files;
        assert trees[..i + 1][..i] == trees[..i];
        var more := SweepTree(Parts(trees[i]), keep);
        ReportBoth(old(files), before, files, deleted, more);
        deleted := deleted + more;
      }
      assert trees[..|trees|] == trees;
      SweptEachIsSwept(old(files), trees, keep);
    }

    /** The byte-identical test over the work tree. */
    method AllCarried(all: seq<File>) returns (yes: bool)
      ensures yes <==> Carries(files, all)
    {
      for i := 0 to |all|
        invariant Carries(files, all[..i])
      {
        assert all[..i + 1] == all[..i] + [all[i]];
        var p := Place(all[i]);
        if p !in files || files[p] != all[i].data {
          assert all[i] in all;
          return false;
        }
      }
      assert all[..|all|] == all;
      return true;
    }

    /** `mkdir -p` and `write_bytes`, file by file; it stops at the first that fails. */
    method WriteAll(all: seq<File>) returns (ok: bool)
      modifies this
      ensures ok <==> Writable(old(files), all)
      ensures ok ==> files == Written(old(files), all)
    {
      for i := 0 to |all|
        invariant Writable(old(files), all) <==> Writable(files, all[i..])
        invariant Written(old(files), all) == Written(files, all[i..])
      {
        var p := Place(all[i]);
        assert all[i..][0] == all[i] && all[i..][1..] == all[i + 1..];
        if !CanWrite(files, p) {
          return false;
        }
        files := files[p := all[i].data];
      }
      return true;
    }
  }

  /** The report names every file that went, and is empty exactly when nothing changed. */
  predicate Reported(before: Tree, after: Tree, deleted: seq<string>) {
    && after.Keys <= before.Keys && (forall p :: p in after ==> after[p] == before[p])
    && (forall p :: p in before && p !in after ==> Spelling(p) in deleted)
    && (deleted == [] <==> after == before)
  }

  lemma ReportOne(before: Tree, after: Tree, deleted: seq<string>, p: Path)
    requires Reported(before, after, deleted) && p in after
    ensures Reported(before, after - {p}, deleted + [Spelling(p)])
  {
    assert p in before && p !in after - {p};
  }

  lemma ReportBoth(before: Tree, mid: Tree, after: Tree, deleted: seq<string>, more: seq<string>)
    requires Reported(before, mid, deleted) && Reported(mid, after, more)
    ensures Reported(before, after, deleted + more)
  {
    if after == before {
      assert before.Keys <= mid.Keys;
      assert mid == before;
    }
  }

  function Remaining(t: Tree, tree: Path, keep: set<string>, todo: set<Path>): Tree {
    map p | p in t && (!StrictlyUnder(p, tree) || p in todo || Spelling(p) in keep) :: t[p]
  }

  lemma OneLess(t: Tree, tree: Path, keep: set<string>, todo: set<Path>, p: Path)
    requires p in todo && p in t && StrictlyUnder(p, tree)
    ensures Remaining(t, tree, keep, todo - {p})
         == if Spelling(p) in keep then Remaining(t, tree, keep, todo) else Remaining(t, tree, keep, todo) - {p}
  {
  }

  function SweptTree(t: Tree, tree: Path, keep: set<string>): Tree {
    map p | p in t && (!StrictlyUnder(p, tree) || Spelling(p) in keep) :: t[p]
  }

  /** Sweeping tree after tree. */
  function SweptEach(t: Tree, trees: seq<string>, keep: set<string>): Tree
    decreases |trees|
  {
    if trees == [] then t
    else SweptTree(SweptEach(t, trees[..|trees| - 1], keep), Parts(trees[|trees| - 1]), keep)
  }

  lemma SweptNothing(t: Tree, keep: set<string>)
    ensures Swept(t, [], keep) == t
  {
  }

  lemma {:induction false} SweptEachIsSwept(t: Tree, trees: seq<string>, keep: set<string>)
    ensures SweptEach(t, trees, keep) == Swept(t, trees, keep)
    decreases |trees|
  {
    if trees == [] {
      SweptNothing(t, keep);
    } else {
      var front, last := trees[..|trees| - 1], trees[|trees| - 1];
      SweptEachIsSwept(t, front, keep);
      SweptOneMore(t, front, last, keep);
      assert front + [last] == trees;
    }
  }

  lemma SweptOneMore(t: Tree, trees: seq<string>, tree: string, keep: set<string>)
    ensures Swept(t, trees + [tree], keep) == SweptTree(Swept(t, trees, keep), Parts(tree), keep)
  {
    var more := trees + [tree];
    forall p: Path ensures UnderSome(p, more) <==> UnderSome(p, trees) || StrictlyUnder(p, Parts(tree)) {
      if UnderSome(p, trees) {
        var i :| 0 <= i < |trees| && StrictlyUnder(p, Parts(trees[i]));
        assert more[i] == trees[i];
      }
      assert more[|trees|] == tree;
    }
  }

  /** Naming every written and every deleted path stages the work tree exactly. */
  lemma StagedIsTheWorkTree(base: Tree, req: Request, deleted: seq<string>, specs: seq<Path>)
    requires WellFormed(base)
    requires forall p :: p in base && p !in SweptFor(base, req) ==> Spelling(p) in deleted
    requires forall f :: f in req.Files() ==> Place(f) in specs
    requires forall s :: s in deleted ==> Parts(s) in specs
    ensures Staged(base, Delivered(base, req), specs) == Delivered(base, req)
  {
    forall p: Path | Changed(base, Delivered(base, req), p) ensures Covered(p, specs) {
      if p in Places(req.Files()) {
        assert p in specs;
      } else {
        WrittenElsewhere(SweptFor(base, req), req.Files(), p);
        PartsOfSpelling(p);
        assert p in specs;
      }
    }
    StagingCoversTheWorkTree(base, Delivered(base, req), specs);
  }

  function PathsOf(req: Request): (raws: seq<string>)
    ensures forall s :: s in raws <==> (exists f :: f in req.Files() && f.rel == s) || s in req.trees
  {
    Rels(req.Files()) + req.trees
  }

  function Rels(files: seq<File>): (raws: seq<string>)
    ensures |raws| == |files| && forall i :: 0 <= i < |raws| ==> raws[i] == files[i].rel
  {
    seq(|files|, i requires 0 <= i < |files| => files[i].rel)
  }

  function Specs(raws: seq<string>): (specs: seq<Path>)
    ensures |specs| == |raws| && forall i :: 0 <= i < |raws| ==> specs[i] == Parts(raws[i])
  {
    seq(|raws|, i requires 0 <= i < |raws| => Parts(raws[i]))
  }

  /** `_clone_or_init`: the branch's tree, or an empty orphan branch. */
  method CloneOrInit(host: Host, branch: string) returns (work: WorkTree, base: Tip)
    ensures fresh(work) && base == host.TipOf(branch) && work.files == TreeOf(base)
  {
    base := host.TipOf(branch);
    work := new WorkTree(TreeOf(base));
  }

  /** `_push_with_retry`: push, and once rejected rebase onto the remote tip and push once more. */
  method PushWithRetry(host: Host, branch: string, base: Tip, mine: Commit, rivals: Rivals) returns (r: Outcome)
    modifies host`refs
    ensures (r, host.TipOf(branch)) == PushStory(base, mine, old(host.TipOf(branch)), branch in host.guarded, rivals)
    ensures host.refs - {branch} == old(host.refs) - {branch}
  {
    host.Advance(branch, rivals.beforePush);
    var reply := host.Push(branch, mine);
    if reply.Accepted? {
      return Landed(mine);
    }
    if reply.Guarded? {
      return BranchGuarded;
    }
    host.Advance(branch, rivals.beforeFetch);
    var rebased := Rebase(base, mine, host.TipOf(branch));
    if rebased.None? {
      return RebaseConflict;
    }
    host.Advance(branch, rivals.beforeRetry);
    reply := host.Push(branch, rebased.value);
    r := if reply.Accepted? then Landed(rebased.value) else RetryRejected;
  }

  /** The commit goes to its head branch by force, or to the branch itself as others allow. */
  method PushOut(host: Host, branch: string, base: Tip, mine: Commit, head: Option<string>, rivals: Rivals)
    returns (r: Outcome)
    modifies host`refs
    ensures head.None? ==>
      && (r, host.TipOf(branch)) == PushStory(base, mine, old(host.TipOf(branch)), branch in host.guarded, rivals)
      && host.refs - {branch} == old(host.refs) - {branch}
    ensures head.Some? ==>
      && r == (if head.value in host.guarded then BranchGuarded else Landed(mine))
      && host.refs == if r.Landed? then old(host.refs)[head.value := mine] else old(host.refs)
  {
    if head.Some? {
      var pushed := host.ForcePush(head.value, mine);
      r := if pushed then Landed(mine) else BranchGuarded;
    } else {
      r := PushWithRetry(host, branch, base, mine, rivals);
    }
  }

  /** The boundary check over every path a publish names. */
  method CheckRequest(prefixes: seq<string>, req: Request) returns (verdict: Verdict)
    ensures verdict.Allowed? <==> RequestWithin(req, prefixes)
  {
    verdict := AssertWithin(prefixes, PathsOf(req));
    assert req.record in req.Files();
    assert forall f :: f in req.Files() ==> f.rel in PathsOf(req);
  }

  /** Reconcile, then compare: `same` is the "already byte-identical" answer. */
  method ReconcileAndCompare(work: WorkTree, req: Request) returns (deleted: seq<string>, same: bool)
    modifies work
    ensures work.files == SweptFor(old(work.files), req)
    ensures forall p :: p in old(work.files) && p !in work.files ==> Spelling(p) in deleted
    ensures same <==> BaseTest(old(work.files), req)
  {
    deleted := work.Reconcile(req.trees, req.Files());
    var carried := work.AllCarried(req.Files());
    same := deleted == [] && carried;
  }

  /** Write every file and stage exactly the written and the deleted paths. */
  method WriteAndStage(work: WorkTree, base: Tree, req: Request, deleted: seq<string>) returns (index: Option<Tree>)
    requires WellFormed(base) && work.files == SweptFor(base, req)
    requires forall p :: p in base && p !in work.files ==> Spelling(p) in deleted
    modifies work
    ensures index.Some? <==> Writable(SweptFor(base, req), req.Files())
    ensures index.Some? ==> index.value == Delivered(base, req) == work.files
  {
    var all := req.Files();
    var ok := work.WriteAll(all);
    if !ok {
      return None;
    }
    var specs := Specs(Rels(all) + deleted);
    SpecsCover(all, deleted);
    StagedIsTheWorkTree(base, req, deleted, specs);
    index := Some(Staged(base, work.files, specs));
  }

  /** `publish`: straight to the branch, or with `head` set forced onto that head branch. */
  method Publish(host: Host, branch: string, req: Request, message: string, head: Option<string>,
                 prefixes: seq<string>, rivals: Rivals) returns (r: Outcome)
    requires WellFormed(TreeOf(host.TipOf(branch)))
    modifies host`refs
    ensures r.Refused? <==> !RequestWithin(req, prefixes)
    ensures r.Refused? ==> host.refs == old(host.refs)
    ensures !r.Refused? && head.None? ==>
      (r, host.TipOf(branch)) == PublishStory(old(host.TipOf(branch)), req, message, branch in host.guarded, rivals)
    ensures head.None? ==> host.refs - {branch} == old(host.refs) - {branch}
    ensures !r.Refused? && head.Some? ==>
      && r == ForcedStory(old(host.TipOf(branch)), req, message, head.value in host.guarded)
      && host.refs == if r.Landed? then old(host.refs)[head.value := r.commit] else old(host.refs)
  {
    var verdict := CheckRequest(prefixes, req);
    if !verdict.Allowed? {
      return Refused(verdict);
    }
    var work, base := CloneOrInit(host, branch);
    var deleted, same := ReconcileAndCompare(work, req);
    if same {
      return Unchanged;
    }
    var index := WriteAndStage(work, TreeOf(base), req, deleted);
    if index.None? {
      return CannotWrite;
    }
    if index.value == TreeOf(base) && work.files == index.value {
      return Unchanged;   // `git status` is empty
    }
    var commit := Commit(base, index.value, message);
    r := PushOut(host, branch, base, commit, head, rivals);
  }

  lemma SpecsCover(all: seq<File>, deleted: seq<string>)
    ensures forall f :: f in all ==> Place(f) in Specs(Rels(all) + deleted)
    ensures forall s :: s in deleted ==> Parts(s) in Specs(Rels(all) + deleted)
  {
    var raws := Rels(all) + deleted;
    forall f | f in all ensures Place(f) in Specs(raws) {
      var i :| 0 <= i < |all| && all[i] == f;
      assert raws[i] == f.rel;
      assert Specs(raws)[i] == Place(f);
    }
    forall s | s in deleted ensures Parts(s) in Specs(raws) {
      var i :| 0 <= i < |deleted| && deleted[i] == s;
      assert raws[|all| + i] == s;
      assert Specs(raws)[|all| + i] == Parts(s);
    }
  }

  // ----- PR mode ----------------------------------------------------------

  datatype HeadOutcome = HeadRefused(verdict: Verdict) | HeadGuarded | Decided(decision: Decision)

  /** The extras, compared by blob. */
  method ExtrasOnHead(head: Tree, extras: seq<File>) returns (all: bool)
    ensures all <==> forall f :: f in extras ==> OnHead(head, f.rel) == Some(f.data)
  {
    all := true;
    for i := 0 to |extras|
      invariant all <==> forall j :: 0 <= j < i ==> OnHead(head, extras[j].rel) == Some(extras[j].data)
    {
      all := all && OnHead(head, extras[i].rel) == Some(extras[i].data);
    }
  }

  /** The reconciled trees, compared as sets of paths. */
  method CompareTrees(head: Tree, files: seq<File>, trees: seq<string>) returns (all: bool)
    ensures all <==> forall t :: t in trees ==> Listed(head, t) == Wanted(files, t)
  {
    all := true;
    for i := 0 to |trees|
      invariant forall j :: 0 <= j < i ==> Listed(head, trees[j]) == Wanted(files, trees[j])
    {
      if Listed(head, trees[i]) != Wanted(files, trees[i]) {
        return false;
      }
    }
  }

  /** Does the head already carry the request? Record as text, extras by blob, trees by listing. */
  method HeadParity(head: Tree, req: Request) returns (yes: bool)
    ensures yes <==> HeadTest(head, req)
  {
    var shown := OnHead(head, req.record.rel);
    var extrasOnHead := ExtrasOnHead(head, req.extras);
    var treesReconciled := CompareTrees(head, req.Files(), req.trees);
    yes := shown.Some? && UniversalNewlines(shown.value) == req.record.data && extrasOnHead && treesReconciled;
  }

  /** `publish_to_head`. */
  method PublishToHead(host: Host, branch: string, head: string, req: Request, message: string,
                       prefixes: seq<string>) returns (r: HeadOutcome)
    requires WellFormed(TreeOf(host.TipOf(branch)))
    modifies host`refs
    ensures r.HeadRefused? <==> !RequestWithin(req, prefixes)
    ensures var d := Decide(old(host.TipOf(branch)), old(host.TipOf(head)), req, message);
      && (!r.HeadRefused? ==> r == if d.Push? && head in host.guarded then HeadGuarded else Decided(d))
      && host.refs == if r.Decided? && d.Push? then old(host.refs)[head := d.commit] else old(host.refs)
  {
    var verdict := CheckRequest(prefixes, req);
    if !verdict.Allowed? {
      return HeadRefused(verdict);
    }
    var work, base := CloneOrInit(host, branch);
    var deleted, same := ReconcileAndCompare(work, req);
    if same {
      return Decided(BaseCarries);
    }
    var fetched := host.TipOf(head);
    if fetched.Some? {
      var parity := HeadParity(fetched.value.tree, req);
      if parity {
        return Decided(HeadCarries(fetched.value));
      }
    }
    var index := WriteAndStage(work, TreeOf(base), req, deleted);
    if index.None? {
      return Decided(Unwritable);
    }
    if index.value == TreeOf(base) {
      return Decided(NothingToCommit);
    }
    var commit := Commit(base, index.value, message);
    var pushed := host.ForcePush(head, commit);
    r := if pushed then Decided(Push(commit)) else HeadGuarded;
  }

  // ----- Removal ----------------------------------------------------------

  ghost function RemoveStory(tip: Tip, rels: seq<string>, message: string, guarded: bool, rivals: Rivals)
    : (Outcome, Tip)
  {
    var t := TreeOf(tip);
    if Removed(t, rels) == t then (Unchanged, tip)
    else PushStory(tip, Commit(tip, Removed(t, rels), message), tip, guarded, rivals)
  }

  /** Removing the paths that are there removes all of them. */
  lemma RemovedPresent(t: Tree, rels: seq<string>, present: seq<string>)
    requires forall rel :: rel in present <==> rel in rels && Exists(t, rel)
    ensures Removed(t, present) == Removed(t, rels)
  {
    forall p | p in t ensures UnderAny(p, present) <==> UnderAny(p, rels) {
      if UnderAny(p, present) {
        var i :| 0 <= i < |present| && AtOrUnder(p, Parts(present[i]));
        assert present[i] in rels;
      }
      if UnderAny(p, rels) {
        var i :| 0 <= i < |rels| && AtOrUnder(p, Parts(rels[i]));
        assert rels[i] in present;
      }
    }
  }

  /** The listed paths that exist; none does exactly when removing them changes nothing. */
  method PresentIn(t: Tree, rels: seq<string>) returns (present: seq<string>)
    ensures Removed(t, present) == Removed(t, rels)
    ensures present == [] <==> Removed(t, rels) == t
  {
    present := [];
    for i := 0 to |rels|
      invariant forall rel :: rel in present <==> rel in rels[..i] && Exists(t, rel)
    {
      assert rels[..i + 1] == rels[..i] + [rels[i]];
      if Exists(t, rels[i]) {
        present := present + [rels[i]];
      }
    }
    assert rels[..|rels|] == rels;
    RemovedPresent(t, rels, present);
    RemovalChanges(t, rels);
    assert present != [] ==> present[0] in present;
  }

  /** `remove_path`: direct, or forced onto a head branch. */
  method RemovePath(host: Host, branch: string, rels: seq<string>, message: string, head: Option<string>,
                    prefixes: seq<string>, rivals: Rivals) returns (r: Outcome)
    requires rels != []
    modifies host`refs
    ensures r.Refused? <==> Cleaned(prefixes) == [] || exists rel :: rel in rels && !Within(rel, prefixes)
    ensures r.Refused? ==> host.refs == old(host.refs)
    ensures !r.Refused? && head.None? ==>
      (r, host.TipOf(branch)) == RemoveStory(old(host.TipOf(branch)), rels, message, branch in host.guarded, rivals)
    ensures head.None? ==> host.refs - {branch} == old(host.refs) - {branch}
    ensures !r.Refused? && head.Some? ==>
      var base := old(host.TipOf(branch));
      var after := Removed(TreeOf(base), rels);
      && r == (if after == TreeOf(base) then Unchanged
               else if head.value in host.guarded then BranchGuarded
               else Landed(Commit(base, after, message)))
      && host.refs == if r.Landed? then old(host.refs)[head.value := r.commit] else old(host.refs)
  {
    var verdict := AssertWithin(prefixes, rels);
    if !verdict.Allowed? {
      return Refused(verdict);
    }
    var work, base := CloneOrInit(host, branch);
    var present := PresentIn(work.files, rels);
    if present == [] {
      return Unchanged;
    }
    var commit := Commit(base, Removed(work.files, present), message);
    r := PushOut(host, branch, base, commit, head, rivals);
  }
}
