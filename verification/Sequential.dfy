/** The publisher's own control flow is one writer of the concurrent protocol: the
    outcome a publish or a removal reports is the phase that writer ends in. */
module Sequential {
  import opened Wrappers
  import opened GitPaths
  import opened GitModel
  import opened PublishSpec
  import opened HeadSpec
  import opened GitHost
  import opened Publisher
  import opened DirectRuns

  /** One writer moving on, with rivals landing edits before each of its moves, until it settles. */
  function Continue(w: Writer, tip: Tip, moves: seq<seq<Edit>>): (Writer, Tip)
    decreases |moves|
  {
    if moves == [] || Settled(w.phase) then (w, tip)
    else
      var (w', tip') := Act(w, Extend(tip, moves[0]));
      Continue(w', tip', moves[1..])
  }

  function Moves(rivals: Rivals): seq<seq<Edit>> { [rivals.beforePush, rivals.beforeFetch, rivals.beforeRetry] }

  /** A whole publish or removal: clone and commit, then push, fetch and rebase, retry. */
  function Play(job: Job, message: string, tip: Tip, rivals: Rivals): (Writer, Tip) {
    Continue(Act(Writer(job, message, Start, 0), tip).0, tip, Moves(rivals))
  }

  /** The outcome reported for a writer's last phase. */
  predicate Reports(o: Outcome, p: Phase) {
    match p
    case Nothing => o == Unchanged
    case Done(_, _, _, landed) => o == Landed(landed)
    case Failed => o == CannotWrite || o == RebaseConflict || o == RetryRejected
    case _ => false
  }

  /** `_push_with_retry` is the writer's last three moves. */
  lemma PushIsTheRest(w: Writer, tip: Tip, rivals: Rivals)
    requires w.phase.Cut?
    ensures var (o, last) := PushStory(w.phase.base, w.phase.mine, tip, false, rivals);
      var (w', end) := Continue(w, tip, Moves(rivals));
      Reports(o, w'.phase) && last == end
  {
    var m := Moves(rivals);
    assert m[1..] == [rivals.beforeFetch, rivals.beforeRetry];
    assert m[1..][1..] == [rivals.beforeRetry] && m[1..][1..][1..] == [];
    var (w1, s1) := Act(w, Extend(tip, rivals.beforePush));
    assert Continue(w, tip, m) == Continue(w1, s1, m[1..]);
    if w1.phase.Bounced? {
      var (w2, s2) := Act(w1, Extend(s1, rivals.beforeFetch));
      assert Continue(w1, s1, m[1..]) == Continue(w2, s2, m[1..][1..]);
      if w2.phase.Replayed? {
        var (w3, s3) := Act(w2, Extend(s2, rivals.beforeRetry));
        assert Continue(w2, s2, m[1..][1..]) == Continue(w3, s3, []);
      }
    }
  }

  /** On an unguarded branch a direct publish is exactly that writer ... */
  lemma PublishIsOneWriter(tip: Tip, req: Request, message: string, rivals: Rivals)
    ensures var (o, last) := PublishStory(tip, req, message, false, rivals);
      var (w, end) := Play(Write(req), message, tip, rivals);
      Reports(o, w.phase) && last == end
  {
    var w := Act(Writer(Write(req), message, Start, 0), tip).0;
    if w.phase.Cut? {
      PushIsTheRest(w, tip, rivals);
    }
  }

  /** ... and so is a direct removal. */
  lemma RemoveIsOneWriter(tip: Tip, rels: seq<string>, message: string, rivals: Rivals)
    ensures var (o, last) := RemoveStory(tip, rels, message, false, rivals);
      var (w, end) := Play(Remove(rels), message, tip, rivals);
      Reports(o, w.phase) && last == end
  {
    var w := Act(Writer(Remove(rels), message, Start, 0), tip).0;
    if w.phase.Cut? {
      PushIsTheRest(w, tip, rivals);
    }
  }

  predicate WellFormedEdits(moves: seq<seq<Edit>>) {
    forall i, j :: 0 <= i < |moves| && 0 <= j < |moves[i]| ==> WellFormed(moves[i][j].tree)
  }

  lemma {:induction false} ExtendIsWellFormed(tip: Tip, edits: seq<Edit>)
    requires WellFormed(TreeOf(tip)) && forall e :: e in edits ==> WellFormed(e.tree)
    ensures WellFormed(TreeOf(Extend(tip, edits)))
    decreases |edits|
  {
    if edits != [] {
      ExtendIsWellFormed(Some(Commit(tip, edits[0].tree, edits[0].message)), edits[1..]);
    }
  }

  lemma {:induction false} ContinueIsGood(w: Writer, tip: Tip, moves: seq<seq<Edit>>)
    requires Good(w, tip) && WellFormed(TreeOf(tip)) && WellFormedEdits(moves)
    ensures var (w', end) := Continue(w, tip, moves);
      Good(w', end) && AncestorOrSame(tip, end)
    decreases |moves|
  {
    if moves != [] && !Settled(w.phase) {
      var mid := Extend(tip, moves[0]);
      assert forall e :: e in moves[0] ==> WellFormed(e.tree);
      ExtendIsWellFormed(tip, moves[0]);
      GoodSurvives(w, tip, mid);
      ActIsGood(w, mid);
      var (w', tip') := Act(w, mid);
      ContinueIsGood(w', tip', moves[1..]);
      AncestorTransitive(tip, mid, tip');
      AncestorTransitive(tip, tip', Continue(w', tip', moves[1..]).1);
    }
  }

  predicate CutAs(p: Phase, base: Tip, mine: Commit) {
    match p
    case Cut(b, m) => b == base && m == mine
    case Bounced(b, m) => b == base && m == mine
    case Replayed(b, m, _, _) => b == base && m == mine
    case Done(b, m, _, _) => b == base && m == mine
    case _ => p.Failed?
  }

  lemma {:induction false} ContinueKeepsTheCut(w: Writer, tip: Tip, moves: seq<seq<Edit>>, base: Tip, mine: Commit)
    requires CutAs(w.phase, base, mine)
    ensures CutAs(Continue(w, tip, moves).0.phase, base, mine)
    decreases |moves|
  {
    if moves != [] && !Settled(w.phase) {
      var (w', tip') := Act(w, Extend(tip, moves[0]));
      ContinueKeepsTheCut(w', tip', moves[1..], base, mine);
    }
  }

  ghost predicate CarriedWithin(base: Tip, mine: Commit, onto: Tip, landed: Commit, prefixes: seq<string>) {
    Carried(base, mine, onto, landed) && SameOutside(TreeOf(onto), landed.tree, prefixes)
  }

  /** Where a job played against rivals ends: the branch only moved forward, and a landed
      commit is the job's own change over the tip it was based or rebased on. */
  lemma PlayIsSafe(job: Job, message: string, tip: Tip, rivals: Rivals)
    requires WellFormed(TreeOf(tip)) && Rooted(job) && WellFormedEdits(Moves(rivals))
    ensures var (w, end) := Play(job, message, tip, rivals);
      && w.job == job && w.pushes <= 2
      && AncestorOrSame(tip, end)
      && (w.phase.Done? ==> w.phase.base == tip && Own(job, tip, w.phase.mine) && w.phase.mine.message == message
                            && Carried(tip, w.phase.mine, w.phase.onto, w.phase.landed))
  {
    var w1 := Act(Writer(job, message, Start, 0), tip).0;
    FirstMove(job, message, tip);
    ContinueIsGood(w1, tip, Moves(rivals));
    ContinueKeepsTheJob(w1, tip, Moves(rivals));
    if w1.phase.Cut? {
      ContinueKeepsTheCut(w1, tip, Moves(rivals), tip, w1.phase.mine);
    }
  }

  lemma FirstMove(job: Job, message: string, tip: Tip)
    requires WellFormed(TreeOf(tip)) && Rooted(job)
    ensures var w := Act(Writer(job, message, Start, 0), tip).0;
      && Good(w, tip) && w.job == job
      && (|| w.phase.Nothing? || w.phase.Failed?
          || (w.phase.Cut? && w.phase.base == tip && w.phase.mine.message == message))
  {
    ActIsGood(Writer(job, message, Start, 0), tip);
  }

  lemma {:induction false} ContinueKeepsTheJob(w: Writer, tip: Tip, moves: seq<seq<Edit>>)
    ensures Continue(w, tip, moves).0.job == w.job
    decreases |moves|
  {
    if moves != [] && !Settled(w.phase) {
      var (w', tip') := Act(w, Extend(tip, moves[0]));
      ContinueKeepsTheJob(w', tip', moves[1..]);
    }
  }

  /** What a caller may rely on: the branch only moved forward; a landed commit is the
      tip and is the request's own change over the tip it was based or rebased on, with
      everything outside the allowed trees as found there. */
  lemma PublishIsSafe(tip: Tip, req: Request, message: string, rivals: Rivals, prefixes: seq<string>)
    requires WellFormed(TreeOf(tip)) && RequestWithin(req, prefixes) && WellFormedEdits(Moves(rivals))
    ensures var (o, last) := PublishStory(tip, req, message, false, rivals);
      && AncestorOrSame(tip, last)
      && (o.Landed? ==> last == Some(o.commit) && exists mine: Commit, onto: Tip ::
            Own(Write(req), tip, mine) && CarriedWithin(tip, mine, onto, o.commit, prefixes))
  {
    forall f | f in req.Files() ensures Place(f) != [] { assert Within(f.rel, prefixes); }
    PlayIsSafe(Write(req), message, tip, rivals);
    PublishIsOneWriter(tip, req, message, rivals);
    PublishLandsOnItsTip(tip, req, message, rivals);
    var d := Play(Write(req), message, tip, rivals).0.phase;
    if d.Done? {
      OwnFrame(Write(req), d.base, d.mine, prefixes);
      LandingFrame(d.base, d.mine, d.onto, d.landed, prefixes);
      assert CarriedWithin(tip, d.mine, d.onto, d.landed, prefixes);
    }
  }

  lemma PushLandsOnItsTip(base: Tip, mine: Commit, tip: Tip, guarded: bool, rivals: Rivals)
    ensures var (o, last) := PushStory(base, mine, tip, guarded, rivals); o.Landed? ==> last == Some(o.commit)
  {
  }

  lemma PublishLandsOnItsTip(tip: Tip, req: Request, message: string, rivals: Rivals)
    ensures var (o, last) := PublishStory(tip, req, message, false, rivals);
      o.Landed? ==> last == Some(o.commit)
  {
    PushLandsOnItsTip(tip, Commit(tip, Delivered(TreeOf(tip), req), message), tip, false, rivals);
  }

  /** Left alone, a publish of a normal request either finds nothing to do or cannot be
      written, or lands the desired tree - and the next one finds nothing to do. */
  lemma QuietPublishSettles(tip: Tip, req: Request, message: string, again: string)
    requires WellFormed(TreeOf(tip)) && NormalRequest(req) && Consistent(req.Files())
    ensures var (o, last) := PublishStory(tip, req, message, false, Rivals([], [], []));
      && (o.Unchanged? || o.CannotWrite? || o.Landed?)
      && (o.Unchanged? <==> Desired(TreeOf(tip), req))
      && (o.Landed? ==> Desired(TreeOf(last), req)
                        && PublishStory(last, req, again, false, Rivals([], [], [])) == (Unchanged, last))
  {
    var t := TreeOf(tip);
    NormalIsWellSpelled(req);
    BaseTestDecidesDesired(t, req);
    EmptyCommitOn(t, req);
    var (o, last) := PublishStory(tip, req, message, false, Rivals([], [], []));
    if !BaseTest(t, req) && Writable(SweptFor(t, req), req.Files()) {
      DeliveredIsDesired(t, req);
      BaseTestDecidesDesired(Delivered(t, req), req);
    }
  }

  /** Left alone, a removal finds nothing of its paths or lands a tree without them and otherwise
      as it was - and the next one finds nothing. */
  lemma QuietRemovalSettles(tip: Tip, rels: seq<string>, message: string, again: string)
    requires WellFormed(TreeOf(tip))
    ensures var (o, last) := RemoveStory(tip, rels, message, false, Rivals([], [], []));
      && (o.Unchanged? || o.Landed?)
      && (o.Unchanged? <==> forall rel :: rel in rels ==> !Exists(TreeOf(tip), rel))
      && (forall rel :: rel in rels ==> !Exists(TreeOf(last), rel))
      && (forall p: Path :: Lookup(TreeOf(last), p) == if UnderAny(p, rels) then None else Lookup(TreeOf(tip), p))
      && RemoveStory(last, rels, again, false, Rivals([], [], [])) == (Unchanged, last)
  {
    var t := TreeOf(tip);
    RemovalChanges(t, rels);
    RemovalChanges(Removed(t, rels), rels);
  }

  // ----- Beside others ----------------------------------------------------

  lemma {:induction false} ExtendIsHigher(tip: Tip, edits: seq<Edit>)
    ensures Height(Extend(tip, edits)) == Height(tip) + |edits|
    decreases |edits|
  {
    if edits != [] {
      ExtendIsHigher(Some(Commit(tip, edits[0].tree, edits[0].message)), edits[1..]);
    }
  }

  /** With others in between, a commit still fast-forwards only if the branch is at its parent
      or at that very commit. */
  lemma OvertakenIff(mine: Commit, edits: seq<Edit>)
    ensures AncestorOrSame(Extend(mine.parent, edits), Some(mine)) <==>
            edits == [] || Extend(mine.parent, edits) == Some(mine)
  {
    var tip := Extend(mine.parent, edits);
    ExtendIsHigher(mine.parent, edits);
    if AncestorOrSame(tip, Some(mine)) && tip != Some(mine) {
      AncestorsAreLower(tip, mine.parent);
    }
  }

  /** A replayed commit is accepted only if nobody came in between - or left the very same commit. */
  lemma OvertakenAgainIff(again: Commit, onto: Tip, edits: seq<Edit>)
    requires again.parent == onto || Some(again) == onto
    ensures AncestorOrSame(Extend(onto, edits), Some(again)) <==> edits == [] || Extend(onto, edits) == Some(again)
  {
    if Some(again) == onto {
      ExtendIsHigher(onto, edits);
      if AncestorOrSame(Extend(onto, edits), Some(again)) {
        AncestorsAreLower(Extend(onto, edits), Some(again));
      }
      assert Extend(onto, []) == onto;
    } else {
      OvertakenIff(again, edits);
    }
  }

  /** How a push against others ends. It goes straight through when nobody came first; it is a
      conflict exactly when its change and theirs cannot be merged; it lands after the rebase
      exactly when they can and nobody comes between that and the second push, and then every
      path is as its writer left it where the writer changed it and as they left it everywhere
      else. */
  lemma PushBesideOthersIff(mine: Commit, rivals: Rivals)
    requires WellFormed(TreeOf(mine.parent)) && WellFormed(mine.tree) && WellFormedEdits(Moves(rivals))
    ensures var tip := mine.parent;
      var (o, last) := PushStory(tip, mine, tip, false, rivals);
      var first := Extend(tip, rivals.beforePush);
      var onto := Extend(first, rivals.beforeFetch);
      var third := Extend(onto, rivals.beforeRetry);
      if rivals.beforePush == [] || first == Some(mine) then o == Landed(mine) && last == Some(mine)
      else if !Mergeable(TreeOf(tip), mine.tree, TreeOf(onto)) then o == RebaseConflict && last == onto
      else if o.Landed? then
        && (rivals.beforeRetry == [] || third == Some(o.commit)) && last == Some(o.commit)
        && forall p: Path :: Lookup(o.commit.tree, p) == Ends(TreeOf(tip), mine.tree, TreeOf(onto), p)
      else o == RetryRejected && rivals.beforeRetry != [] && last == third
  {
    var tip := mine.parent;
    var first := Extend(tip, rivals.beforePush);
    var onto := Extend(first, rivals.beforeFetch);
    OvertakenIff(mine, rivals.beforePush);
    assert Moves(rivals)[0] == rivals.beforePush && Moves(rivals)[1] == rivals.beforeFetch;
    assert forall e :: e in rivals.beforePush ==> WellFormed(e.tree);
    assert forall e :: e in rivals.beforeFetch ==> WellFormed(e.tree);
    ExtendIsWellFormed(tip, rivals.beforePush);
    ExtendIsWellFormed(first, rivals.beforeFetch);
    MergesIff(TreeOf(tip), mine.tree, TreeOf(onto));
    var again := Rebase(tip, mine, onto);
    if again.Some? {
      OvertakenAgainIff(again.value, onto, rivals.beforeRetry);
    }
  }

  /** A branch that only pull requests may change keeps whatever others bring. */
  lemma GuardedIsLeftAlone(mine: Commit, tip: Tip, rivals: Rivals)
    requires Extend(tip, rivals.beforePush) != Some(mine)
    ensures PushStory(mine.parent, mine, tip, true, rivals) == (BranchGuarded, Extend(tip, rivals.beforePush))
  {
  }

  /** The same of a whole direct publish that has something to commit. */
  lemma PublishBesideOthersIff(tip: Tip, req: Request, message: string, rivals: Rivals)
    requires WellFormed(TreeOf(tip)) && WellFormedEdits(Moves(rivals)) && rivals.beforeRetry == []
    requires Rooted(Write(req)) && Compute(Write(req), TreeOf(tip)).NewTree?
    ensures var t, ours := TreeOf(tip), Delivered(TreeOf(tip), req);
      var (o, last) := PublishStory(tip, req, message, false, rivals);
      var first := Extend(tip, rivals.beforePush);
      var onto := Extend(first, rivals.beforeFetch);
      if rivals.beforePush == [] || first == Some(Commit(tip, ours, message)) then
        o == Landed(Commit(tip, ours, message)) && last == Some(o.commit)
      else if Mergeable(t, ours, TreeOf(onto)) then
        && o.Landed? && last == Some(o.commit)
        && forall p: Path :: Lookup(o.commit.tree, p) == Ends(t, ours, TreeOf(onto), p)
      else o == RebaseConflict && last == onto
  {
    ComputedIsWellFormed(Write(req), TreeOf(tip));
    PushBesideOthersIff(Commit(tip, Delivered(TreeOf(tip), req), message), rivals);
  }

  /** The others left alone whatever this request writes or reconciles, and wrote nothing that
      stands in the way of its files. */
  ghost predicate OtherBusiness(t: Tree, theirs: Tree, req: Request) {
    && (forall p: Path | p in Places(req.Files()) || UnderSome(p, req.trees) :: Lookup(theirs, p) == Lookup(t, p))
    && (forall f, q :: f in req.Files() && q in theirs && Changed(t, theirs, q) ==>
          !(Place(f) < q) && !(q < Place(f)))
  }

  lemma OtherBusinessIsApart(t: Tree, theirs: Tree, req: Request)
    requires OtherBusiness(t, theirs, req)
    ensures Apart(t, Delivered(t, req), theirs)
  {
    var ours, files := Delivered(t, req), req.Files();
    forall p: Path | Changed(t, ours, p) ensures p in Places(files) || UnderSome(p, req.trees) {
      if p !in Places(files) {
        WrittenElsewhere(SweptFor(t, req), files, p);
      }
    }
    forall p | p in ours && Changed(t, ours, p) ensures p in Places(files) {
      if p !in Places(files) {
        WrittenElsewhere(SweptFor(t, req), files, p);
      }
    }
    forall p, q | p in ours && q in theirs && Changed(t, ours, p) && Changed(t, theirs, q)
      ensures !(p < q) && !(q < p)
    {
      assert p in Places(files);
      var f :| f in files && Place(f) == p;
    }
  }

  /** Two agents published at once: whoever comes second still lands, its own files are as it
      wants them, and everything else is as the first left it. */
  lemma OthersPublishToo(tip: Tip, req: Request, message: string, edits: seq<Edit>)
    requires WellFormed(TreeOf(tip)) && forall e :: e in edits ==> WellFormed(e.tree)
    requires NormalRequest(req) && Consistent(req.Files()) && Compute(Write(req), TreeOf(tip)).NewTree?
    requires OtherBusiness(TreeOf(tip), TreeOf(Extend(tip, edits)), req)
    ensures var (o, last) := PublishStory(tip, req, message, false, Rivals(edits, [], []));
      && o.Landed? && last == Some(o.commit) && Desired(o.commit.tree, req)
      && forall p: Path :: p !in Places(req.Files()) && !UnderSome(p, req.trees) ==>
           Lookup(o.commit.tree, p) == Lookup(TreeOf(Extend(tip, edits)), p)
  {
    var t, ours, onto := TreeOf(tip), Delivered(TreeOf(tip), req), Extend(tip, edits);
    var rivals := Rivals(edits, [], []);
    assert Extend(onto, []) == onto;
    NormalIsWellSpelled(req);
    ExtendIsWellFormed(tip, edits);
    assert WellFormedEdits(Moves(rivals));
    OtherBusinessIsApart(t, TreeOf(onto), req);
    ComputedIsWellFormed(Write(req), t);
    ApartMerges(t, ours, TreeOf(onto));
    PublishBesideOthersIff(tip, req, message, rivals);
    DeliveredIsDesired(t, req);
    NotTheSameCommit(tip, req, message, edits);
    EndsAsDesired(t, TreeOf(onto), req, PublishStory(tip, req, message, false, rivals).0.commit.tree);
  }

  lemma NotTheSameCommit(tip: Tip, req: Request, message: string, edits: seq<Edit>)
    requires Delivered(TreeOf(tip), req) != TreeOf(tip)
    requires OtherBusiness(TreeOf(tip), TreeOf(Extend(tip, edits)), req)
    ensures Extend(tip, edits) != Some(Commit(tip, Delivered(TreeOf(tip), req), message))
  {
    var t, ours := TreeOf(tip), Delivered(TreeOf(tip), req);
    if forall p: Path :: Lookup(ours, p) == Lookup(t, p) {
      SameLookups(ours, t);
    }
    var p: Path :| Lookup(ours, p) != Lookup(t, p);
    if p !in Places(req.Files()) {
      WrittenElsewhere(SweptFor(t, req), req.Files(), p);
    }
  }

  lemma EndsAsDesired(t: Tree, onto: Tree, req: Request, landed: Tree)
    requires OtherBusiness(t, onto, req) && Desired(Delivered(t, req), req)
    requires forall p: Path :: Lookup(landed, p) == Ends(t, Delivered(t, req), onto, p)
    ensures Desired(landed, req)
    ensures forall p: Path :: p !in Places(req.Files()) && !UnderSome(p, req.trees) ==>
              Lookup(landed, p) == Lookup(onto, p)
  {
    var ours, files := Delivered(t, req), req.Files();
    forall p: Path ensures Lookup(landed, p) ==
        if p in Places(files) || UnderSome(p, req.trees) then Lookup(ours, p) else Lookup(onto, p)
    {
      if p !in Places(files) {
        WrittenElsewhere(SweptFor(t, req), files, p);
      }
    }
    forall f | f in files ensures Lookup(landed, Place(f)) == Some(f.data) {
      assert Place(f) in Places(files) && Lookup(ours, Place(f)) == Some(f.data);
    }
    forall p | p in landed && UnderSome(p, req.trees) ensures p in Places(files) {
      assert Lookup(landed, p) == Lookup(ours, p);
    }
  }

  /** With nobody in between, a job that has something to commit needs one push. */
  lemma OnePushWhenAlone(job: Job, message: string, tip: Tip)
    requires Compute(job, TreeOf(tip)).NewTree?
    ensures var w := Play(job, message, tip, Rivals([], [], [])).0;
      w.phase.Done? && w.pushes == 1 && w.phase.landed == Commit(tip, Compute(job, TreeOf(tip)).tree, message)
  {
    var w := Act(Writer(job, message, Start, 0), tip).0;
    var m := Moves(Rivals([], [], []));
    assert Extend(tip, m[0]) == tip;
    var (w1, tip1) := Act(w, tip);
    assert Continue(w, tip, m) == Continue(w1, tip1, m[1..]);
  }

  /** A publish forced onto a head branch comes to what a direct one with nobody in between does,
      unless the head is protected. */
  lemma ForcedIsDirect(tip: Tip, req: Request, message: string, guarded: bool)
    ensures var direct := PublishStory(tip, req, message, false, Rivals([], [], [])).0;
      ForcedStory(tip, req, message, guarded) == if direct.Landed? && guarded then BranchGuarded else direct
  {
    assert Extend(tip, []) == tip;
  }
}
