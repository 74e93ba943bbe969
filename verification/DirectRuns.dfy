/** Direct mode under concurrency: any number of writers on one branch, every
    interleaving of their clones, pushes, fetches and retries, and outsiders who
    fast-forward the branch (plugin/gitops_emitter/gitrepo.py:260-294, 529-682). */
module DirectRuns {
  import opened Wrappers
  import opened Text
  import opened GitPaths
  import opened GitModel
  import opened PublishSpec
  import opened HeadSpec

  datatype Job = Write(req: Request) | Remove(rels: seq<string>)

  /** What one writer computes on its own clone. */
  datatype Local = Same | Blocked | NewTree(tree: Tree)

  function Compute(job: Job, t: Tree): Local {
    match job
    case Write(req) =>
      if BaseTest(t, req) then Same
      else if !Writable(SweptFor(t, req), req.Files()) then Blocked
      else if Delivered(t, req) == t then Same
      else NewTree(Delivered(t, req))
    case Remove(rels) =>
      if Removed(t, rels) == t then Same else NewTree(Removed(t, rels))
  }

  datatype Phase =
    | Start
    | Cut(base: Tip, mine: Commit)                                // cloned and committed
    | Bounced(base: Tip, mine: Commit)                            // the first push was rejected
    | Replayed(base: Tip, mine: Commit, onto: Tip, again: Commit) // fetched and rebased
    | Done(base: Tip, mine: Commit, onto: Tip, landed: Commit)    // on the branch, over `onto`
    | Nothing
    | Failed

  datatype Writer = Writer(job: Job, message: string, phase: Phase, pushes: nat)

  datatype World = World(tip: Tip, writers: seq<Writer>)

  /** One writer's next move against the branch as it is now, and what the branch becomes. */
  function Act(w: Writer, tip: Tip): (Writer, Tip) {
    match w.phase
    case Start =>
      (match Compute(w.job, TreeOf(tip))
       case Same => (w.(phase := Nothing), tip)
       case Blocked => (w.(phase := Failed), tip)
       case NewTree(t) => (w.(phase := Cut(tip, Commit(tip, t, w.message))), tip))
    case Cut(base, mine) =>
      if AncestorOrSame(tip, Some(mine))
      then (w.(phase := Done(base, mine, base, mine), pushes := w.pushes + 1), Some(mine))
      else (w.(phase := Bounced(base, mine), pushes := w.pushes + 1), tip)
    case Bounced(base, mine) =>
      (match Rebase(base, mine, tip)
       case None => (w.(phase := Failed), tip)
       case Some(again) => (w.(phase := Replayed(base, mine, tip, again)), tip))
    case Replayed(base, mine, onto, again) =>
      if AncestorOrSame(tip, Some(again))
      then (w.(phase := Done(base, mine, onto, again), pushes := w.pushes + 1), Some(again))
      else (w.(phase := Failed, pushes := w.pushes + 1), tip)
    case _ => (w, tip)
  }

  predicate StepBy(s: World, s': World, k: nat) {
    k < |s.writers| && s' == World(Act(s.writers[k], s.tip).1, s.writers[k := Act(s.writers[k], s.tip).0])
  }

  /** Someone else fast-forwards the branch: a merge, another tool. */
  predicate Outsider(s: World, s': World) {
    s'.writers == s.writers && AncestorOrSame(s.tip, s'.tip) && WellFormed(TreeOf(s'.tip))
  }

  predicate Step(s: World, s': World) {
    Outsider(s, s') || exists k :: 0 <= k < |s.writers| && StepBy(s, s', k)
  }

  /** No file of the job sits at the root itself; every accepted job is like that. */
  predicate Rooted(job: Job) {
    job.Write? ==> forall f :: f in job.req.Files() ==> Place(f) != []
  }

  predicate Init(s: World) {
    && WellFormed(TreeOf(s.tip))
    && forall w :: w in s.writers ==> w.phase.Start? && w.pushes == 0 && Rooted(w.job)
  }

  predicate Run(trace: seq<World>) {
    && trace != []
    && Init(trace[0])
    && forall i :: 0 <= i < |trace| - 1 ==> Step(trace[i], trace[i + 1])
  }

  /** Nothing is left out: whichever writer moves next, or whatever an outsider brings, the run
      goes on. */
  lemma EveryMoveGoesOn(trace: seq<World>, k: nat, tip: Tip)
    requires Run(trace) && k < |trace[|trace| - 1].writers|
    requires AncestorOrSame(trace[|trace| - 1].tip, tip) && WellFormed(TreeOf(tip))
    ensures var s := trace[|trace| - 1];
      && Run(trace + [World(tip, s.writers)])
      && Run(trace + [World(Act(s.writers[k], s.tip).1, s.writers[k := Act(s.writers[k], s.tip).0])])
  {
    var s := trace[|trace| - 1];
    var moved := World(Act(s.writers[k], s.tip).1, s.writers[k := Act(s.writers[k], s.tip).0]);
    assert StepBy(s, moved, k) && Outsider(s, World(tip, s.writers));
    RunGoesOn(trace, moved);
    RunGoesOn(trace, World(tip, s.writers));
  }

  lemma RunGoesOn(trace: seq<World>, next: World)
    requires Run(trace) && Step(trace[|trace| - 1], next)
    ensures Run(trace + [next])
  {
    var more := trace + [next];
    forall i | 0 <= i < |more| - 1 ensures Step(more[i], more[i + 1]) {
      assert i < |trace| - 1 ==> Step(trace[i], trace[i + 1]);
    }
  }

  // ----- The invariant ----------------------------------------------------

  /** A commit that is one job's change over the base it was cut from. */
  predicate Own(job: Job, base: Tip, mine: Commit) {
    && mine.parent == base
    && WellFormed(TreeOf(base)) && WellFormed(mine.tree)
    && Compute(job, TreeOf(base)) == NewTree(mine.tree)
  }

  /** `landed` is `onto` with the change from `base` to `mine` replayed: the next commit
      over `onto`, or `onto` itself when nothing was left to change. */
  predicate Carried(base: Tip, mine: Commit, onto: Tip, landed: Commit) {
    && AncestorOrSame(base, onto)
    && (landed.parent == onto || Some(landed) == onto)
    && MergeTrees(TreeOf(base), mine.tree, TreeOf(onto)) == Some(landed.tree)
  }

  predicate Good(w: Writer, tip: Tip) {
    && Rooted(w.job)
    && match w.phase
       case Start => w.pushes == 0
       case Cut(base, mine) => w.pushes == 0 && Own(w.job, base, mine) && AncestorOrSame(base, tip)
       case Bounced(base, mine) => w.pushes == 1 && Own(w.job, base, mine) && AncestorOrSame(base, tip)
       case Replayed(base, mine, onto, again) =>
         w.pushes == 1 && Own(w.job, base, mine) && Carried(base, mine, onto, again)
         && AncestorOrSame(onto, tip) && WellFormed(TreeOf(onto))
       case Done(base, mine, onto, landed) =>
         1 <= w.pushes <= 2 && Own(w.job, base, mine) && Carried(base, mine, onto, landed)
         && AncestorOrSame(Some(landed), tip) && WellFormed(TreeOf(onto))
       case Nothing => w.pushes == 0
       case Failed => w.pushes <= 2
  }

  predicate Inv(s: World) {
    WellFormed(TreeOf(s.tip)) && forall w :: w in s.writers ==> Good(w, s.tip)
  }

  /** Every fact about a writer survives the branch moving forward. */
  lemma GoodSurvives(w: Writer, tip: Tip, later: Tip)
    requires Good(w, tip) && AncestorOrSame(tip, later)
    ensures Good(w, later)
  {
    match w.phase
    case Cut(base, mine) => AncestorTransitive(base, tip, later);
    case Bounced(base, mine) => AncestorTransitive(base, tip, later);
    case Replayed(base, mine, onto, again) => AncestorTransitive(onto, tip, later);
    case Done(base, mine, onto, landed) => AncestorTransitive(Some(landed), tip, later);
    case _ =>
  }

  lemma ComputedIsWellFormed(job: Job, t: Tree)
    requires WellFormed(t) && Rooted(job) && Compute(job, t).NewTree?
    ensures WellFormed(Compute(job, t).tree)
  {
    if job.Write? {
      WritingKeepsWellFormed(SweptFor(t, job.req), job.req.Files());
    }
  }

  /** A move keeps the mover's facts and only ever fast-forwards the branch. */
  lemma ActIsGood(w: Writer, tip: Tip)
    requires Good(w, tip) && WellFormed(TreeOf(tip))
    ensures var (w', tip') := Act(w, tip);
      Good(w', tip') && AncestorOrSame(tip, tip') && WellFormed(TreeOf(tip'))
  {
    match w.phase
    case Start =>
      if Compute(w.job, TreeOf(tip)).NewTree? {
        ComputedIsWellFormed(w.job, TreeOf(tip));
      }
    case Cut(base, mine) =>
      MergeOntoBase(TreeOf(base), mine.tree);
    case Bounced(base, mine) =>
      RebasedIsCarried(base, mine, tip);
    case _ =>
  }

  /** A clean rebase onto a later tip carries the commit there. */
  lemma RebasedIsCarried(base: Tip, mine: Commit, onto: Tip)
    requires AncestorOrSame(base, onto)
    ensures var again := Rebase(base, mine, onto); again.Some? ==> Carried(base, mine, onto, again.value)
  {
  }

  lemma StepKeepsInv(s: World, s': World)
    requires Inv(s) && Step(s, s')
    ensures Inv(s') && AncestorOrSame(s.tip, s'.tip)
  {
    if Outsider(s, s') {
      forall w | w in s'.writers ensures Good(w, s'.tip) { GoodSurvives(w, s.tip, s'.tip); }
    } else {
      var k :| 0 <= k < |s.writers| && StepBy(s, s', k);
      ActIsGood(s.writers[k], s.tip);
      forall w | w in s'.writers ensures Good(w, s'.tip) {
        var i :| 0 <= i < |s'.writers| && s'.writers[i] == w;
        if i != k {
          assert s.writers[i] == w;
          GoodSurvives(w, s.tip, s'.tip);
        }
      }
    }
  }

  lemma {:induction false} InvAlong(trace: seq<World>, i: nat)
    requires Run(trace) && i < |trace|
    ensures Inv(trace[i])
  {
    if i > 0 {
      InvAlong(trace, i - 1);
      assert Step(trace[i - 1], trace[i - 1 + 1]);
      StepKeepsInv(trace[i - 1], trace[i]);
    }
  }

  // ----- Over whole runs --------------------------------------------------

  /** The branch only fast-forwards: every earlier tip stays an ancestor. */
  lemma {:induction false} OnlyFastForwards(trace: seq<World>, i: nat, j: nat)
    requires Run(trace) && i <= j < |trace|
    ensures AncestorOrSame(trace[i].tip, trace[j].tip)
    decreases j - i
  {
    if i < j {
      OnlyFastForwards(trace, i, j - 1);
      InvAlong(trace, j - 1);
      assert Step(trace[j - 1], trace[j - 1 + 1]);
      StepKeepsInv(trace[j - 1], trace[j]);
      AncestorTransitive(trace[i].tip, trace[j - 1].tip, trace[j].tip);
    }
  }

  predicate Settled(p: Phase) { p.Done? || p.Nothing? || p.Failed? }

  lemma {:induction false} SettledStays(trace: seq<World>, i: nat, j: nat, k: nat)
    requires Run(trace) && i <= j < |trace| && k < |trace[i].writers|
    requires Settled(trace[i].writers[k].phase)
    ensures k < |trace[j].writers| && trace[j].writers[k] == trace[i].writers[k]
    decreases j - i
  {
    if i < j {
      SettledStays(trace, i, j - 1, k);
      assert Step(trace[j - 1], trace[j - 1 + 1]);
    }
  }

  /** Writers come and go as they were: the same number, each with the job it was given. */
  lemma {:induction false} JobsStay(trace: seq<World>, i: nat, k: nat)
    requires Run(trace) && i < |trace| && k < |trace[i].writers|
    ensures k < |trace[0].writers| && trace[i].writers[k].job == trace[0].writers[k].job
    ensures trace[i].writers[k].message == trace[0].writers[k].message
  {
    if i > 0 {
      assert Step(trace[i - 1], trace[i - 1 + 1]);
      JobsStay(trace, i - 1, k);
    }
  }

  /** No lost update: a landed commit is the change its writer was asked for at the start,
      over the tip it was based or rebased on, after at most two pushes, and no later tip
      drops it. */
  lemma NoLostUpdate(trace: seq<World>, i: nat, j: nat, k: nat)
    requires Run(trace) && i <= j < |trace| && k < |trace[i].writers|
    requires trace[i].writers[k].phase.Done?
    ensures k < |trace[0].writers|
    ensures var w := trace[i].writers[k];
      && w.pushes <= 2
      && w.job == trace[0].writers[k].job
      && Own(w.job, w.phase.base, w.phase.mine)
      && Carried(w.phase.base, w.phase.mine, w.phase.onto, w.phase.landed)
      && AncestorOrSame(Some(w.phase.landed), trace[j].tip)
  {
    JobsStay(trace, i, k);
    InvAlong(trace, j);
    SettledStays(trace, i, j, k);
    assert trace[j].writers[k] in trace[j].writers;
  }

  /** A move that changes the branch is a landing: from the tip the commit was made
      over (or from that very commit) to the commit, and nothing else. */
  lemma MovingIsLanding(s: World, s': World, k: nat)
    requires Inv(s) && StepBy(s, s', k) && s'.tip != s.tip
    ensures var w := s'.writers[k];
      w.phase.Done? && s'.tip == Some(w.phase.landed) && w.phase.landed.parent == s.tip == w.phase.onto
  {
    var w := s.writers[k];
    assert w in s.writers;
    match w.phase
    case Cut(base, mine) => Between(base, s.tip, mine);
    case Replayed(base, mine, onto, again) => Between(onto, s.tip, again);
    case _ =>
  }

  /** Nothing lies strictly between a commit and its parent. */
  lemma Between(base: Tip, tip: Tip, c: Commit)
    requires AncestorOrSame(base, tip) && AncestorOrSame(tip, Some(c))
    requires c.parent == base || Some(c) == base
    ensures tip == base || tip == Some(c)
  {
    if tip != Some(c) {
      assert AncestorOrSame(tip, c.parent);
      if c.parent == base {
        AncestorAntisymmetric(base, tip);
      } else {
        AncestorAntisymmetric(tip, base);
      }
    }
  }

  /** A writer that ends without landing never moved the branch. */
  lemma FailuresTouchNothing(trace: seq<World>, i: nat, j: nat, k: nat)
    requires Run(trace) && i < j < |trace| && k < |trace[i].writers|
    requires StepBy(trace[i], trace[i + 1], k)
    requires k < |trace[j].writers| && !trace[j].writers[k].phase.Done?
    ensures trace[i + 1].tip == trace[i].tip
  {
    InvAlong(trace, i);
    if trace[i + 1].tip != trace[i].tip {
      MovingIsLanding(trace[i], trace[i + 1], k);
      SettledStays(trace, i + 1, j, k);
    }
  }

  // ----- What landing is worth --------------------------------------------

  /** A landed change stays inside the trees its job was allowed, whatever it was replayed on. */
  lemma LandingFrame(base: Tip, mine: Commit, onto: Tip, landed: Commit, prefixes: seq<string>)
    requires Carried(base, mine, onto, landed) && SameOutside(TreeOf(base), mine.tree, prefixes)
    ensures SameOutside(TreeOf(onto), landed.tree, prefixes)
  {
    var b, o, t := TreeOf(base), mine.tree, TreeOf(onto);
    forall p: Path | !Inside(p, prefixes) ensures Lookup(t, p) == Lookup(landed.tree, p) {
      assert Lookup(b, p) == Lookup(o, p);
      assert landed.tree == Applied(b, o, t);
    }
  }

  predicate JobWithin(job: Job, prefixes: seq<string>) {
    match job
    case Write(req) => RequestWithin(req, prefixes)
    case Remove(rels) => forall rel :: rel in rels ==> Within(rel, prefixes)
  }

  lemma OwnFrame(job: Job, base: Tip, mine: Commit, prefixes: seq<string>)
    requires Own(job, base, mine) && JobWithin(job, prefixes)
    ensures SameOutside(TreeOf(base), mine.tree, prefixes)
  {
    match job
    case Write(req) => PublishFrame(TreeOf(base), req, prefixes);
    case Remove(rels) => RemovalFrame(TreeOf(base), rels, prefixes);
  }

  /** In any run, a landed job left everything outside its trees as it found it. */
  lemma RunsKeepTheOperatorsFiles(trace: seq<World>, i: nat, k: nat, prefixes: seq<string>)
    requires Run(trace) && i < |trace| && k < |trace[i].writers|
    requires trace[i].writers[k].phase.Done? && JobWithin(trace[i].writers[k].job, prefixes)
    ensures var d := trace[i].writers[k].phase; SameOutside(TreeOf(d.onto), d.landed.tree, prefixes)
  {
    InvAlong(trace, i);
    var w := trace[i].writers[k];
    assert w in trace[i].writers;
    OwnFrame(w.job, w.phase.base, w.phase.mine, prefixes);
    LandingFrame(w.phase.base, w.phase.mine, w.phase.onto, w.phase.landed, prefixes);
  }

  /** Since `cut`, nobody touched the request's files that were already right then, or added
      files of their own under its reconciled trees. */
  predicate LeftAlone(cut: Tree, now: Tree, req: Request) {
    && (forall f :: f in req.Files() && Lookup(cut, Place(f)) == Some(f.data) ==> Lookup(now, Place(f)) == Some(f.data))
    && (forall p :: p in now && UnderSome(p, req.trees) && p !in Places(req.Files()) ==> p in cut)
  }

  /** After a clean rebase the branch is as the writer wants it exactly when the rivals
      left alone the files the base already carried and added nothing of their own
      under the reconciled trees: the replay restores only what this writer changed. */
  lemma LandedIsDesiredIff(base: Tip, mine: Commit, onto: Tip, landed: Commit, req: Request)
    requires Own(Write(req), base, mine) && Carried(base, mine, onto, landed)
    requires WellSpelled(req) && Consistent(req.Files()) && Rooted(Write(req))
    ensures Desired(landed.tree, req) <==> LeftAlone(TreeOf(base), TreeOf(onto), req)
  {
    var b, o, t, m := TreeOf(base), mine.tree, TreeOf(onto), landed.tree;
    DeliveredIsDesired(b, req);
    assert m == Applied(b, o, t);
    AppliedCarries(b, o, t, req);
    AppliedHasNothingExtra(b, o, t, req);
  }

  /** Of the request's files the replay restores those the base lacked; the others are as found. */
  lemma AppliedCarries(b: Tree, o: Tree, t: Tree, req: Request)
    requires Carries(o, req.Files())
    ensures Carries(Applied(b, o, t), req.Files()) <==>
      forall f :: f in req.Files() && Lookup(b, Place(f)) == Some(f.data) ==> Lookup(t, Place(f)) == Some(f.data)
  {
    forall f | f in req.Files()
      ensures Lookup(Applied(b, o, t), Place(f)) == Some(f.data) <==>
        (Lookup(b, Place(f)) == Some(f.data) ==> Lookup(t, Place(f)) == Some(f.data))
    {
      assert Lookup(o, Place(f)) == Some(f.data);
    }
  }

  /** Of what is not the request's the replay deletes what the base had; the rest is as found. */
  lemma AppliedHasNothingExtra(b: Tree, o: Tree, t: Tree, req: Request)
    requires NothingExtra(o, req)
    ensures NothingExtra(Applied(b, o, t), req) <==>
      forall p :: p in t && UnderSome(p, req.trees) && p !in Places(req.Files()) ==> p in b
  {
    var m := Applied(b, o, t);
    forall p: Path | UnderSome(p, req.trees) && p !in Places(req.Files()) ensures p in m <==> p in t && p !in b {
      assert p !in o;
      assert Lookup(m, p) == if Changed(b, o, p) then Lookup(o, p) else Lookup(t, p);
    }
  }

  /** So a success need not leave the record set as published: a rival's edit to a
      companion file that was already right is kept. */
  lemma LandedNotDesiredExample()
    ensures var req := Request(File("a", [1]), [File("b", [2])], []);
      var base := Some(Commit(None, map[["b"] := [2]], ""));
      var mine := Commit(base, map[["a"] := [1], ["b"] := [2]], "m");
      var onto := Some(Commit(base, map[["b"] := [3]], "r"));
      var landed := Commit(onto, map[["a"] := [1], ["b"] := [3]], "m");
      && RequestWithin(req, ["a", "b"])
      && Own(Write(req), base, mine) && Carried(base, mine, onto, landed)
      && Rebase(base, mine, onto) == Some(landed) && !Desired(landed.tree, req)
  {
    var pa, pb: Path := ["a"], ["b"];
    var a, b := File("a", [1]), File("b", [2]);
    var req := Request(a, [b], []);
    PlainIsWithin("a", ["a", "b"]);
    PlainIsWithin("b", ["a", "b"]);
    assert req.Files() == [a, b];
    var t0: Tree, t1: Tree, t2: Tree := map[pb := [2]], map[pa := [1], pb := [2]], map[pb := [3]];
    var base := Some(Commit(None, t0, ""));
    var mine, onto := Commit(base, t1, "m"), Some(Commit(base, t2, "r"));
    ExampleIsOwn(req, base, mine, pa, pb);
    ExampleLands(base, mine, onto, pa, pb);
    assert b in req.Files() && Place(b) == pb;
  }

  lemma ExampleLands(base: Tip, mine: Commit, onto: Tip, pa: Path, pb: Path)
    requires pa == ["a"] && pb == ["b"]
    requires base.Some? && base.value.tree == map[pb := [2]]
    requires mine.parent == base && mine.tree == map[pa := [1], pb := [2]]
    requires onto.Some? && onto.value.parent == base && onto.value.tree == map[pb := [3]]
    ensures var landed := Commit(onto, map[pa := [1], pb := [3]], mine.message);
      Carried(base, mine, onto, landed) && Rebase(base, mine, onto) == Some(landed)
  {
    var t0, t1, t2 := base.value.tree, mine.tree, onto.value.tree;
    var t3 := Applied(t0, t1, t2);
    assert Changed(t0, t1, pa) && !Changed(t0, t1, pb) && t3.Keys <= {pa, pb};
    assert t3 == map[pa := [1], pb := [3]] by {
      assert Lookup(t3, pa) == Some([1]) && Lookup(t3, pb) == Some([3]);
    }
    assert MergeTrees(t0, t1, t2) == Some(t3) by {
      assert !Clash(t0, t1, t2, pa) && !Clash(t0, t1, t2, pb);
      assert t0.Keys + t1.Keys + t2.Keys == {pa, pb};
    }
    assert AncestorOrSame(base, onto) by { assert onto.value.parent == base; }
  }

  lemma ExampleIsOwn(req: Request, base: Tip, mine: Commit, pa: Path, pb: Path)
    requires |req.extras| == 1 && req.trees == []
    requires Place(req.record) == pa == ["a"] && Place(req.extras[0]) == pb == ["b"]
    requires base == Some(Commit(None, map[pb := req.extras[0].data], ""))
    requires mine == Commit(base, map[pa := req.record.data, pb := req.extras[0].data], mine.message)
    ensures Own(Write(req), base, mine)
  {
    var t, files := TreeOf(base), req.Files();
    assert SweptFor(t, req) == t;
    assert req.record in files && Lookup(t, pa) == None;
    assert files == [req.record, req.extras[0]];
    assert files[1..] == [req.extras[0]] && files[1..][1..] == [];
    var t' := t[pa := req.record.data];
    assert Written(t', files[1..]) == Written(t'[pb := req.extras[0].data], []);
    assert Written(t, files) == t'[pb := req.extras[0].data] == mine.tree;
    assert Writable(t', files[1..]);
  }
}
