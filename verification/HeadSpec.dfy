/** PR mode: the three-way decision of `publish_to_head` over the base branch and the
    agent's head branch (plugin/gitops_emitter/gitrepo.py:386-526). */
module HeadSpec {
  import opened Wrappers
  import opened Text
  import opened GitPaths
  import opened GitModel
  import opened PublishSpec

  const CR: byte := 13
  const LF: byte := 10

  /** What text mode makes of a subprocess's output. */
  function UniversalNewlines(b: Bytes): Bytes
    decreases |b|
  {
    if b == [] then []
    else if b[0] == CR then [LF] + UniversalNewlines(if |b| > 1 && b[1] == LF then b[2..] else b[1..])
    else [b[0]] + UniversalNewlines(b[1..])
  }

  lemma {:induction false} NewlinesOfPlain(b: Bytes)
    requires CR !in b
    ensures UniversalNewlines(b) == b
    decreases |b|
  {
    if b != [] {
      NewlinesOfPlain(b[1..]);
    }
  }

  lemma {:induction false} NewlinesDropCR(b: Bytes)
    ensures CR !in UniversalNewlines(b)
    decreases |b|
  {
    if b != [] {
      NewlinesDropCR(if b[0] == CR && |b| > 1 && b[1] == LF then b[2..] else b[1..]);
    }
  }

  /** A carriage return is read as a line feed, and so is the pair of the two. */
  lemma {:induction false} NewlinesAt(a: Bytes, b: Bytes)
    requires 13 !in a
    ensures UniversalNewlines(a + [13, 10] + b) == a + [10] + UniversalNewlines(b)
    ensures b == [] || b[0] != 10 ==> UniversalNewlines(a + [13] + b) == a + [10] + UniversalNewlines(b)
    decreases |a|
  {
    if a == [] {
      assert a + [CR, LF] + b == [CR, LF] + b && ([CR, LF] + b)[2..] == b;
      assert a + [CR] + b == [CR] + b && ([CR] + b)[1..] == b;
    } else {
      NewlinesAt(a[1..], b);
      assert (a + [CR, LF] + b)[1..] == a[1..] + [CR, LF] + b;
      assert (a + [CR] + b)[1..] == a[1..] + [CR] + b;
    }
  }

  /** How `<ref>:<raw>` names a file: literally, except that a leading `./` is resolved first. */
  function GitFind(raw: string): Option<Path> {
    if StartsWith(raw, "./") || Normal(raw) then Some(Parts(raw)) else None
  }

  function OnHead(head: Tree, raw: string): Option<Bytes> {
    if GitFind(raw).Some? then Lookup(head, GitFind(raw).value) else None
  }

  /** Git resolves a leading `./` and takes any other spelling as it stands: one that is not normal
      names nothing. */
  lemma OnHeadIs(head: Tree, raw: string)
    ensures OnHead(head, "./" + raw) == Lookup(head, Parts(raw))
    ensures Normal(raw) ==> OnHead(head, raw) == Lookup(head, Parts(raw))
    ensures !Normal(raw) && !("./" <= raw) ==> OnHead(head, raw) == None
  {
    assert "./" + raw == "." + ['/'] + raw;
    SplitAppend(".", raw, '/');
    SplitPlain(".", '/');
    assert DropDots(["."]) == DropDots(["."][1..]) == [];
    DropDotsAppend(["."], Split(raw, '/'));
  }

  /** `tree.rstrip("/")`. */
  function RStripSlashes(s: string): string
    decreases |s|
  {
    if s != "" && s[|s| - 1] == '/' then RStripSlashes(s[..|s| - 1]) else s
  }

  /** `git ls-tree -r --name-only <head> -- <tree>`. */
  function Listed(head: Tree, tree: string): set<string> {
    set p | p in head && AtOrUnder(p, Parts(tree)) :: Spelling(p)
  }

  /** The publish set's own files under `tree`, compared as strings. */
  function Wanted(files: seq<File>, tree: string): set<string> {
    set f | f in files && StartsWith(f.rel, RStripSlashes(tree) + "/") :: f.rel
  }

  predicate TreesReconciled(head: Tree, req: Request) {
    forall tr :: tr in req.trees ==> Listed(head, tr) == Wanted(req.Files(), tr)
  }

  /** The "head already carries it" test: the record as text, the extras by blob
      hash, the reconciled trees by listing. */
  predicate HeadTest(head: Tree, req: Request) {
    && OnHead(head, req.record.rel).Some?
    && UniversalNewlines(OnHead(head, req.record.rel).value) == req.record.data
    && (forall f :: f in req.extras ==> OnHead(head, f.rel) == Some(f.data))
    && TreesReconciled(head, req)
  }

  datatype Decision =
    | BaseCarries                  // (None, False)
    | HeadCarries(commit: Commit)  // (head sha, False)
    | Unwritable                   // a file stands where a directory must, or the reverse
    | NothingToCommit              // `git commit` refuses an empty commit
    | Push(commit: Commit)         // (new sha, True)

  function Decide(base: Tip, head: Tip, req: Request, message: string): Decision {
    var t := TreeOf(base);
    if BaseTest(t, req) then BaseCarries
    else if head.Some? && HeadTest(head.value.tree, req) then HeadCarries(head.value)
    else if !Writable(SweptFor(t, req), req.Files()) then Unwritable
    else if Delivered(t, req) == t then NothingToCommit
    else Push(Commit(base, Delivered(t, req), message))
  }

  // ----- What the head test decides ---------------------------------------

  /** Every path as the emitter builds it: in normal spelling, up to a trailing slash on a tree. */
  predicate NormalRequest(req: Request) {
    && (forall f :: f in req.Files() ==> Normal(f.rel) && f.rel != "")
    && (forall tr :: tr in req.trees ==> Normal(RStripSlashes(tr)) && RStripSlashes(tr) != "")
  }

  /** No file sits at the path of a reconciled tree itself. */
  predicate NoFileAtTree(t: Tree, trees: seq<string>) {
    forall tr :: tr in trees ==> Parts(tr) !in t
  }

  lemma {:induction false} DropDotsAppend(a: seq<string>, b: seq<string>)
    ensures DropDots(a + b) == DropDots(a) + DropDots(b)
  {
    if a == [] {
      assert a + b == b;
    } else {
      assert (a + b)[1..] == a[1..] + b;
      DropDotsAppend(a[1..], b);
    }
  }

  lemma {:induction false} PartsIgnoreTrailingSlashes(s: string)
    ensures Parts(RStripSlashes(s)) == Parts(s)
    decreases |s|
  {
    if s != "" && s[|s| - 1] == '/' {
      var r := s[..|s| - 1];
      PartsIgnoreTrailingSlashes(r);
      assert s == r + ['/'] + "";
      SplitAppend(r, "", '/');
      DropDotsAppend(Split(r, '/'), [""]);
      assert DropDots([""]) == [];
    }
  }

  /** For normal spellings the string test `startswith(tree + "/")` is containment. */
  lemma WantedIsUnder(f: File, tree: string)
    requires Normal(f.rel) && f.rel != ""
    requires Normal(RStripSlashes(tree)) && RStripSlashes(tree) != ""
    ensures StartsWith(f.rel, RStripSlashes(tree) + "/") <==> StrictlyUnder(Place(f), Parts(tree))
  {
    var pre := RStripSlashes(tree);
    PartsIgnoreTrailingSlashes(tree);
    SplitOfJoin(Parts(pre), '/');
    StrictPrefixAtBoundary(Place(f), pre, '/');
    assert RStripSlashes(tree) + "/" == pre + ['/'];
  }

  /** Listing against the wanted set: nothing extra, nothing missing, no file in the tree's place. */
  lemma TreesReconciledIff(head: Tree, req: Request)
    requires WellFormed(head) && NormalRequest(req)
    requires Places(req.Files()) <= head.Keys
    ensures TreesReconciled(head, req) <==> NothingExtra(head, req) && NoFileAtTree(head, req.trees)
  {
    var files := req.Files();
    if TreesReconciled(head, req) {
      forall tr | tr in req.trees ensures Parts(tr) !in head {
        if Parts(tr) in head {
          assert Spelling(Parts(tr)) in Listed(head, tr);
          var f :| f in files && StartsWith(f.rel, RStripSlashes(tr) + "/") && f.rel == Spelling(Parts(tr));
          WantedIsUnder(f, tr);
          PartsOfSpelling(Parts(tr));
        }
      }
      forall p | p in head && UnderSome(p, req.trees) ensures p in Places(files) {
        var i :| 0 <= i < |req.trees| && StrictlyUnder(p, Parts(req.trees[i]));
        assert Spelling(p) in Listed(head, req.trees[i]);
        assert Spelling(p) in Keep(files);
        KeptAreListed(p, req);
      }
    }
    if NothingExtra(head, req) && NoFileAtTree(head, req.trees) {
      forall tr | tr in req.trees ensures Listed(head, tr) == Wanted(files, tr) {
        ListedIsWanted(head, req, tr);
      }
    }
  }

  lemma ListedIsWanted(head: Tree, req: Request, tr: string)
    requires WellFormed(head) && NormalRequest(req) && tr in req.trees
    requires Places(req.Files()) <= head.Keys
    requires NothingExtra(head, req) && NoFileAtTree(head, req.trees)
    ensures Listed(head, tr) == Wanted(req.Files(), tr)
  {
    var files := req.Files();
    forall s | s in Listed(head, tr) ensures s in Wanted(files, tr) {
      var p :| p in head && AtOrUnder(p, Parts(tr)) && Spelling(p) == s;
      assert p != Parts(tr);
      var i :| 0 <= i < |req.trees| && req.trees[i] == tr;
      assert StrictlyUnder(p, Parts(req.trees[i]));
      assert p in Places(files);
      var f :| f in files && Place(f) == p;
      WantedIsUnder(f, tr);
    }
    forall s | s in Wanted(files, tr) ensures s in Listed(head, tr) {
      var f :| f in files && StartsWith(f.rel, RStripSlashes(tr) + "/") && f.rel == s;
      WantedIsUnder(f, tr);
      assert Place(f) in Places(files);
      assert Place(f) in head && AtOrUnder(Place(f), Parts(tr));
    }
  }

  /** The head test, said without git: the goal, except that the record is compared
      up to line endings and no file may sit in a reconciled tree's place. */
  lemma HeadTestIff(head: Tree, req: Request)
    requires WellFormed(head) && NormalRequest(req)
    ensures HeadTest(head, req) <==>
      && Place(req.record) in head
      && UniversalNewlines(head[Place(req.record)]) == req.record.data
      && Carries(head, req.extras)
      && NothingExtra(head, req)
      && NoFileAtTree(head, req.trees)
  {
    var files := req.Files();
    assert forall f :: f in files ==> OnHead(head, f.rel) == Lookup(head, Place(f));
    assert req.record in files;
    assert forall f :: f in req.extras ==> f in files;
    if Place(req.record) in head && Carries(head, req.extras) {
      forall f | f in files ensures Place(f) in head {
        assert f == req.record || f in req.extras;
      }
      TreesReconciledIff(head, req);
    }
  }

  /** With everything else in place, the test is right about the record exactly when
      the head's copy is free of carriage returns, or is the wanted text neither
      byte for byte nor up to line endings. */
  lemma HeadTestRightIff(head: Tree, req: Request)
    requires WellFormed(head) && NormalRequest(req)
    requires Place(req.record) in head && Carries(head, req.extras)
    requires NothingExtra(head, req) && NoFileAtTree(head, req.trees)
    ensures (HeadTest(head, req) <==> Desired(head, req)) <==>
      var h := head[Place(req.record)];
      CR !in h || (h != req.record.data && UniversalNewlines(h) != req.record.data)
  {
    var h := head[Place(req.record)];
    HeadTestIff(head, req);
    assert Carries(head, req.Files()) <==> h == req.record.data by {
      assert req.record in req.Files();
      assert forall f :: f in req.Files() ==> f == req.record || f in req.extras;
    }
    NewlinesDropCR(h);
    if CR !in h { NewlinesOfPlain(h); }
  }

  /** A head left by an earlier publish with CRLF endings passes for the LF record. */
  lemma StaleHeadExample()
    ensures var req := Request(File("x", [7, LF]), [], []);
      var head: Tree := map[["x"] := [7, CR, LF]];
      && RequestWithin(req, ["x"]) && NormalRequest(req)
      && WellFormed(head) && HeadTest(head, req) && !Desired(head, req)
  {
    var req := Request(File("x", [7, LF]), [], []);
    var head: Tree := map[["x"] := [7, CR, LF]];
    OneFile(req, "x");
    assert [7 as byte, CR, LF][1..] == [CR, LF] && [CR, LF][2..] == [];
    assert UniversalNewlines([CR, LF]) == [LF] + UniversalNewlines([]);
    assert UniversalNewlines([7 as byte, CR, LF]) == [7, LF];
    HeadTestIff(head, req);
    assert req.record in req.Files() && Lookup(head, Place(req.record)) != Some(req.record.data);
  }

  // ----- The three cases --------------------------------------------------

  /** A normal request is well spelled. */
  lemma NormalIsWellSpelled(req: Request)
    requires NormalRequest(req)
    ensures WellSpelled(req)
    ensures forall f :: f in req.Files() ==> Place(f) != []
  {
    forall f | f in req.Files() ensures Spelling(Place(f)) in Keep(req.Files()) && Place(f) != [] {
      assert f.rel in Keep(req.Files());
    }
  }

  /** One predicate decides PR mode: no push when the base is as desired, none when the
      head is, and otherwise a push whose tree is. No empty commit is ever tried. */
  lemma DecideByDesired(base: Tip, head: Tip, req: Request, message: string)
    requires NormalRequest(req) && Consistent(req.Files())
    requires WellFormed(TreeOf(base)) && WellFormed(TreeOf(head))
    requires head.Some? && Place(req.record) in head.value.tree ==> CR !in head.value.tree[Place(req.record)]
    requires NoFileAtTree(TreeOf(head), req.trees)
    ensures var d := Decide(base, head, req, message);
      && (d.BaseCarries? <==> Desired(TreeOf(base), req))
      && (d.HeadCarries? <==> !Desired(TreeOf(base), req) && head.Some? && Desired(head.value.tree, req))
      && (d.HeadCarries? ==> Some(d.commit) == head)
      && !d.NothingToCommit?
      && (d.Push? ==> d.commit.parent == base && Desired(d.commit.tree, req) && WellFormed(d.commit.tree))
  {
    var t := TreeOf(base);
    NormalIsWellSpelled(req);
    BaseTestDecidesDesired(t, req);
    EmptyCommitOn(t, req);
    if head.Some? {
      HeadDecidesDesired(head.value.tree, req);
    }
    if Decide(base, head, req, message).Push? {
      DeliveredIsDesired(t, req);
    }
  }

  lemma HeadDecidesDesired(head: Tree, req: Request)
    requires WellFormed(head) && NormalRequest(req) && NoFileAtTree(head, req.trees)
    requires Place(req.record) in head ==> CR !in head[Place(req.record)]
    ensures HeadTest(head, req) <==> Desired(head, req)
  {
    HeadTestIff(head, req);
    assert req.record in req.Files();
    assert forall f :: f in req.extras ==> f in req.Files();
    if Place(req.record) in head && Carries(head, req.extras) && NothingExtra(head, req) {
      HeadTestRightIff(head, req);
    }
  }

  /** The tree a publish commits is the one it was asked for. */
  lemma DeliveredIsDesired(t: Tree, req: Request)
    requires WellFormed(t) && WellSpelled(req) && Consistent(req.Files())
    requires forall f :: f in req.Files() ==> Place(f) != []
    requires Writable(SweptFor(t, req), req.Files())
    ensures Desired(Delivered(t, req), req) && WellFormed(Delivered(t, req))
  {
    var files, s := req.Files(), SweptFor(t, req);
    WrittenCarries(s, files);
    WritingKeepsWellFormed(s, files);
    WrittenPlaces(s, files);
    forall p | p in Delivered(t, req) && UnderSome(p, req.trees) ensures p in Places(files) {
      if p in s { KeptAreListed(p, req); }
    }
  }

  /** Nothing a publish over `t` leaves behind is a file in the place of a reconciled tree:
      the request lists none, and what the base has there is swept away. */
  predicate TreesClear(t: Tree, req: Request) {
    forall tr :: tr in req.trees ==>
      && Parts(tr) !in Places(req.Files())
      && (Parts(tr) in t ==> IsStale(Parts(tr), req.trees, Keep(req.Files())))
  }

  lemma ClearTreesStayClear(t: Tree, req: Request)
    ensures NoFileAtTree(Delivered(t, req), req.trees) <==> TreesClear(t, req)
  {
    WrittenPlaces(SweptFor(t, req), req.Files());
    forall tr | tr in req.trees
      ensures Parts(tr) in Delivered(t, req) <==>
        Parts(tr) in Places(req.Files()) || (Parts(tr) in t && !IsStale(Parts(tr), req.trees, Keep(req.Files())))
    {
    }
  }

  /** After a push, an immediate second run - any message - changes nothing exactly when the
      record has no carriage return and no file is left in the place of a reconciled tree. */
  lemma SecondRunIsQuietIff(base: Tip, head: Tip, req: Request, message: string, again: string)
    requires NormalRequest(req) && Consistent(req.Files()) && WellFormed(TreeOf(base))
    requires Decide(base, head, req, message).Push?
    ensures var c := Decide(base, head, req, message).commit;
      (Decide(base, Some(c), req, again) == HeadCarries(c)) <==>
      (CR !in req.record.data && TreesClear(TreeOf(base), req))
  {
    var c := Decide(base, head, req, message).commit;
    NormalIsWellSpelled(req);
    DeliveredIsDesired(TreeOf(base), req);
    ClearTreesStayClear(TreeOf(base), req);
    HeadTestIff(c.tree, req);
    assert req.record in req.Files();
    assert forall f :: f in req.extras ==> f in req.Files();
    assert Lookup(c.tree, Place(req.record)) == Some(req.record.data);
    NewlinesDropCR(req.record.data);
    if CR !in req.record.data { NewlinesOfPlain(req.record.data); }
  }

  /** A record that ends its line with a carriage return, on a branch that does not exist
      yet: the second run pushes again. */
  lemma SecondRunPushesAgainExample(message: string, again: string)
    ensures var req := Request(File("x", [CR]), [], []);
      && RequestWithin(req, ["x"]) && NormalRequest(req)
      && Decide(None, None, req, message).Push?
      && Decide(None, Some(Decide(None, None, req, message).commit), req, again).Push?
  {
    var req := Request(File("x", [CR]), [], []);
    OneFile(req, "x");
    var c := Decide(None, None, req, message).commit;
    SecondRunIsQuietIff(None, None, req, message, again);
    assert Consistent(req.Files());
    HeadTestIff(c.tree, req);
  }

  /** A request of one file at a plain name, and nothing to reconcile. */
  lemma OneFile(req: Request, name: string)
    requires '/' !in name && name != "" && name != "." && name != ".." && name[0] != '\\'
    requires req.record.rel == name && req.extras == [] && req.trees == []
    ensures Place(req.record) == [name] && req.Files() == [req.record]
    ensures NormalRequest(req) && RequestWithin(req, [name])
    ensures forall t: Tree :: SweptFor(t, req) == t
    ensures Writable(map[], req.Files()) && Delivered(map[], req) == map[[name] := req.record.data]
  {
    SplitPlain(name, '/');
    assert DropDots([name]) == [name] + DropDots([name][1..]);
    PlainIsWithin(name, [name]);
    assert req.Files()[1..] == [];
    forall t: Tree ensures SweptFor(t, req) == t {
      assert forall p :: p in t ==> !UnderSome(p, req.trees);
    }
    var none: Tree, one: Tree := map[], map[[name] := req.record.data];
    assert SweptFor(none, req) == none && none[Place(req.record) := req.record.data] == one;
    assert Written(one, req.Files()[1..]) == one;
  }

  lemma DecideFrame(base: Tip, head: Tip, req: Request, message: string, prefixes: seq<string>)
    requires RequestWithin(req, prefixes) && Decide(base, head, req, message).Push?
    ensures SameOutside(TreeOf(base), Decide(base, head, req, message).commit.tree, prefixes)
  {
    PublishFrame(TreeOf(base), req, prefixes);
  }
}
