/** The one-time adoption of the plan's relationships as ordinary connections
    (control-plane/nexus/plugin_api.py:5852-5878). */
module Relationships {
  import opened Wrappers
  import opened Json
  import opened Labels
  import opened WorkspaceSpec

  /** A relationship of the plan; None is an endpoint that is not a string. */
  datatype Relationship = Relationship(source: Option<string>, target: Option<string>, caption: string)

  // ----- conn-N -----------------------------------------------------------

  function Digit(d: nat): char
    requires d < 10
  {
    ('0' as int + d) as char
  }

  function Decimal(n: nat): (s: string)
    ensures s != "" && forall i :: 0 <= i < |s| ==> '0' <= s[i] <= '9'
  {
    if n < 10 then [Digit(n)] else Decimal(n / 10) + [Digit(n % 10)]
  }

  function ConnId(n: nat): string { "conn-" + Decimal(n) }

  lemma {:induction false} DecimalIsInjective(a: nat, b: nat)
    requires Decimal(a) == Decimal(b)
    ensures a == b
    decreases a
  {
    var s, t := Decimal(a), Decimal(b);
    assert s[|s| - 1] == Digit(a % 10) && t[|t| - 1] == Digit(b % 10);
    if a >= 10 && b >= 10 {
      assert s[..|s| - 1] == Decimal(a / 10) && t[..|t| - 1] == Decimal(b / 10);
      DecimalIsInjective(a / 10, b / 10);
    } else {
      assert |s| == 1 <==> a < 10;
    }
  }

  lemma ConnIdIsInjective(a: nat, b: nat)
    ensures ConnId(a) == ConnId(b) ==> a == b
  {
    if ConnId(a) == ConnId(b) {
      assert ConnId(a)[5..] == Decimal(a) && ConnId(b)[5..] == Decimal(b);
      DecimalIsInjective(a, b);
    }
  }

  function IdsBelow(i: nat): set<string> { set k | 1 <= k < i :: ConnId(k) }

  lemma IdsBelowNext(i: nat)
    requires i >= 1
    ensures IdsBelow(i + 1) == IdsBelow(i) + {ConnId(i)} && ConnId(i) !in IdsBelow(i)
  {
    forall k: nat | 1 <= k < i ensures ConnId(k) != ConnId(i) {
      ConnIdIsInjective(k, i);
    }
  }

  lemma ShrinkingSearch(used: set<string>, i: nat)
    requires i >= 1 && ConnId(i) in used
    ensures |used - IdsBelow(i + 1)| < |used - IdsBelow(i)|
  {
    IdsBelowNext(i);
    assert used - IdsBelow(i + 1) == (used - IdsBelow(i)) - {ConnId(i)};
  }

  /** The first free number at or after i; there is one, for only finitely many are used. */
  function FreeFrom(used: set<string>, i: nat): (n: nat)
    requires i >= 1
    ensures n >= i && ConnId(n) !in used
    ensures forall k :: i <= k < n ==> ConnId(k) in used
    decreases |used - IdsBelow(i)|
  {
    if ConnId(i) in used then
      ShrinkingSearch(used, i);
      FreeFrom(used, i + 1)
    else i
  }

  // ----- Adoption ---------------------------------------------------------

  type Pair = (Json, Json)

  function PairOf(c: Json): Pair { (Get(c, Key.From), Get(c, Key.To)) }

  function PairsOf(conns: seq<Json>): set<Pair> { set c | c in conns :: PairOf(c) }

  function ConnIds(conns: seq<Json>): set<string> { set c | c in conns :: IdOf(c) }

  /** A relationship between two cards of the sheet. */
  predicate Anchored(refs: set<string>, r: Relationship) {
    && r.source.Some? && r.target.Some? && r.source != r.target
    && r.source.value in refs && r.target.value in refs
    && IdOk(Str(r.source.value)) && IdOk(Str(r.target.value))
  }

  function PairOfRel(r: Relationship): Pair
    requires r.source.Some? && r.target.Some?
  {
    (Str(r.source.value), Str(r.target.value))
  }

  function Connection(n: nat, r: Relationship): Json
    requires r.source.Some? && r.target.Some?
  {
    Obj(map[Key.Id := Str(ConnId(n)), Key.From := Str(r.source.value), Key.To := Str(r.target.value),
            Key.Label := Str(Clipped(r.caption, MAX_TEXT))])
  }

  function AdoptOne(refs: set<string>, conns: seq<Json>, r: Relationship): seq<Json> {
    if Anchored(refs, r) && PairOfRel(r) !in PairsOf(conns)
    then conns + [Connection(FreeFrom(ConnIds(conns), 1), r)]
    else conns
  }

  function Adopt(refs: set<string>, conns: seq<Json>, rels: seq<Relationship>): seq<Json>
    decreases |rels|
  {
    if rels == [] then conns else AdoptOne(refs, Adopt(refs, conns, rels[..|rels| - 1]), rels[|rels| - 1])
  }

  lemma OneMore(conns: seq<Json>, n: nat, r: Relationship)
    requires r.source.Some? && r.target.Some?
    ensures PairsOf(conns + [Connection(n, r)]) == PairsOf(conns) + {PairOfRel(r)}
    ensures ConnIds(conns + [Connection(n, r)]) == ConnIds(conns) + {ConnId(n)}
  {
    var c, more := Connection(n, r), conns + [Connection(n, r)];
    assert PairOf(c) == PairOfRel(r) && IdOf(c) == ConnId(n) && c in more;
    assert forall d :: d in more <==> d in conns || d == c;
  }

  lemma AdoptsOne(refs: set<string>, conns: seq<Json>, r: Relationship, n: nat)
    requires Anchored(refs, r) && PairOfRel(r) !in PairsOf(conns) && n == FreeFrom(ConnIds(conns), 1)
    ensures AdoptOne(refs, conns, r) == conns + [Connection(n, r)]
  {
  }

  /** The search for a free id. */
  method NextFree(used: set<string>, from_: nat) returns (i: nat)
    requires from_ >= 1 && forall j :: 1 <= j < from_ ==> ConnId(j) in used
    ensures i >= from_ && i == FreeFrom(used, 1)
    ensures forall j :: 1 <= j < i ==> ConnId(j) in used
  {
    i := from_;
    ghost var n := FreeFrom(used, 1);
    while ConnId(i) in used
      invariant from_ <= i <= n
      invariant forall j :: 1 <= j < i ==> ConnId(j) in used
      decreases n - i
    {
      i := i + 1;
    }
  }

  /** `_adopt_relationships`: one counter runs through all of them. */
  method AdoptRelationships(refs: set<string>, conns: seq<Json>, rels: seq<Relationship>) returns (out: seq<Json>)
    ensures out == Adopt(refs, conns, rels)
  {
    out := conns;
    var have, used, i := PairsOf(conns), ConnIds(conns), 1;
    for k := 0 to |rels|
      invariant out == Adopt(refs, conns, rels[..k])
      invariant have == PairsOf(out) && used == ConnIds(out)
      invariant i >= 1 && forall j :: 1 <= j < i ==> ConnId(j) in used
    {
      assert rels[..k + 1][..k] == rels[..k];
      var r := rels[k];
      if !Anchored(refs, r) || PairOfRel(r) in have {
        continue;
      }
      i := NextFree(used, i);
      AdoptsOne(refs, out, r, i);
      OneMore(out, i, r);
      out, have, used, i := out + [Connection(i, r)], have + {PairOfRel(r)}, used + {ConnId(i)}, i + 1;
    }
    assert rels[..|rels|] == rels;
  }

  // ----- What adoption keeps and adds -------------------------------------

  predicate DistinctConnIds(conns: seq<Json>) {
    forall i, j :: 0 <= i < j < |conns| ==> IdOf(conns[i]) != IdOf(conns[j])
  }

  /** The pairs of the plan that the sheet can anchor and nothing draws yet. */
  function NewPairs(refs: set<string>, conns: seq<Json>, rels: seq<Relationship>): set<Pair>
    decreases |rels|
  {
    if rels == [] then {}
    else
      var r := rels[|rels| - 1];
      NewPairs(refs, conns, rels[..|rels| - 1])
      + if Anchored(refs, r) && PairOfRel(r) !in PairsOf(conns) then {PairOfRel(r)} else {}
  }

  lemma {:induction false} NewPairsAre(refs: set<string>, conns: seq<Json>, rels: seq<Relationship>, p: Pair)
    ensures p in NewPairs(refs, conns, rels) <==>
            p !in PairsOf(conns) && exists r :: r in rels && Anchored(refs, r) && PairOfRel(r) == p
    decreases |rels|
  {
    if rels != [] {
      var front, r := rels[..|rels| - 1], rels[|rels| - 1];
      assert rels == front + [r];
      NewPairsAre(refs, conns, front, p);
    }
  }

  /** The existing connections stay first; what is drawn afterwards is what was drawn before
      and every pair the sheet can anchor; each new pair is drawn once, under a fresh id. */
  lemma {:induction false} AdoptDraws(refs: set<string>, conns: seq<Json>, rels: seq<Relationship>)
    ensures var out := Adopt(refs, conns, rels);
      && conns <= out
      && PairsOf(out) == PairsOf(conns) + NewPairs(refs, conns, rels)
      && |out| == |conns| + |NewPairs(refs, conns, rels)|
      && (DistinctConnIds(conns) ==> DistinctConnIds(out))
    decreases |rels|
  {
    if rels != [] {
      var front, r := rels[..|rels| - 1], rels[|rels| - 1];
      AdoptDraws(refs, conns, front);
      AdoptOneDraws(refs, Adopt(refs, conns, front), r);
      OneMorePair(refs, conns, rels);
    }
  }

  lemma OneMorePair(refs: set<string>, conns: seq<Json>, rels: seq<Relationship>)
    requires rels != []
    ensures var r, before := rels[|rels| - 1], NewPairs(refs, conns, rels[..|rels| - 1]);
      var all := NewPairs(refs, conns, rels);
      && PairsOf(conns) + all == PairsOf(conns) + before + (if Anchored(refs, r) then {PairOfRel(r)} else {})
      && |all| == |before| + (if Anchored(refs, r) && PairOfRel(r) !in PairsOf(conns) + before then 1 else 0)
  {
    var r := rels[|rels| - 1];
    if Anchored(refs, r) {
      OneMoreIn(PairsOf(conns), NewPairs(refs, conns, rels[..|rels| - 1]), PairOfRel(r));
    }
  }

  lemma OneMoreIn(drawn: set<Pair>, before: set<Pair>, p: Pair)
    ensures var all := before + (if p !in drawn then {p} else {});
      && drawn + all == drawn + before + {p}
      && (p !in drawn + before ==> |all| == |before| + 1)
      && (p in drawn + before ==> all == before)
  {
  }

  lemma AdoptOneDraws(refs: set<string>, conns: seq<Json>, r: Relationship)
    ensures var out := AdoptOne(refs, conns, r);
      && conns <= out
      && PairsOf(out) == PairsOf(conns) + (if Anchored(refs, r) then {PairOfRel(r)} else {})
      && |out| == |conns| + (if Anchored(refs, r) && PairOfRel(r) !in PairsOf(conns) then 1 else 0)
      && (DistinctConnIds(conns) ==> DistinctConnIds(out))
  {
    if Anchored(refs, r) && PairOfRel(r) !in PairsOf(conns) {
      var n := FreeFrom(ConnIds(conns), 1);
      OneMore(conns, n, r);
      assert IdOf(Connection(n, r)) == ConnId(n);
      forall i | 0 <= i < |conns| ensures IdOf(conns[i]) != ConnId(n) {
        assert conns[i] in conns;
      }
    }
  }

  lemma OneAddedIsNew(refs: set<string>, conns: seq<Json>, r: Relationship)
    ensures var out := AdoptOne(refs, conns, r);
      out != conns ==>
        && |out| == |conns| + 1 && out[..|conns|] == conns
        && Anchored(refs, r) && PairOf(out[|conns|]) == PairOfRel(r) && PairOfRel(r).0 != PairOfRel(r).1
        && PairOfRel(r) !in PairsOf(conns)
        && forall j :: 0 <= j < |conns| ==> PairOf(conns[j]) != PairOfRel(r)
  {
    forall j | 0 <= j < |conns| ensures PairOf(conns[j]) in PairsOf(conns) {
      assert conns[j] in conns;
    }
  }

  ghost predicate DrawnOnce(out: seq<Json>, k: nat)
    requires k < |out|
  {
    && PairOf(out[k]).0 != PairOf(out[k]).1
    && forall j :: 0 <= j < |out| && j != k ==> PairOf(out[j]) != PairOf(out[k])
  }

  lemma DrawnOnceStill(before: seq<Json>, out: seq<Json>, k: nat)
    requires k < |before| && DrawnOnce(before, k) && |out| == |before| + 1 && out[..|before|] == before
    requires PairOf(out[|before|]) != PairOf(before[k])
    ensures DrawnOnce(out, k)
  {
    assert forall j :: 0 <= j < |before| ==> out[j] == before[j];
  }

  /** Nothing is drawn from a component to itself, and no added pair is drawn twice. */
  lemma {:induction false} AddedAreNew(refs: set<string>, conns: seq<Json>, rels: seq<Relationship>, k: nat)
    requires |conns| <= k < |Adopt(refs, conns, rels)|
    ensures DrawnOnce(Adopt(refs, conns, rels), k)
    ensures PairOf(Adopt(refs, conns, rels)[k]) !in PairsOf(conns)
    decreases |rels|
  {
    assert rels != [];
    var front, r := rels[..|rels| - 1], rels[|rels| - 1];
    var before, out := Adopt(refs, conns, front), Adopt(refs, conns, rels);
    AdoptDraws(refs, conns, front);
    OneAddedIsNew(refs, before, r);
    if k < |before| {
      AddedAreNew(refs, conns, front, k);
      if out != before {
        DrawnOnceStill(before, out, k);
      }
    } else {
      assert forall j :: 0 <= j < |before| ==> out[j] == before[j];
    }
  }

  /** Adopting again adds nothing. */
  lemma AdoptIsIdempotent(refs: set<string>, conns: seq<Json>, rels: seq<Relationship>)
    ensures Adopt(refs, Adopt(refs, conns, rels), rels) == Adopt(refs, conns, rels)
  {
    var once := Adopt(refs, conns, rels);
    AdoptDraws(refs, conns, rels);
    AdoptDraws(refs, once, rels);
    forall p ensures p !in NewPairs(refs, once, rels) {
      NewPairsAre(refs, once, rels, p);
      NewPairsAre(refs, conns, rels, p);
    }
    assert NewPairs(refs, once, rels) == {};
    assert once == Adopt(refs, once, rels)[..|once|];
  }

  // ----- What is drawn, said on the plan and the cards --------------------

  /** The plan relates one card of the sheet to another, under well-formed ids. */
  predicate Relates(refs: set<string>, r: Relationship, p: Pair) {
    && r.source.Some? && r.target.Some? && r.source.value != r.target.value
    && r.source.value in refs && r.target.value in refs
    && IsLabel(r.source.value) && |r.source.value| <= 63 && IsLabel(r.target.value) && |r.target.value| <= 63
    && p == (Str(r.source.value), Str(r.target.value))
  }

  /** After adoption a pair is drawn exactly when it was drawn before or the plan relates it. */
  lemma DrawnIff(refs: set<string>, conns: seq<Json>, rels: seq<Relationship>, p: Pair)
    ensures (exists c :: c in Adopt(refs, conns, rels) && Get(c, Key.From) == p.0 && Get(c, Key.To) == p.1) <==>
      || (exists c :: c in conns && Get(c, Key.From) == p.0 && Get(c, Key.To) == p.1)
      || (exists r :: r in rels && Relates(refs, r, p))
  {
    var out := Adopt(refs, conns, rels);
    AdoptDraws(refs, conns, rels);
    NewPairsAre(refs, conns, rels, p);
    assert p == (p.0, p.1);
    assert p in PairsOf(out) <==> exists c :: c in out && Get(c, Key.From) == p.0 && Get(c, Key.To) == p.1;
    assert p in PairsOf(conns) <==> exists c :: c in conns && Get(c, Key.From) == p.0 && Get(c, Key.To) == p.1;
    assert forall r :: r in rels ==> (Relates(refs, r, p) <==> Anchored(refs, r) && PairOfRel(r) == p);
  }

  /** An added connection: a fresh number, the two cards, and the caption's first 200 characters. */
  predicate Draws(refs: set<string>, r: Relationship, c: Json) {
    && Relates(refs, r, (Get(c, Key.From), Get(c, Key.To)))
    && Get(c, Key.Label) == Str(if |r.caption| <= 200 then r.caption else r.caption[..200])
    && Get(c, Key.Id).Str? && StartsConn(Get(c, Key.Id).s)
    && Has(c, Key.Id) && c.fields.Keys == {Key.Id, Key.From, Key.To, Key.Label}
  }

  predicate StartsConn(id: string) {
    "conn-" < id && forall i :: 5 <= i < |id| ==> '0' <= id[i] <= '9'
  }

  /** Every added connection draws a relationship of the plan between two cards of the sheet. */
  lemma {:induction false} AddedDraw(refs: set<string>, conns: seq<Json>, rels: seq<Relationship>, k: nat)
    requires |conns| <= k < |Adopt(refs, conns, rels)|
    ensures exists r :: r in rels && Draws(refs, r, Adopt(refs, conns, rels)[k])
    decreases |rels|
  {
    assert rels != [];
    var front, last := rels[..|rels| - 1], rels[|rels| - 1];
    var before := Adopt(refs, conns, front);
    if k < |before| {
      AddedDraw(refs, conns, front, k);
      var r :| r in front && Draws(refs, r, before[k]);
      assert r in rels;
    } else {
      var n := FreeFrom(ConnIds(before), 1);
      OneDraws(refs, last, n);
      assert last in rels;
    }
  }

  lemma OneDraws(refs: set<string>, r: Relationship, n: nat)
    requires Anchored(refs, r)
    ensures Draws(refs, r, Connection(n, r))
  {
    var id := ConnId(n);
    assert id[..5] == "conn-" && id[5..] == Decimal(n);
    assert forall i :: 5 <= i < |id| ==> id[i] == Decimal(n)[i - 5];
  }
}
