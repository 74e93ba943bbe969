/** Adoption on a sheet and on a document: when the result can still be saved
    (control-plane/nexus/plugin_api.py:5852-5878, 5929-5948). */
module Adoption {
  import opened Wrappers
  import opened Json
  import opened Labels
  import opened WorkspaceSpec
  import opened WorkspaceClean
  import opened Relationships

  // ----- Added connections are valid --------------------------------------

  lemma {:induction false} BelowCount(n: nat)
    requires n >= 1
    ensures |IdsBelow(n)| == n - 1
    decreases n
  {
    if n == 1 {
      assert IdsBelow(1) == {};
    } else {
      BelowCount(n - 1);
      IdsBelowNext(n - 1);
    }
  }

  lemma {:induction false} Fewer<T>(a: set<T>, b: set<T>)
    requires a <= b
    ensures |a| <= |b|
  {
    if a != {} {
      var x :| x in a;
      Fewer(a - {x}, b - {x});
    }
  }

  /** With n ids in use the search stops at n + 1 at the latest. */
  lemma FreeIsSmall(used: set<string>)
    ensures FreeFrom(used, 1) <= |used| + 1
  {
    var n := FreeFrom(used, 1);
    BelowCount(n);
    assert IdsBelow(n) <= used;
    Fewer(IdsBelow(n), used);
  }

  lemma {:induction false} IdsAreNoMore(conns: seq<Json>)
    ensures |ConnIds(conns)| <= |conns|
    decreases |conns|
  {
    if conns == [] {
      assert ConnIds(conns) == {};
    } else {
      var front, last := conns[..|conns| - 1], conns[|conns| - 1];
      IdsAreNoMore(front);
      assert conns == front + [last];
      assert ConnIds(conns) == ConnIds(front) + {IdOf(last)};
    }
  }

  lemma ShortId(n: nat)
    requires n < 1000
    ensures IdOk(Str(ConnId(n)))
  {
    var s := Decimal(n);
    if n >= 10 { assert |Decimal(n / 10)| <= 2; }
    assert |s| <= 3 && ConnId(n) == "conn-" + s;
    assert forall i :: 0 <= i < |s| ==> ConnId(n)[5 + i] == s[i];
  }

  lemma ConnectionIsOk(n: nat, r: Relationship, refs: set<string>)
    requires n < 1000 && Anchored(refs, r)
    ensures ConnectionOk(Connection(n, r))
  {
    ShortId(n);
    var c := Connection(n, r);
    assert c.fields.Keys - {Key.Kind, Key.Arrows} == {Key.Id, Key.From, Key.To, Key.Label};
  }

  predicate AllConnectionsOk(conns: seq<Json>) { forall i :: 0 <= i < |conns| ==> ConnectionOk(conns[i]) }

  lemma OneAddedIsOk(refs: set<string>, conns: seq<Json>, r: Relationship)
    requires |conns| < MAX_CONNECTIONS && Anchored(refs, r)
    ensures ConnectionOk(Connection(FreeFrom(ConnIds(conns), 1), r))
  {
    FreeIsSmall(ConnIds(conns));
    IdsAreNoMore(conns);
    ConnectionIsOk(FreeFrom(ConnIds(conns), 1), r, refs);
  }

  lemma {:induction false} AddedAreOk(refs: set<string>, conns: seq<Json>, rels: seq<Relationship>)
    requires AllConnectionsOk(conns) && |Adopt(refs, conns, rels)| <= MAX_CONNECTIONS
    ensures AllConnectionsOk(Adopt(refs, conns, rels))
    decreases |rels|
  {
    if rels != [] {
      var front, r := rels[..|rels| - 1], rels[|rels| - 1];
      var before := Adopt(refs, conns, front);
      OneAddedIsNew(refs, before, r);
      AddedAreOk(refs, conns, front);
      if AdoptOne(refs, before, r) != before {
        OneAddedIsOk(refs, before, r);
      }
    }
  }

  // ----- Sheets -----------------------------------------------------------

  function Items(v: Json): seq<Json> { if v.List? then v.items else [] }

  /** The components a sheet shows. */
  function RefsOf(sheet: Json): set<string> { set c | c in Items(ListAt(sheet, Key.Cards)) :: TextOf(Get(c, Key.Ref)) }

  function Conns(sheet: Json): seq<Json> { Items(ListAt(sheet, Key.Connections)) }

  function AdoptSheet(sheet: Json, rels: seq<Relationship>): Json {
    if sheet.Obj? then Obj(sheet.fields[Key.Connections := List(Adopt(RefsOf(sheet), Conns(sheet), rels))]) else sheet
  }

  /** The existing connections and the pairs to adopt fit the cap together. */
  predicate Fits(sheet: Json, rels: seq<Relationship>) {
    |Conns(sheet)| + |NewPairs(RefsOf(sheet), Conns(sheet), rels)| <= MAX_CONNECTIONS
  }

  lemma AdoptSheetAt(sheet: Json, rels: seq<Relationship>, key: Key)
    requires sheet.Obj? && !key.Connections?
    ensures Get(AdoptSheet(sheet, rels), key) == Get(sheet, key)
    ensures forall d :: GetOr(AdoptSheet(sheet, rels), key, d) == GetOr(sheet, key, d)
  {
  }

  lemma AdoptKeepsHead(sheet: Json, rels: seq<Relationship>)
    requires SheetHeadOk(sheet)
    ensures SheetHeadOk(AdoptSheet(sheet, rels)) && IdOf(AdoptSheet(sheet, rels)) == IdOf(sheet)
  {
    AdoptSheetAt(sheet, rels, Key.Id);
    AdoptSheetAt(sheet, rels, Key.Name);
    AdoptSheetAt(sheet, rels, Key.Mode);
    AdoptSheetAt(sheet, rels, Key.Viewport);
    AdoptSheetAt(sheet, rels, Key.Settings);
    assert AdoptSheet(sheet, rels).fields.Keys == sheet.fields.Keys + {Key.Connections};
  }

  lemma AdoptedListOkIff(refs: set<string>, conns: seq<Json>, rels: seq<Relationship>)
    requires ItemsOk(List(conns), MAX_CONNECTIONS, ConnectionOk, IdOf)
    ensures ItemsOk(List(Adopt(refs, conns, rels)), MAX_CONNECTIONS, ConnectionOk, IdOf)
            <==> |conns| + |NewPairs(refs, conns, rels)| <= MAX_CONNECTIONS
  {
    AdoptDraws(refs, conns, rels);
    if |conns| + |NewPairs(refs, conns, rels)| <= MAX_CONNECTIONS {
      AddedAreOk(refs, conns, rels);
    }
  }

  /** A valid sheet is still valid after adoption exactly when everything fits the cap. */
  lemma AdoptedSheetOkIff(env: Env, sheet: Json, rels: seq<Relationship>)
    requires SheetOk(env, sheet)
    ensures SheetOk(env, AdoptSheet(sheet, rels)) <==> Fits(sheet, rels)
    ensures IdOf(AdoptSheet(sheet, rels)) == IdOf(sheet)
  {
    AdoptKeepsHead(sheet, rels);
    AdoptSheetAt(sheet, rels, Key.Cards);
    AdoptSheetAt(sheet, rels, Key.Objects);
    AdoptSheetAt(sheet, rels, Key.Shapes);
    AdoptSheetAt(sheet, rels, Key.Texts);
    AdoptSheetAt(sheet, rels, Key.Notes);
    AdoptSheetAt(sheet, rels, Key.Groups);
    AdoptedListOkIff(RefsOf(sheet), Conns(sheet), rels);
    assert ListAt(sheet, Key.Connections) == List(Conns(sheet));
  }

  // ----- Documents --------------------------------------------------------

  function AdoptSheets(sheets: seq<Json>, rels: seq<Relationship>): seq<Json> {
    seq(|sheets|, i requires 0 <= i < |sheets| => AdoptSheet(sheets[i], rels))
  }

  /** Every sheet adopts what its own cards can anchor, and the document is marked. */
  function AdoptDocument(doc: Json, rels: seq<Relationship>): Json
    requires doc.Obj?
  {
    Obj(doc.fields[Key.Sheets := List(AdoptSheets(Items(ListAt(doc, Key.Sheets)), rels))]
                  [Key.AdoptedRelationships := Bool(true)])
  }

  predicate AllFit(doc: Json, rels: seq<Relationship>) {
    var sheets := Items(ListAt(doc, Key.Sheets));
    forall i :: 0 <= i < |sheets| ==> Fits(sheets[i], rels)
  }

  lemma AdoptedSheetsOkIff(env: Env, sheets: seq<Json>, rels: seq<Relationship>)
    requires AllSheetsOk(env, sheets) && DistinctIds(sheets)
    ensures DistinctIds(AdoptSheets(sheets, rels))
    ensures AllSheetsOk(env, AdoptSheets(sheets, rels)) <==> forall i :: 0 <= i < |sheets| ==> Fits(sheets[i], rels)
  {
    var adopted := AdoptSheets(sheets, rels);
    forall i | 0 <= i < |sheets|
      ensures IdOf(adopted[i]) == IdOf(sheets[i]) && (SheetOk(env, adopted[i]) <==> Fits(sheets[i], rels))
    {
      AdoptedSheetOkIff(env, sheets[i], rels);
    }
  }

  /** A read that adopts returns a document its reader can save again exactly when every
      sheet's connections and new pairs fit the cap. */
  lemma AdoptedDocumentOkIff(env: Env, doc: Json, rels: seq<Relationship>)
    requires WorkspaceOk(env, doc)
    ensures WorkspaceOk(env, AdoptDocument(doc, rels)) <==> AllFit(doc, rels)
  {
    var adopted, sheets := AdoptDocument(doc, rels), Items(ListAt(doc, Key.Sheets));
    AdoptedSheetsOkIff(env, sheets, rels);
    assert ListAt(adopted, Key.Sheets) == List(AdoptSheets(sheets, rels));
    assert adopted.fields.Keys == doc.fields.Keys + {Key.Sheets, Key.AdoptedRelationships};
    assert WorkspaceHeadOk(adopted);
  }
  // ----- One connection too many ------------------------------------------

  function ExampleCard(ref: string): Json {
    Obj(map[Key.Ref := Str(ref), Key.Position := Obj(map[Key.X := Int(0), Key.Y := Int(0)])])
  }

  const ELSEWHERE := Relationship(Some("x"), Some("y"), "")

  /** As many connections as the cap allows, all between `x` and `y`. */
  function FullConnections(): (conns: seq<Json>)
    ensures |conns| == MAX_CONNECTIONS && forall i :: 0 <= i < |conns| ==> conns[i] == Connection(i + 1, ELSEWHERE)
  {
    seq(MAX_CONNECTIONS, i requires 0 <= i < MAX_CONNECTIONS => Connection(i + 1, ELSEWHERE))
  }

  function FullSheet(conns: seq<Json>): Json {
    Obj(map[Key.Id := Str("s"), Key.Name := Str("s"),
            Key.Cards := List([ExampleCard("a"), ExampleCard("b")]), Key.Connections := List(conns)])
  }

  function FullDocument(sheet: Json): Json {
    Obj(map[Key.ApiVersion := Str(API_VERSION), Key.Kind := Str(KIND), Key.Sheets := List([sheet])])
  }

  lemma FullConnectionsAreOk(conns: seq<Json>)
    requires conns == FullConnections()
    ensures ItemsOk(List(conns), MAX_CONNECTIONS, ConnectionOk, IdOf)
    ensures PairsOf(conns) <= {(Str("x"), Str("y"))}
  {
    forall i | 0 <= i < |conns| ensures ConnectionOk(conns[i]) && IdOf(conns[i]) == ConnId(i + 1) {
      ConnectionIsOk(i + 1, ELSEWHERE, {"x", "y"});
    }
    forall i, j | 0 <= i < j < |conns| ensures IdOf(conns[i]) != IdOf(conns[j]) {
      ConnIdIsInjective(i + 1, j + 1);
    }
  }

  lemma ExampleCardsAreOk(cards: seq<Json>)
    requires cards == [ExampleCard("a"), ExampleCard("b")]
    ensures ItemsOk(List(cards), MAX_CARDS, CardOk, CardKey)
  {
    forall i | 0 <= i < |cards| ensures CardOk(cards[i]) {
      var card := cards[i];
      assert card.fields.Keys - {Key.DisplayMode, Key.Id} == {Key.Ref, Key.Position};
      assert Get(card, Key.Position).fields.Keys - {} == {Key.X, Key.Y};
    }
    assert CardKey(cards[0]) == "a" && CardKey(cards[1]) == "b";
  }

  lemma FullSheetIsOk(env: Env, conns: seq<Json>)
    requires conns == FullConnections()
    ensures SheetOk(env, FullSheet(conns)) && RefsOf(FullSheet(conns)) == {"a", "b"}
  {
    FullSheetHead(conns);
    FullSheetLists(env, conns);
    ExampleRefs(FullSheet(conns));
  }

  lemma FullSheetHead(conns: seq<Json>)
    ensures SheetHeadOk(FullSheet(conns))
  {
    var sheet := FullSheet(conns);
    assert !IsBlank('s') && Get(sheet, Key.Name).s[0] == 's';
    assert "operational" == ["operational", "concept"][0];
  }

  lemma FullSheetLists(env: Env, conns: seq<Json>)
    requires conns == FullConnections()
    ensures SheetListsOk(env, FullSheet(conns))
  {
    FullConnectionsAreOk(conns);
    ExampleCardsAreOk([ExampleCard("a"), ExampleCard("b")]);
  }

  lemma ExampleRefs(sheet: Json)
    requires ListAt(sheet, Key.Cards) == List([ExampleCard("a"), ExampleCard("b")])
    ensures RefsOf(sheet) == {"a", "b"}
  {
    var cards := Items(ListAt(sheet, Key.Cards));
    assert cards == [cards[0], cards[1]];
    assert TextOf(Get(cards[0], Key.Ref)) == "a" && TextOf(Get(cards[1], Key.Ref)) == "b";
  }

  lemma FullSheetDoesNotFit(conns: seq<Json>, r: Relationship)
    requires conns == FullConnections() && r == Relationship(Some("a"), Some("b"), "")
    requires RefsOf(FullSheet(conns)) == {"a", "b"}
    ensures !Fits(FullSheet(conns), [r])
  {
    FullConnectionsAreOk(conns);
    NewPairsAre({"a", "b"}, conns, [r], PairOfRel(r));
    assert r in [r] && Anchored({"a", "b"}, r);
    assert PairOfRel(r) in NewPairs({"a", "b"}, conns, [r]);
  }

  lemma DefaultIsAnId()
    ensures IdOk(Str("default"))
  {
  }

  lemma FullDocumentHead(sheet: Json)
    ensures WorkspaceHeadOk(FullDocument(sheet)) && ListAt(FullDocument(sheet), Key.Sheets) == List([sheet])
  {
    var doc := FullDocument(sheet);
    DefaultIsAnId();
    assert doc.fields.Keys == {Key.ApiVersion, Key.Kind, Key.Sheets};
  }

  lemma OneSheetOk(env: Env, sheet: Json)
    requires SheetOk(env, sheet)
    ensures SheetsOk(env, List([sheet]))
  {
  }

  lemma OneSheetDocument(env: Env, sheet: Json, rels: seq<Relationship>)
    requires SheetOk(env, sheet)
    ensures WorkspaceOk(env, FullDocument(sheet)) && (AllFit(FullDocument(sheet), rels) <==> Fits(sheet, rels))
  {
    FullDocumentHead(sheet);
    OneSheetOk(env, sheet);
    var sheets := Items(ListAt(FullDocument(sheet), Key.Sheets));
    assert |sheets| == 1 && sheets[0] == sheet;
  }

  /** A full sheet with two cards `a` and `b`, and a plan in which `a` uses `b`: a valid
      document that comes back from a read as one the validator refuses. */
  lemma OneTooManyExample(env: Env)
    ensures var doc := FullDocument(FullSheet(FullConnections()));
      WorkspaceOk(env, doc) && !WorkspaceOk(env, AdoptDocument(doc, [Relationship(Some("a"), Some("b"), "")]))
  {
    OneTooMany(env, FullConnections(), Relationship(Some("a"), Some("b"), ""));
  }

  lemma OneTooMany(env: Env, conns: seq<Json>, r: Relationship)
    requires conns == FullConnections() && r == Relationship(Some("a"), Some("b"), "")
    ensures var doc := FullDocument(FullSheet(conns));
      WorkspaceOk(env, doc) && !WorkspaceOk(env, AdoptDocument(doc, [r]))
  {
    FullSheetIsOk(env, conns);
    FullSheetDoesNotFit(conns, r);
    OneSheetDocument(env, FullSheet(conns), [r]);
    AdoptedDocumentOkIff(env, FullDocument(FullSheet(conns)), [r]);
  }
}
