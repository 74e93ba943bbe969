/** Layered configuration mappings (cli/src/lib.ts:545-568). */
module DeepMerge {
  import opened Wrappers

  /** A mapping, or anything else: a scalar, null or a list, told apart by its text. */
  datatype Value = Mapping(entries: map<string, Value>) | Other(text: string)

  type Path = seq<string>

  /** The two layers merged: mappings key by key, everything else replaced by the right. */
  function Merge(a: Value, b: Value): Value
    decreases b
  {
    if a.Mapping? && b.Mapping? then
      Mapping(map k | k in a.entries.Keys + b.entries.Keys ::
        if k !in b.entries then a.entries[k]
        else if k !in a.entries then b.entries[k]
        else Merge(a.entries[k], b.entries[k]))
    else b
  }

  /** `deepMerge`. */
  method Deepen(a: Value, b: Value) returns (out: Value)
    requires a.Mapping? && b.Mapping?
    ensures out == Merge(a, b)
    decreases b, 0
  {
    var merged, rest := a.entries, b.entries.Keys;
    while rest != {}
      invariant Partway(a, b, merged, rest)
      decreases |rest|
    {
      var key :| key in rest;
      var value := MergeKey(if key in merged then Some(merged[key]) else None, b.entries[key]);
      PartwayStep(a, b, merged, rest, key, value);
      merged, rest := merged[key := value], rest - {key};
    }
    PartwayDone(a, b, merged);
    out := Mapping(merged);
  }

  /** The right layer's keys have been merged in, all but the rest. */
  ghost predicate Partway(a: Value, b: Value, merged: map<string, Value>, rest: set<string>) {
    && a.Mapping? && b.Mapping? && rest <= b.entries.Keys
    && merged.Keys == a.entries.Keys + (b.entries.Keys - rest)
    && forall k :: k in merged ==>
         merged[k] == if k in b.entries && k !in rest then Merge(a, b).entries[k] else a.entries[k]
  }

  lemma PartwayStep(a: Value, b: Value, merged: map<string, Value>, rest: set<string>, key: string, value: Value)
    requires Partway(a, b, merged, rest) && key in rest
    requires value == if key in merged then Merge(merged[key], b.entries[key]) else b.entries[key]
    ensures Partway(a, b, merged[key := value], rest - {key})
  {
    Under(a, b, key);
  }

  lemma PartwayDone(a: Value, b: Value, merged: map<string, Value>)
    requires Partway(a, b, merged, {})
    ensures Mapping(merged) == Merge(a, b)
  {
    forall k | k in merged ensures merged[k] == Merge(a, b).entries[k] {
      Under(a, b, k);
    }
    assert merged == Merge(a, b).entries;
  }

  /** One key of the right layer. */
  method MergeKey(prev: Option<Value>, value: Value) returns (v: Value)
    ensures v == if prev.Some? then Merge(prev.value, value) else value
    decreases value
  {
    if prev.Some? && prev.value.Mapping? && value.Mapping? {
      v := Deepen(prev.value, value);
    } else {
      v := value;
    }
  }

  /** What a merge holds under one key. */
  lemma Under(a: Value, b: Value, k: string)
    requires a.Mapping? && b.Mapping? && (k in a.entries || k in b.entries)
    ensures k in Merge(a, b).entries
    ensures Merge(a, b).entries[k] == if k !in b.entries then a.entries[k]
                                      else if k !in a.entries then b.entries[k]
                                      else Merge(a.entries[k], b.entries[k])
  {
  }

  // ----- What a merge means, path by path ---------------------------------

  datatype Shape = Absent | Inner | Leaf(text: string)

  function At(v: Value, p: Path): Option<Value>
    decreases |p|
  {
    if p == [] then Some(v)
    else if v.Mapping? && p[0] in v.entries then At(v.entries[p[0]], p[1..])
    else None
  }

  function ShapeAt(v: Value, p: Path): Shape {
    match At(v, p)
    case None => Absent
    case Some(Mapping(_)) => Inner
    case Some(Other(text)) => Leaf(text)
  }

  /** The path runs into something that is not a mapping, at its end or before. */
  predicate Cut(v: Value, p: Path)
    decreases |p|
  {
    v.Other? || (p != [] && p[0] in v.entries && Cut(v.entries[p[0]], p[1..]))
  }

  /** The right layer decides every path it says anything about, by holding it or by cutting
      it off; the left layer decides the rest. */
  lemma {:induction false} MergePathwise(a: Value, b: Value, p: Path)
    ensures ShapeAt(Merge(a, b), p) == if Cut(b, p) || ShapeAt(b, p) != Absent then ShapeAt(b, p) else ShapeAt(a, p)
    decreases |p|
  {
    if p != [] && a.Mapping? && b.Mapping? && p[0] in a.entries && p[0] in b.entries {
      MergePathwise(a.entries[p[0]], b.entries[p[0]], p[1..]);
    }
  }

  ghost predicate SameShapes(a: Value, b: Value) { forall p: Path :: ShapeAt(a, p) == ShapeAt(b, p) }

  /** The shapes along all paths determine a value, so the lemma above determines the merge. */
  lemma {:induction false} ShapesDetermine(a: Value, b: Value)
    ensures a == b <==> SameShapes(a, b)
    decreases a
  {
    if SameShapes(a, b) {
      assert ShapeAt(a, []) == ShapeAt(b, []);
      if a.Mapping? {
        forall k ensures k in a.entries <==> k in b.entries {
          Step(a, [k]);
          Step(b, [k]);
          assert ShapeAt(a, [k]) == ShapeAt(b, [k]);
        }
        forall k | k in a.entries ensures a.entries[k] == b.entries[k] {
          forall p: Path ensures ShapeAt(a.entries[k], p) == ShapeAt(b.entries[k], p) {
            assert ([k] + p)[1..] == p;
            assert ShapeAt(a, [k] + p) == ShapeAt(b, [k] + p);
          }
          ShapesDetermine(a.entries[k], b.entries[k]);
        }
        assert a.entries == b.entries;
      }
    }
  }

  lemma Step(v: Value, p: Path)
    requires |p| == 1
    ensures ShapeAt(v, p) != Absent <==> v.Mapping? && p[0] in v.entries
  {
    assert v.Mapping? && p[0] in v.entries ==> At(v.entries[p[0]], p[1..]) == Some(v.entries[p[0]]);
  }

  // ----- Algebra ----------------------------------------------------------

  const EMPTY := Mapping(map[])

  lemma EmptyIsIdentity(a: Value)
    requires a.Mapping?
    ensures Merge(EMPTY, a) == a && Merge(a, EMPTY) == a
  {
    assert Merge(EMPTY, a).entries == a.entries;
    assert Merge(a, EMPTY).entries == a.entries;
  }

  /** The left layer adds nothing: the right one says something about all of its paths. */
  ghost predicate Covers(b: Value, a: Value) {
    forall p: Path :: ShapeAt(a, p) != Absent ==> Cut(b, p) || ShapeAt(b, p) != Absent
  }

  lemma AbsorbedIff(a: Value, b: Value)
    ensures Merge(a, b) == b <==> Covers(b, a)
  {
    ShapesDetermine(Merge(a, b), b);
    forall p: Path ensures ShapeAt(Merge(a, b), p) == ShapeAt(b, p) <==>
                           (ShapeAt(a, p) != Absent ==> Cut(b, p) || ShapeAt(b, p) != Absent)
    {
      MergePathwise(a, b, p);
    }
  }

  /** Applying a layer twice is applying it once. */
  lemma MergeIsIdempotent(a: Value, b: Value)
    ensures Merge(b, b) == b && Merge(Merge(a, b), b) == Merge(a, b)
  {
    ShapesDetermine(Merge(b, b), b);
    ShapesDetermine(Merge(Merge(a, b), b), Merge(a, b));
    forall p: Path ensures ShapeAt(Merge(b, b), p) == ShapeAt(b, p)
    {
      MergePathwise(b, b, p);
      CutIsAbsent(b, p);
    }
    forall p: Path ensures ShapeAt(Merge(Merge(a, b), b), p) == ShapeAt(Merge(a, b), p) {
      MergePathwise(a, b, p);
      MergePathwise(Merge(a, b), b, p);
    }
  }

  lemma CutIsAbsent(v: Value, p: Path)
    ensures ShapeAt(v, p) == Inner ==> !Cut(v, p)
    decreases |p|
  {
    if p != [] && v.Mapping? && p[0] in v.entries {
      CutIsAbsent(v.entries[p[0]], p[1..]);
    }
  }

  // ----- Associativity ----------------------------------------------------

  /** A mapping, then something else, then a mapping again at one path. */
  predicate Clash(a: Value, b: Value, c: Value, p: Path) {
    ShapeAt(a, p) == Inner && ShapeAt(b, p).Leaf? && ShapeAt(c, p) == Inner
  }

  ghost predicate ClashesAreHarmless(a: Value, b: Value, c: Value) {
    forall p: Path :: Clash(a, b, c, p) ==> Covers(At(c, p).value, At(a, p).value)
  }

  lemma {:induction false} ClashBelow(a: Value, b: Value, c: Value, k: string, p: Path)
    requires a.Mapping? && b.Mapping? && c.Mapping? && k in a.entries && k in b.entries && k in c.entries
    ensures Clash(a, b, c, [k] + p) <==> Clash(a.entries[k], b.entries[k], c.entries[k], p)
    ensures At(a, [k] + p) == At(a.entries[k], p) && At(c, [k] + p) == At(c.entries[k], p)
  {
    assert ([k] + p)[1..] == p;
  }

  lemma HarmlessBelow(a: Value, b: Value, c: Value)
    requires a.Mapping? && b.Mapping? && c.Mapping?
    ensures ClashesAreHarmless(a, b, c) <==>
            forall k :: k in a.entries && k in b.entries && k in c.entries ==>
              ClashesAreHarmless(a.entries[k], b.entries[k], c.entries[k])
  {
    if ClashesAreHarmless(a, b, c) {
      forall k, p: Path |
        k in a.entries && k in b.entries && k in c.entries && Clash(a.entries[k], b.entries[k], c.entries[k], p)
        ensures Covers(At(c.entries[k], p).value, At(a.entries[k], p).value)
      {
        ClashBelow(a, b, c, k, p);
      }
    }
    forall p: Path | Clash(a, b, c, p) && (forall k :: k in a.entries && k in b.entries && k in c.entries ==>
              ClashesAreHarmless(a.entries[k], b.entries[k], c.entries[k]))
      ensures Covers(At(c, p).value, At(a, p).value)
    {
      assert p != [] && [p[0]] + p[1..] == p;
      ClashBelow(a, b, c, p[0], p[1..]);
    }
  }

  /** Three layers can be merged in either grouping exactly when, at every path that holds a
      mapping, then something else, then a mapping, the last mapping covers the first: one
      grouping forgets the first mapping, the other brings it back. */
  lemma {:induction false} AssociativeIff(a: Value, b: Value, c: Value)
    ensures Merge(Merge(a, b), c) == Merge(a, Merge(b, c)) <==> ClashesAreHarmless(a, b, c)
    decreases c
  {
    if a.Mapping? && b.Mapping? && c.Mapping? {
      HarmlessBelow(a, b, c);
      AssociatesBelow(a, b, c);
      forall k | k in a.entries && k in b.entries && k in c.entries
        ensures Associates(a.entries[k], b.entries[k], c.entries[k])
           <==> ClashesAreHarmless(a.entries[k], b.entries[k], c.entries[k])
      {
        AssociativeIff(a.entries[k], b.entries[k], c.entries[k]);
      }
    } else {
      NotAllMappings(a, b, c);
    }
  }

  predicate Associates(a: Value, b: Value, c: Value) { Merge(Merge(a, b), c) == Merge(a, Merge(b, c)) }

  /** Mappings associate exactly when they do under every key all three have. */
  lemma AssociatesBelow(a: Value, b: Value, c: Value)
    requires a.Mapping? && b.Mapping? && c.Mapping?
    ensures Associates(a, b, c) <==>
      forall k :: k in a.entries && k in b.entries && k in c.entries ==>
        Associates(a.entries[k], b.entries[k], c.entries[k])
  {
    var l, r := Merge(Merge(a, b), c), Merge(a, Merge(b, c));
    assert l.entries.Keys == r.entries.Keys;
    forall k | k in l.entries
      ensures l.entries[k] == r.entries[k] <==>
        (k in a.entries && k in b.entries && k in c.entries ==> Associates(a.entries[k], b.entries[k], c.entries[k]))
    {
    }
  }

  lemma NotAllMappings(a: Value, b: Value, c: Value)
    requires !(a.Mapping? && b.Mapping? && c.Mapping?)
    ensures Merge(Merge(a, b), c) == Merge(a, Merge(b, c)) <==> ClashesAreHarmless(a, b, c)
  {
    AbsorbedIff(a, c);
    assert forall p: Path :: p != [] ==> !Clash(a, b, c, p);
    assert Clash(a, b, c, []) <==> a.Mapping? && b.Other? && c.Mapping?;
    assert At(a, []) == Some(a) && At(c, []) == Some(c);
  }

  /** In particular when no path holds a mapping, something else and a mapping in turn. */
  lemma AssociativeWithoutClashes(a: Value, b: Value, c: Value)
    requires forall p: Path :: !Clash(a, b, c, p)
    ensures Merge(Merge(a, b), c) == Merge(a, Merge(b, c))
  {
    AssociativeIff(a, b, c);
  }

  /** One clash that is not harmless. */
  lemma GroupingMattersExample()
    ensures var a, b, c := Mapping(map["k" := Mapping(map["x" := Other("1")])]), Mapping(map["k" := Other("off")]),
                           Mapping(map["k" := EMPTY]);
      Merge(Merge(a, b), c) != Merge(a, Merge(b, c))
  {
    var inner := Mapping(map["x" := Other("1")]);
    var a, b, c := Mapping(map["k" := inner]), Mapping(map["k" := Other("off")]), Mapping(map["k" := EMPTY]);
    EmptyIsIdentity(inner);
    var ab, bc := Merge(a, b), Merge(b, c);
    Under(a, b, "k");
    Under(b, c, "k");
    Under(ab, c, "k");
    Under(a, bc, "k");
    assert Merge(ab, c).entries["k"] == EMPTY && Merge(a, bc).entries["k"] == inner;
    assert "x" in inner.entries;
  }
}
