/** Strings as the sources cut and glue them: `str.split` / `str.join` on one
    separator character, prefixes, stripping, and order. */
module Text {

  /** `s.split(sep)`: never empty, and no piece contains the separator. */
  function Split(s: string, sep: char): (pieces: seq<string>)
    ensures |pieces| >= 1
    ensures forall i :: 0 <= i < |pieces| ==> sep !in pieces[i]
  {
    if s == "" then [""] else Prepend(s[0], Split(s[1..], sep), sep)
  }

  /** One more character in front of the pieces; a separator opens an empty one. */
  function Prepend(c: char, pieces: seq<string>, sep: char): seq<string>
    requires pieces != []
  {
    if c == sep then [""] + pieces else [[c] + pieces[0]] + pieces[1..]
  }

  /** `sep.join(pieces)`. */
  function Join(pieces: seq<string>, sep: char): string {
    if |pieces| == 0 then ""
    else if |pieces| == 1 then pieces[0]
    else pieces[0] + [sep] + Join(pieces[1..], sep)
  }

  predicate StartsWith(s: string, prefix: string) {
    |prefix| <= |s| && s[..|prefix|] == prefix
  }

  lemma {:induction false} SplitPlain(s: string, sep: char)
    requires sep !in s
    ensures Split(s, sep) == [s]
  {
    if s != "" {
      SplitPlain(s[1..], sep);
      assert [s[0]] + s[1..] == s;
    }
  }

  /** Splitting is compositional at a separator. */
  lemma {:induction false} SplitAppend(a: string, b: string, sep: char)
    ensures Split(a + [sep] + b, sep) == Split(a, sep) + Split(b, sep)
  {
    var whole := a + [sep] + b;
    if a == "" {
      assert whole[1..] == b;
    } else {
      assert whole[1..] == a[1..] + [sep] + b;
      SplitAppend(a[1..], b, sep);
      PrependAppend(a[0], Split(a[1..], sep), Split(b, sep), sep);
    }
  }

  lemma PrependAppend(c: char, a: seq<string>, b: seq<string>, sep: char)
    requires a != []
    ensures Prepend(c, a + b, sep) == Prepend(c, a, sep) + b
  {
    assert (a + b)[1..] == a[1..] + b;
  }

  lemma {:induction false} JoinAppend(a: seq<string>, b: seq<string>, sep: char)
    requires a != [] && b != []
    ensures Join(a + b, sep) == Join(a, sep) + [sep] + Join(b, sep)
  {
    assert (a + b)[1..] == a[1..] + b;
    if |a| > 1 {
      JoinAppend(a[1..], b, sep);
      assert a[0] + [sep] + (Join(a[1..], sep) + [sep] + Join(b, sep))
          == (a[0] + [sep] + Join(a[1..], sep)) + [sep] + Join(b, sep);
    } else {
      assert a + b == [a[0]] + b;
      assert (a + b)[1..] == b;
    }
  }

  lemma {:induction false} SplitOfJoin(pieces: seq<string>, sep: char)
    requires pieces != []
    requires forall i :: 0 <= i < |pieces| ==> sep !in pieces[i]
    ensures Split(Join(pieces, sep), sep) == pieces
  {
    if |pieces| == 1 {
      SplitPlain(pieces[0], sep);
    } else {
      SplitOfJoin(pieces[1..], sep);
      SplitAppend(pieces[0], Join(pieces[1..], sep), sep);
      SplitPlain(pieces[0], sep);
    }
  }

  lemma {:induction false} JoinOfSplit(s: string, sep: char)
    ensures Join(Split(s, sep), sep) == s
  {
    if s != "" {
      JoinOfSplit(s[1..], sep);
      var rest := Split(s[1..], sep);
      if s[0] == sep {
        assert ([""] + rest)[1..] == rest;
      } else {
        var all := [[s[0]] + rest[0]] + rest[1..];
        if |rest| > 1 { assert all[1..] == rest[1..]; }
      }
    }
  }

  lemma SplitOfExtension(whole: string, pre: string, sep: char)
    requires StartsWith(whole, pre + [sep])
    ensures Split(pre, sep) < Split(whole, sep)
  {
    var tail := whole[|pre| + 1..];
    assert whole == pre + [sep] + tail;
    SplitAppend(pre, tail, sep);
  }

  lemma JoinOfExtension(pieces: seq<string>, pre: string, sep: char)
    requires Split(pre, sep) <= pieces
    ensures if Split(pre, sep) == pieces then Join(pieces, sep) == pre else StartsWith(Join(pieces, sep), pre + [sep])
  {
    var cut := Split(pre, sep);
    var rest := pieces[|cut|..];
    assert pieces == cut + rest;
    JoinOfSplit(pre, sep);
    if rest == [] {
      assert pieces == cut;
    } else {
      JoinAppend(cut, rest, sep);
      assert Join(pieces, sep) == (pre + [sep]) + Join(rest, sep);
    }
  }

  /** A prefix test at a separator boundary is a prefix test on the pieces. */
  lemma PrefixAtBoundary(pieces: seq<string>, pre: string, sep: char)
    requires pre != ""
    requires forall i :: 0 <= i < |pieces| ==> sep !in pieces[i]
    ensures (Join(pieces, sep) == pre || StartsWith(Join(pieces, sep), pre + [sep])) <==> Split(pre, sep) <= pieces
  {
    if Split(pre, sep) <= pieces {
      JoinOfExtension(pieces, pre, sep);
    }
    if pieces != [] {
      SplitOfJoin(pieces, sep);
      if StartsWith(Join(pieces, sep), pre + [sep]) {
        SplitOfExtension(Join(pieces, sep), pre, sep);
      }
    }
  }

  /** The strict form: something follows the separator. */
  lemma StrictPrefixAtBoundary(pieces: seq<string>, pre: string, sep: char)
    requires pre != ""
    requires forall i :: 0 <= i < |pieces| ==> sep !in pieces[i]
    ensures StartsWith(Join(pieces, sep), pre + [sep]) <==> Split(pre, sep) < pieces
  {
    if Split(pre, sep) < pieces {
      JoinOfExtension(pieces, pre, sep);
    }
    if StartsWith(Join(pieces, sep), pre + [sep]) {
      SplitOfJoin(pieces, sep);
      SplitOfExtension(Join(pieces, sep), pre, sep);
    }
  }
}
