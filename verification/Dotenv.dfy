/** The env overlay file: printing and parsing (cli/src/lib.ts:369-387, 405-417). */
module Dotenv {
  import opened Wrappers
  import opened Text
  import opened Sorting

  type Overlay = map<string, string>

  /** The white space that `String.prototype.trim` removes. */
  predicate IsSpace(c: char) {
    || '\t' <= c <= '\r' || c == ' ' || c == '\U{00A0}' || c == '\U{FEFF}'
    || c == '\U{1680}' || '\U{2000}' <= c <= '\U{200A}' || '\U{2028}' <= c <= '\U{2029}'
    || c == '\U{202F}' || c == '\U{205F}' || c == '\U{3000}'
  }

  function TrimLeft(s: string): (t: string)
    ensures |t| <= |s| && (t != "" ==> !IsSpace(t[0]))
  {
    if s != "" && IsSpace(s[0]) then TrimLeft(s[1..]) else s
  }

  function TrimRight(s: string): (t: string)
    ensures |t| <= |s| && t == s[..|t|] && (t != "" ==> !IsSpace(t[|t| - 1]))
  {
    if s != "" && IsSpace(s[|s| - 1]) then TrimRight(s[..|s| - 1]) else s
  }

  function Trim(s: string): string { TrimRight(TrimLeft(s)) }

  /** The first `=`, or -1. */
  function FirstEq(s: string): (i: int)
    ensures -1 <= i < |s| && (i >= 0 ==> s[i] == '=' && '=' !in s[..i])
    ensures i == -1 <==> '=' !in s
  {
    if s == "" then -1
    else if s[0] == '=' then 0
    else
      var rest := FirstEq(s[1..]);
      if rest == -1 then -1 else assert s[..rest + 1] == [s[0]] + s[1..][..rest]; rest + 1
  }

  predicate QuotedBy(v: string, q: char) { v != "" && v[0] == q && v[|v| - 1] == q }

  predicate Quoted(v: string) { QuotedBy(v, '"') || QuotedBy(v, '\'') }

  /** `slice(1, -1)` of a quoted value; a lone quote becomes empty. */
  function Unquote(v: string): string {
    if !Quoted(v) then v else if |v| == 1 then "" else v[1..|v| - 1]
  }

  const EXPORT := "export "

  function EntryOfBody(body: string): Option<(string, string)> {
    var eq := FirstEq(body);
    if eq <= 0 then None else Some((Trim(body[..eq]), Unquote(Trim(body[eq + 1..]))))
  }

  /** What one line contributes. */
  function EntryOfLine(line: string): Option<(string, string)> {
    var trimmed := Trim(line);
    if trimmed == "" || trimmed[0] == '#' then None
    else EntryOfBody(if StartsWith(trimmed, EXPORT) then Trim(trimmed[|EXPORT|..]) else trimmed)
  }

  type Entries = seq<Option<(string, string)>>

  function EntriesOf(lines: seq<string>): (entries: Entries)
    ensures |entries| == |lines| && forall i :: 0 <= i < |lines| ==> entries[i] == EntryOfLine(lines[i])
  {
    seq(|lines|, i requires 0 <= i < |lines| => EntryOfLine(lines[i]))
  }

  /** Later entries override earlier ones. */
  function Folded(entries: Entries): Overlay
    decreases |entries|
  {
    if entries == [] then map[]
    else
      var before, entry := Folded(entries[..|entries| - 1]), entries[|entries| - 1];
      if entry.Some? then before[entry.value.0 := entry.value.1] else before
  }

  function Parsed(lines: seq<string>): Overlay { Folded(EntriesOf(lines)) }

  function Parse(text: string): Overlay { Parsed(Split(text, '\n')) }

  /** The cut at the first `=` and the quotes. */
  method CutBody(body: string) returns (entry: Option<(string, string)>)
    ensures entry == EntryOfBody(body)
  {
    var eq := FirstEq(body);
    if eq <= 0 {
      return None;
    }
    var value := Trim(body[eq + 1..]);
    if QuotedBy(value, '"') || QuotedBy(value, '\'') {
      value := if |value| == 1 then "" else value[1..|value| - 1];
    }
    entry := Some((Trim(body[..eq]), value));
  }

  /** `parseDotenv`. */
  method ParseDotenv(text: string) returns (out: Overlay)
    ensures out == Parse(text)
  {
    out := map[];
    var lines := Split(text, '\n');
    ghost var entries := EntriesOf(lines);
    for i := 0 to |lines|
      invariant out == Folded(entries[..i])
    {
      assert entries[..i + 1][..i] == entries[..i];
      var trimmed := Trim(lines[i]);
      if trimmed == "" || trimmed[0] == '#' {
        continue;
      }
      if StartsWith(trimmed, EXPORT) {
        trimmed := Trim(trimmed[|EXPORT|..]);
      }
      var entry := CutBody(trimmed);
      if entry.Some? {
        out := out[entry.value.0 := entry.value.1];
      }
    }
    assert entries[..|lines|] == entries;
  }

  // ----- Printing ---------------------------------------------------------

  function LineOf(k: string, v: string): string { k + "=" + v }

  function LinesOf(order: seq<string>, m: Overlay): (lines: seq<string>)
    requires forall k :: k in order ==> k in m
    ensures |lines| == |order| && forall i :: 0 <= i < |order| ==> lines[i] == LineOf(order[i], m[order[i]])
  {
    seq(|order|, i requires 0 <= i < |order| => LineOf(order[i], m[order[i]]))
  }

  function Printed(order: seq<string>, m: Overlay): string
    requires forall k :: k in order ==> k in m
  {
    var body := Join(LinesOf(order, m), '\n');
    if body != "" then body + "\n" else ""
  }

  /** The order lists every key exactly once. */
  ghost predicate Lists(order: seq<string>, m: Overlay) {
    && (forall k :: k in order <==> k in m)
    && forall i, j :: 0 <= i < j < |order| ==> order[i] != order[j]
  }

  /** `saveEnvOverlay`'s body text: every key once, in string order. */
  method SaveEnvOverlay(m: Overlay) returns (text: string)
    ensures exists order :: Lists(order, m) && InOrder(AtMost, order) && text == Printed(order, m)
  {
    var keys: seq<string>, rest := [], m.Keys;
    while rest != {}
      invariant rest <= m.Keys && forall k :: k in keys <==> k in m.Keys - rest
      invariant forall i, j :: 0 <= i < j < |keys| ==> keys[i] != keys[j]
      decreases |rest|
    {
      var k :| k in rest;
      assert k !in keys;
      forall i | 0 <= i < |keys| ensures keys[i] != k {
        assert keys[i] in keys;
      }
      keys, rest := keys + [k], rest - {k};
    }
    SortedKeepsDistinct(keys);
    SortedHasTheSame(AtMost, keys);
    StringsAreTotallyOrdered();
    SortedIsInOrder(AtMost, keys);
    var order := Sorted(keys);
    assert Lists(order, m);
    text := Printed(order, m);
  }

  lemma SortedKeepsDistinct(keys: seq<string>)
    requires forall i, j :: 0 <= i < j < |keys| ==> keys[i] != keys[j]
    ensures forall i, j :: 0 <= i < j < |Sorted(keys)| ==> Sorted(keys)[i] != Sorted(keys)[j]
  {
    var sorted := Sorted(keys);
    SortedIsAPermutation(AtMost, keys);
    forall i, j | 0 <= i < j < |sorted| ensures sorted[i] != sorted[j] {
      OnceEach(keys, sorted[i]);
      TwiceAt(sorted, i, j);
    }
  }

  lemma {:induction false} OnceEach(keys: seq<string>, k: string)
    requires forall i, j :: 0 <= i < j < |keys| ==> keys[i] != keys[j]
    ensures multiset(keys)[k] <= 1
    decreases |keys|
  {
    if keys != [] {
      assert keys == keys[..|keys| - 1] + [keys[|keys| - 1]];
      OnceEach(keys[..|keys| - 1], k);
    }
  }

  lemma TwiceAt(s: seq<string>, i: nat, j: nat)
    requires i < j < |s|
    ensures s[i] == s[j] ==> multiset(s)[s[i]] >= 2
  {
    assert s == s[..j] + [s[j]] + s[j + 1..];
    assert s[..j][i] == s[i] && s[i] in multiset(s[..j]);
  }

  // ----- Trimming ---------------------------------------------------------

  predicate IsTrimmed(s: string) { s == "" || (!IsSpace(s[0]) && !IsSpace(s[|s| - 1])) }

  lemma TrimIsTrimmed(s: string)
    ensures IsTrimmed(Trim(s)) && |Trim(s)| <= |s|
    ensures Trim(s) == s <==> IsTrimmed(s)
  {
    var l := TrimLeft(s);
    assert Trim(s) == l[..|Trim(s)|];
    assert IsTrimmed(s) ==> l == s;
  }

  lemma {:induction false} TrimParts(s: string, c: char)
    ensures c in Trim(s) ==> c in s
  {
    TrimLeftParts(s, c);
  }

  lemma {:induction false} TrimLeftParts(s: string, c: char)
    ensures c in TrimLeft(s) ==> c in s
  {
    if s != "" && IsSpace(s[0]) {
      TrimLeftParts(s[1..], c);
    }
  }

  // ----- The round trip ---------------------------------------------------

  /** Entries that survive: a caller can check this before saving. */
  predicate EntryOk(k: string, v: string) {
    && k != "" && IsTrimmed(k) && '=' !in k && '\n' !in k
    && k[0] != '#' && !StartsWith(k, EXPORT)
    && IsTrimmed(v) && '\n' !in v && !Quoted(v)
  }

  /** What any parsed key looks like. */
  predicate KeyShape(k: string) { k != "" && IsTrimmed(k) && '=' !in k }

  lemma BodyShape(body: string)
    requires IsTrimmed(body)
    ensures EntryOfBody(body).Some? ==> KeyShape(EntryOfBody(body).value.0)
  {
    var eq := FirstEq(body);
    if eq > 0 {
      var key := body[..eq];
      assert key[0] == body[0] && TrimLeft(key) == key;
      KeepsFirst(key);
      TrimIsTrimmed(key);
      TrimParts(key, '=');
    }
  }

  lemma ParsedKeyShape(line: string)
    ensures EntryOfLine(line).Some? ==> KeyShape(EntryOfLine(line).value.0)
  {
    var trimmed := Trim(line);
    TrimIsTrimmed(line);
    if StartsWith(trimmed, EXPORT) {
      TrimIsTrimmed(trimmed[|EXPORT|..]);
      BodyShape(Trim(trimmed[|EXPORT|..]));
    } else {
      BodyShape(trimmed);
    }
  }

  lemma BodyParts(body: string, c: char)
    requires c !in body
    ensures EntryOfBody(body).Some? ==> c !in EntryOfBody(body).value.0 && c !in EntryOfBody(body).value.1
  {
    var eq := FirstEq(body);
    if eq > 0 {
      TrimParts(body[..eq], c);
      TrimParts(body[eq + 1..], c);
    }
  }

  /** Parsing a line invents no character. */
  lemma ParsedParts(line: string, c: char)
    requires c !in line
    ensures EntryOfLine(line).Some? ==> c !in EntryOfLine(line).value.0 && c !in EntryOfLine(line).value.1
  {
    var trimmed := Trim(line);
    TrimParts(line, c);
    if StartsWith(trimmed, EXPORT) {
      TrimParts(trimmed[|EXPORT|..], c);
      BodyParts(Trim(trimmed[|EXPORT|..]), c);
    } else {
      BodyParts(trimmed, c);
    }
  }

  lemma {:induction false} KeepsFirst(s: string)
    requires s != "" && !IsSpace(s[0])
    ensures TrimRight(s) != "" && TrimRight(s)[0] == s[0]
    decreases |s|
  {
    if IsSpace(s[|s| - 1]) {
      KeepsFirst(s[..|s| - 1]);
    }
  }

  lemma {:induction false} TrimRightAppend(a: string, b: string)
    requires a != "" && !IsSpace(a[|a| - 1])
    ensures TrimRight(a + b) == a + TrimRight(b)
    decreases |b|
  {
    if b == "" {
      assert a + b == a;
    } else if IsSpace(b[|b| - 1]) {
      assert (a + b)[..|a + b| - 1] == a + b[..|b| - 1];
      TrimRightAppend(a, b[..|b| - 1]);
    }
  }

  /** How a printed line reads back, for any key of the right shape: a comment is lost, an
      exported key comes back shorter, and otherwise the key is kept and the value trimmed
      and unquoted. */
  lemma LineReadsBack(k: string, v: string)
    requires KeyShape(k)
    ensures var entry := EntryOfLine(LineOf(k, v));
      if k[0] == '#' then entry == None
      else if StartsWith(k, EXPORT) then entry.Some? ==> |entry.value.0| < |k|
      else entry == Some((k, Unquote(Trim(TrimRight(v)))))
  {
    var line, kept := LineOf(k, v), TrimRight(v);
    TrimmedLine(k, v);
    ExportWord(k, kept);
    assert (k + "=" + kept)[0] == k[0];
    if k[0] == '#' {
      CommentIsLost(line);
    } else if StartsWith(k, EXPORT) {
      ExportedIsShorter(line, k, kept);
    } else {
      ReadsAsItIs(line, k + "=" + kept);
      BodyReads(k, kept);
    }
  }

  lemma CommentIsLost(line: string)
    requires Trim(line) != "" && Trim(line)[0] == '#'
    ensures EntryOfLine(line) == None
  {
  }

  lemma BodyReads(k: string, v: string)
    requires KeyShape(k)
    ensures EntryOfBody(k + "=" + v) == Some((k, Unquote(Trim(v))))
  {
    FirstEqAt(k, v);
    TrimIsTrimmed(k);
  }

  lemma ExportedIsShorter(line: string, k: string, v: string)
    requires KeyShape(k) && StartsWith(k, EXPORT) && Trim(line) == k + "=" + v
    ensures EntryOfLine(line).Some? ==> |EntryOfLine(line).value.0| < |k|
  {
    var trimmed, rest := k + "=" + v, k[|EXPORT|..];
    assert StartsWith(trimmed, EXPORT) && trimmed[|EXPORT|..] == rest + "=" + v && trimmed[0] == 'e';
    ShorterKey(rest, v);
    BodyKeyIsCut(Trim(rest + "=" + v));
  }

  lemma BodyKeyIsCut(body: string)
    ensures EntryOfBody(body).Some? ==> |EntryOfBody(body).value.0| <= FirstEq(body)
  {
  }

  lemma TrimmedLine(k: string, v: string)
    requires KeyShape(k)
    ensures Trim(LineOf(k, v)) == k + "=" + TrimRight(v)
  {
    var line := LineOf(k, v);
    assert line[0] == k[0];
    assert TrimLeft(line) == line;
    TrimRightAppend(k + "=", v);
    assert k + "=" + v == line;
  }

  lemma ExportWord(k: string, v: string)
    requires '=' !in k
    ensures StartsWith(k + "=" + v, EXPORT) <==> StartsWith(k, EXPORT)
  {
    var line := k + "=" + v;
    assert line[|k|] == '=' && '=' !in EXPORT;
    assert |k| < |EXPORT| ==> EXPORT[|k|] != '=';
    if |k| >= |EXPORT| {
      assert line[..|EXPORT|] == k[..|EXPORT|];
    }
  }

  lemma FirstEqAt(k: string, v: string)
    requires '=' !in k
    ensures FirstEq(k + "=" + v) == |k|
    ensures (k + "=" + v)[..|k|] == k && (k + "=" + v)[|k| + 1..] == v
  {
    var line := k + "=" + v;
    var i := FirstEq(line);
    assert line[|k|] == '=' && forall j :: 0 <= j < |k| ==> line[j] == k[j];
    assert forall j :: 0 <= j < i ==> line[..i][j] == line[j];
  }

  lemma {:induction false} ShorterKey(k: string, v: string)
    requires '=' !in k
    ensures var body := Trim(k + "=" + v); FirstEq(body) <= |k|
    decreases |k|
  {
    var line := k + "=" + v;
    if k != "" && IsSpace(k[0]) {
      assert line[1..] == k[1..] + "=" + v;
      ShorterKey(k[1..], v);
    } else {
      assert line[0] == if k == "" then '=' else k[0];
      assert TrimLeft(line) == line;
      TrimRightAppend(k + "=", v);
      assert k + "=" + v == line;
      FirstEqAt(k, TrimRight(v));
    }
  }

  lemma {:induction false} FoldedFrom(entries: Entries, k: string)
    requires k in Folded(entries)
    ensures exists i :: 0 <= i < |entries| && entries[i] == Some((k, Folded(entries)[k]))
    decreases |entries|
  {
    var last := |entries| - 1;
    if entries[last] != Some((k, Folded(entries)[k])) {
      FoldedFrom(entries[..last], k);
    }
  }

  /** Every parsed entry stands on one of the lines. */
  lemma ParsedFrom(lines: seq<string>, k: string)
    requires k in Parsed(lines)
    ensures exists i :: 0 <= i < |lines| && EntryOfLine(lines[i]) == Some((k, Parsed(lines)[k]))
  {
    FoldedFrom(EntriesOf(lines), k);
  }

  predicate LineFree(m: Overlay) { forall k :: k in m ==> '\n' !in k && '\n' !in m[k] }

  lemma ParseIsLineFree(text: string)
    ensures LineFree(Parse(text))
  {
    var lines := Split(text, '\n');
    forall k | k in Parsed(lines) ensures '\n' !in k && '\n' !in Parsed(lines)[k] {
      ParsedFrom(lines, k);
      var i :| 0 <= i < |lines| && EntryOfLine(lines[i]) == Some((k, Parsed(lines)[k]));
      ParsedParts(lines[i], '\n');
    }
  }

  lemma BlankLast(lines: seq<string>)
    ensures Parsed(lines + [""]) == Parsed(lines)
  {
    assert EntriesOf(lines + [""])[..|lines|] == EntriesOf(lines);
    assert EntryOfLine("") == None;
  }

  lemma PrintedPieces(order: seq<string>, m: Overlay)
    requires (forall k :: k in order ==> k in m) && LineFree(m)
    ensures Split(Printed(order, m), '\n') == LinesOf(order, m) + [""]
  {
    var lines := LinesOf(order, m);
    var body := Join(lines, '\n');
    if order != [] {
      forall i | 0 <= i < |lines| ensures '\n' !in lines[i] {
        assert order[i] in order;
      }
      SplitOfJoin(lines, '\n');
      assert body != "" by {
        assert lines[0][|order[0]|] == '=';
        assert body == "" ==> Split(body, '\n') == [""];
      }
      SplitAppend(body, "", '\n');
      assert body + ['\n'] + "" == body + "\n";
    }
  }

  /** A printed overlay without line breaks reads back line by line. */
  lemma PrintedLines(order: seq<string>, m: Overlay)
    requires (forall k :: k in order ==> k in m) && LineFree(m)
    ensures Parse(Printed(order, m)) == Parsed(LinesOf(order, m))
  {
    PrintedPieces(order, m);
    BlankLast(LinesOf(order, m));
  }

  lemma OkReadsBack(k: string, v: string)
    requires EntryOk(k, v)
    ensures EntryOfLine(LineOf(k, v)) == Some((k, v))
  {
    LineReadsBack(k, v);
    TrimIsTrimmed(v);
    assert TrimRight(v) == v;
  }

  lemma {:induction false} FoldedGivesAll(entries: Entries, order: seq<string>, m: Overlay, i: nat)
    requires i <= |order| == |entries| && Lists(order, m)
    requires forall j :: 0 <= j < |order| ==> entries[j] == Some((order[j], m[order[j]]))
    ensures forall k :: k in Folded(entries[..i]) <==> k in order[..i]
    ensures forall k :: k in order[..i] ==> Folded(entries[..i])[k] == m[k]
    decreases i
  {
    if i > 0 {
      FoldedGivesAll(entries, order, m, i - 1);
      assert order[i - 1] in order;
      FoldedOneMore(entries, i, order[i - 1], m[order[i - 1]]);
      GivesOneMore(Folded(entries[..i - 1]), order, m, i);
    }
  }

  lemma GivesOneMore(before: Overlay, order: seq<string>, m: Overlay, i: nat)
    requires 0 < i <= |order| && forall k :: k in order ==> k in m
    requires (forall k :: k in before <==> k in order[..i - 1]) && forall k :: k in before ==> before[k] == m[k]
    ensures var after := before[order[i - 1] := m[order[i - 1]]];
      (forall k :: k in after <==> k in order[..i]) && forall k :: k in after ==> after[k] == m[k]
  {
    assert order[..i] == order[..i - 1] + [order[i - 1]];
  }

  lemma FoldedOneMore(entries: Entries, i: nat, k: string, v: string)
    requires 0 < i <= |entries| && entries[i - 1] == Some((k, v))
    ensures Folded(entries[..i]) == Folded(entries[..i - 1])[k := v]
  {
    assert entries[..i][..i - 1] == entries[..i - 1];
  }

  predicate AllOk(m: Overlay) { forall k :: k in m ==> EntryOk(k, m[k]) }

  lemma OkIsLineFree(m: Overlay)
    requires AllOk(m)
    ensures LineFree(m)
  {
    forall k | k in m ensures '\n' !in k && '\n' !in m[k] {
      assert EntryOk(k, m[k]);
    }
  }

  lemma EntriesReadBack(order: seq<string>, m: Overlay, j: nat)
    requires Lists(order, m) && j < |order| && AllOk(m)
    ensures EntriesOf(LinesOf(order, m))[j] == Some((order[j], m[order[j]]))
  {
    assert order[j] in order;
    OkReadsBack(order[j], m[order[j]]);
  }

  lemma FoldedIsAll(entries: Entries, order: seq<string>, m: Overlay)
    requires |order| == |entries| && Lists(order, m)
    requires forall j :: 0 <= j < |order| ==> entries[j] == Some((order[j], m[order[j]]))
    ensures Folded(entries) == m
  {
    FoldedGivesAll(entries, order, m, |order|);
    assert entries[..|order|] == entries && order[..|order|] == order;
  }

  lemma AllReadBack(order: seq<string>, m: Overlay)
    requires Lists(order, m) && AllOk(m)
    ensures Parsed(LinesOf(order, m)) == m
  {
    forall j | 0 <= j < |order| ensures EntriesOf(LinesOf(order, m))[j] == Some((order[j], m[order[j]])) {
      EntriesReadBack(order, m, j);
    }
    FoldedIsAll(EntriesOf(LinesOf(order, m)), order, m);
  }

  /** With all entries fit to be saved, the overlay comes back. */
  lemma RoundTrip(order: seq<string>, m: Overlay)
    requires Lists(order, m) && AllOk(m)
    ensures Parse(Printed(order, m)) == m
  {
    OkIsLineFree(m);
    PrintedLines(order, m);
    AllReadBack(order, m);
  }

  /** The line of a key gives that key back. */
  predicate GivesItsKey(m: Overlay, k: string)
    requires k in m
  {
    var entry := EntryOfLine(LineOf(k, m[k]));
    entry.Some? && entry.value.0 == k
  }

  lemma FromWhichLine(order: seq<string>, m: Overlay, k: string) returns (owner: string)
    requires Lists(order, m) && Parsed(LinesOf(order, m)) == m && k in m
    ensures owner in m && EntryOfLine(LineOf(owner, m[owner])) == Some((k, m[k]))
  {
    var lines := LinesOf(order, m);
    ParsedFrom(lines, k);
    var i :| 0 <= i < |lines| && EntryOfLine(lines[i]) == Some((k, m[k]));
    owner := order[i];
    assert owner in order;
  }

  /** If an overlay comes back, each line gives its own key: a key that was given by another
      line would be shorter than that line's key, which would have to be given by a longer
      one still. */
  lemma {:induction false} EachGivesItsKey(order: seq<string>, m: Overlay, k: string, bound: nat)
    requires Lists(order, m) && Parsed(LinesOf(order, m)) == m && k in m
    requires forall x :: x in m ==> |x| <= bound && KeyShape(x)
    ensures GivesItsKey(m, k)
    decreases bound - |k|
  {
    if !GivesItsKey(m, k) {
      var owner := FromWhichLine(order, m, k);
      LineReadsBack(owner, m[owner]);
      EachGivesItsKey(order, m, owner, bound);
    }
  }

  lemma {:induction false} Longest(order: seq<string>) returns (bound: nat)
    ensures forall k :: k in order ==> |k| <= bound
    decreases |order|
  {
    bound := 0;
    if order != [] {
      var rest := Longest(order[1..]);
      bound := if |order[0]| > rest then |order[0]| else rest;
      assert forall k :: k in order ==> k == order[0] || k in order[1..];
    }
  }

  lemma KeptValue(v: string)
    ensures Unquote(Trim(TrimRight(v))) == v ==> IsTrimmed(v) && !Quoted(v)
  {
    TrimIsTrimmed(TrimRight(v));
    assert |Unquote(Trim(TrimRight(v)))| <= |Trim(TrimRight(v))|;
  }

  /** An overlay that comes back has only entries fit to be saved. */
  lemma OnlyOkComesBack(order: seq<string>, m: Overlay, k: string)
    requires Lists(order, m) && Parse(Printed(order, m)) == m && k in m
    ensures EntryOk(k, m[k])
  {
    ParseIsLineFree(Printed(order, m));
    PrintedLines(order, m);
    forall x | x in m ensures KeyShape(x) {
      var owner := FromWhichLine(order, m, x);
      ParsedKeyShape(LineOf(owner, m[owner]));
    }
    var bound := Longest(order);
    EachGivesItsKey(order, m, k, bound);
    var owner := FromWhichLine(order, m, k);
    EachGivesItsKey(order, m, owner, bound);
    LineReadsBack(k, m[k]);
    KeptValue(m[k]);
  }

  /** An overlay survives being saved and loaded exactly when each of its entries is fit to
      be saved. */
  lemma RoundTripIff(order: seq<string>, m: Overlay)
    requires Lists(order, m)
    ensures Parse(Printed(order, m)) == m <==> forall k :: k in m ==> EntryOk(k, m[k])
  {
    if AllOk(m) {
      RoundTrip(order, m);
    }
    if Parse(Printed(order, m)) == m {
      forall k | k in m ensures EntryOk(k, m[k]) {
        OnlyOkComesBack(order, m, k);
      }
    }
  }

  /** A fit entry whose value the user wrote in quotes comes back without them. */
  lemma QuotesAreLost(k: string, v: string, q: char)
    requires EntryOk(k, v) && (q == '"' || q == '\'')
    ensures Parse(Printed([k], map[k := [q] + v + [q]])) == map[k := v]
  {
    QuotedReadsBack(k, v, q);
    OneEntryReadsBack(k, [q] + v + [q], v);
  }

  /** An overlay of one entry reads back as its one line does. */
  lemma OneEntryReadsBack(k: string, written: string, v: string)
    requires '\n' !in k && '\n' !in written && EntryOfLine(LineOf(k, written)) == Some((k, v))
    ensures Parse(Printed([k], map[k := written])) == map[k := v]
  {
    PrintedLines([k], map[k := written]);
    OneLine(k, written, v);
  }

  lemma QuotedValue(v: string, q: char)
    requires q == '"' || q == '\''
    ensures var quoted := [q] + v + [q]; Trim(TrimRight(quoted)) == quoted && Unquote(quoted) == v
  {
    var quoted := [q] + v + [q];
    assert quoted[0] == q == quoted[|quoted| - 1];
    assert quoted[1..|quoted| - 1] == v;
  }

  lemma QuotedReadsBack(k: string, v: string, q: char)
    requires EntryOk(k, v) && (q == '"' || q == '\'')
    ensures EntryOfLine(LineOf(k, [q] + v + [q])) == Some((k, v)) && '\n' !in [q] + v + [q] && '\n' !in k
  {
    QuotedValue(v, q);
    LineReadsBack(k, [q] + v + [q]);
  }

  lemma OneLine(k: string, written: string, v: string)
    requires EntryOfLine(LineOf(k, written)) == Some((k, v))
    ensures Parsed(LinesOf([k], map[k := written])) == map[k := v]
  {
    var entries := EntriesOf(LinesOf([k], map[k := written]));
    assert entries[..0] == [];
    assert Folded(entries[..0]) == map[];
  }

  lemma QuotesAreLostExample()
    ensures Parse(Printed(["K"], map["K" := "\"v\""])) == map["K" := "v"]
  {
    assert "\"v\"" == ['"'] + "v" + ['"'];
    QuotesAreLost("K", "v", '"');
  }

  /** A line of a shell script is read as the assignment it exports. */
  lemma ExportIsRead(k: string, v: string)
    requires KeyShape(k) && k[0] != '#' && !StartsWith(k, EXPORT)
    ensures EntryOfLine("export " + LineOf(k, v)) == EntryOfLine(LineOf(k, v)) == Some((k, Unquote(Trim(TrimRight(v)))))
  {
    var line, kept := LineOf(k, v), k + "=" + TrimRight(v);
    LineReadsBack(k, v);
    ExportTrimmed(k, v);
    TrimmedLine(k, v);
    TrimmedTwice(line);
    ExportWord(k, TrimRight(v));
    assert kept[0] == k[0];
    ReadsTheRest("export " + line, kept);
    ReadsAsItIs(line, kept);
  }

  lemma ReadsTheRest(line: string, kept: string)
    requires Trim(line) == "export " + kept && Trim(kept) == kept
    ensures EntryOfLine(line) == EntryOfBody(kept)
  {
    var trimmed := Trim(line);
    assert trimmed[|EXPORT|..] == kept && StartsWith(trimmed, EXPORT) && trimmed[0] == 'e';
  }

  lemma ReadsAsItIs(line: string, kept: string)
    requires Trim(line) == kept && kept != "" && kept[0] != '#' && !StartsWith(kept, EXPORT)
    ensures EntryOfLine(line) == EntryOfBody(kept)
  {
  }

  lemma TrimmedTwice(s: string)
    ensures Trim(Trim(s)) == Trim(s)
  {
    TrimIsTrimmed(s);
  }

  lemma ExportTrimmed(k: string, v: string)
    requires KeyShape(k)
    ensures Trim("export " + LineOf(k, v)) == "export " + (k + "=" + TrimRight(v))
  {
    var line, start := "export " + LineOf(k, v), "export " + k + "=";
    assert line == start + v && line[0] == 'e';
    TrimRightAppend(start, v);
    assert start + TrimRight(v) == "export " + (k + "=" + TrimRight(v));
  }
}
