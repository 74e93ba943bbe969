/** Repository paths and the generated-tree allowlist
    (plugin/gitops_emitter/gitrepo.py:334-383). */
module GitPaths {
  import opened Text

  /** A path inside the work tree, by its segments. */
  type Path = seq<string>

  predicate ProperSegment(seg: string) { seg != "" && seg != "." && '/' !in seg }

  predicate Proper(p: Path) { forall i :: 0 <= i < |p| ==> ProperSegment(p[i]) }

  function DropDots(segs: seq<string>): (p: Path)
    ensures (forall i :: 0 <= i < |segs| ==> '/' !in segs[i]) ==> Proper(p)
  {
    if segs == [] then []
    else if segs[0] == "" || segs[0] == "." then DropDots(segs[1..])
    else [segs[0]] + DropDots(segs[1..])
  }

  /** `PurePosixPath(raw).parts` of a relative path: empty and `.` segments go,
      `..` stays. It is also where `workdir / raw` lands. */
  function Parts(raw: string): (p: Path)
    ensures Proper(p)
  {
    DropDots(Split(raw, '/'))
  }

  /** `as_posix()`: the one normal spelling of a path. */
  function Spelling(p: Path): string { Join(p, '/') }

  predicate Normal(raw: string) { Spelling(Parts(raw)) == raw }

  /** `p` is `tree` itself or lies below it. */
  predicate AtOrUnder(p: Path, tree: Path) { tree <= p }

  predicate StrictlyUnder(p: Path, tree: Path) { tree < p }

  lemma {:induction false} DropDotsProper(p: Path)
    requires Proper(p)
    ensures DropDots(p) == p
  {
    if p != [] {
      DropDotsProper(p[1..]);
    }
  }

  /** Spelling a proper path and reading it back gives the path. */
  lemma PartsOfSpelling(p: Path)
    requires Proper(p)
    ensures Parts(Spelling(p)) == p
  {
    if p == [] {
      assert Split("", '/') == [""];
      assert DropDots([""]) == DropDots([""][1..]);
    } else {
      SplitOfJoin(p, '/');
      DropDotsProper(p);
    }
  }

  // ----- The allowlist ----------------------------------------------------

  datatype Verdict =
    | Allowed
    | EmptyAllowlist
    | AbsolutePath(raw: string)
    | DotDotSegment(raw: string)
    | OutsideTrees(raw: string)

  /** `p.strip("/")`. */
  function StripSlashes(s: string): (r: string)
    decreases |s|
    ensures r != "" ==> r[0] != '/' && r[|r| - 1] != '/'
  {
    if s == "" then ""
    else if s[0] == '/' then StripSlashes(s[1..])
    else if s[|s| - 1] == '/' then StripSlashes(s[..|s| - 1])
    else s
  }

  /** The allowlist the check compares against: stripped, blanks dropped. */
  function Cleaned(prefixes: seq<string>): (r: seq<string>)
    ensures forall i :: 0 <= i < |r| ==> r[i] != ""
  {
    if prefixes == [] then []
    else
      var s := StripSlashes(prefixes[0]);
      (if s == "" then [] else [s]) + Cleaned(prefixes[1..])
  }

  predicate AllSlashes(s: string) { forall k :: 0 <= k < |s| ==> s[k] == '/' }

  /** Stripping takes away slashes at the two ends and nothing else. */
  lemma {:induction false} StripIs(s: string) returns (before: string, after: string)
    ensures s == before + StripSlashes(s) + after && AllSlashes(before) && AllSlashes(after)
    decreases |s|
  {
    before, after := "", "";
    if s != "" && s[0] == '/' {
      before, after := StripIs(s[1..]);
      SlashBefore(s, before, StripSlashes(s[1..]), after);
      before := ['/'] + before;
    } else if s != "" && s[|s| - 1] == '/' {
      before, after := StripIs(s[..|s| - 1]);
      SlashAfter(s, before, StripSlashes(s[..|s| - 1]), after);
      after := after + ['/'];
    }
  }

  lemma SlashBefore(s: string, before: string, kept: string, after: string)
    requires s != "" && s[0] == '/' && s[1..] == before + kept + after && AllSlashes(before)
    ensures s == ['/'] + before + kept + after && AllSlashes(['/'] + before)
  {
    assert s == ['/'] + s[1..];
  }

  lemma SlashAfter(s: string, before: string, kept: string, after: string)
    requires s != "" && s[|s| - 1] == '/' && s[..|s| - 1] == before + kept + after && AllSlashes(after)
    ensures s == before + kept + (after + ['/']) && AllSlashes(after + ['/'])
  {
    assert s == s[..|s| - 1] + ['/'];
  }

  /** The allowlist is the stripped prefixes that are not blank. */
  lemma {:induction false} CleanedAre(prefixes: seq<string>, pre: string)
    ensures pre in Cleaned(prefixes) <==> pre != "" && exists q :: q in prefixes && StripSlashes(q) == pre
  {
    if prefixes != [] {
      CleanedAre(prefixes[1..], pre);
      var first, rest := prefixes[0], prefixes[1..];
      assert prefixes == [first] + rest && first in prefixes;
      assert pre in Cleaned(prefixes) <==> (pre != "" && pre == StripSlashes(first)) || pre in Cleaned(rest);
      if q :| q in prefixes && StripSlashes(q) == pre {
        assert q == first || q in rest;
      }
    }
  }

  /** A path some allowed tree contains. */
  predicate Inside(p: Path, prefixes: seq<string>) {
    exists pre :: pre in Cleaned(prefixes) && AtOrUnder(p, Split(pre, '/'))
  }

  predicate IsAbsolute(raw: string) { raw != "" && (raw[0] == '/' || raw[0] == '\\') }

  /** What the boundary promises, said on segments: the path is relative, never
      climbs, and the place it resolves to belongs to an allowed tree. */
  predicate Within(raw: string, prefixes: seq<string>) {
    !IsAbsolute(raw) && ".." !in Parts(raw) && Inside(Parts(raw), prefixes)
  }

  /** The comparison with every allowed tree, on the normal spelling. */
  method InOneOf(parts: Path, allowed: seq<string>) returns (hit: bool)
    requires Proper(parts) && forall pre :: pre in allowed ==> pre != ""
    ensures hit <==> exists pre :: pre in allowed && AtOrUnder(parts, Split(pre, '/'))
  {
    var norm := Spelling(parts);
    hit := false;
    for k := 0 to |allowed|
      invariant hit <==> exists pre :: pre in allowed[..k] && AtOrUnder(parts, Split(pre, '/'))
    {
      assert allowed[..k + 1] == allowed[..k] + [allowed[k]];
      assert allowed[k] in allowed;
      PrefixAtBoundary(parts, allowed[k], '/');
      if norm == allowed[k] || StartsWith(norm, allowed[k] + "/") {
        hit := true;
      }
    }
    assert allowed[..|allowed|] == allowed;
  }

  /** `_assert_within`: the check as written, on strings. */
  method AssertWithin(prefixes: seq<string>, paths: seq<string>) returns (v: Verdict)
    ensures v.Allowed? <==> Cleaned(prefixes) != [] && forall raw :: raw in paths ==> Within(raw, prefixes)
    ensures v.EmptyAllowlist? <==> Cleaned(prefixes) == []
    ensures v.Allowed? ==> forall raw :: raw in paths ==> raw == "" || (raw[0] != '/' && raw[0] != '\\')
    ensures v.AbsolutePath? ==> v.raw in paths && v.raw != "" && (v.raw[0] == '/' || v.raw[0] == '\\')
    ensures v.DotDotSegment? ==> v.raw in paths && ".." in Parts(v.raw)
    ensures v.OutsideTrees? ==> v.raw in paths && !Inside(Parts(v.raw), prefixes)
  {
    var allowed := Cleaned(prefixes);
    if allowed == [] {
      return EmptyAllowlist;
    }
    for i := 0 to |paths|
      invariant forall j :: 0 <= j < i ==> Within(paths[j], prefixes)
    {
      var rel := paths[i];
      if IsAbsolute(rel) {
        assert !Within(rel, prefixes);
        return AbsolutePath(rel);
      }
      var parts := Parts(rel);
      if ".." in parts {
        assert !Within(rel, prefixes);
        return DotDotSegment(rel);
      }
      var hit := InOneOf(parts, allowed);
      if !hit {
        assert !Within(rel, prefixes);
        return OutsideTrees(rel);
      }
    }
    return Allowed;
  }

  /** A path spelled from an allowed one by adding segments stays allowed. */
  lemma InsideIsUpwardClosed(p: Path, q: Path, prefixes: seq<string>)
    requires Inside(p, prefixes) && p <= q
    ensures Inside(q, prefixes)
  {
    var pre :| pre in Cleaned(prefixes) && AtOrUnder(p, Split(pre, '/'));
    assert AtOrUnder(q, Split(pre, '/'));
  }

  lemma {:induction false} CleanedKeeps(prefixes: seq<string>, pre: string)
    requires pre in prefixes && pre != "" && pre[0] != '/' && pre[|pre| - 1] != '/'
    ensures pre in Cleaned(prefixes)
  {
    if prefixes[0] != pre {
      CleanedKeeps(prefixes[1..], pre);
    }
  }

  /** A plain name is inside the tree of that name. */
  lemma PlainIsWithin(name: string, prefixes: seq<string>)
    requires '/' !in name && name != "" && name != "." && name != ".." && name[0] != '\\'
    requires name in prefixes
    ensures Parts(name) == [name] && Within(name, prefixes)
  {
    SplitPlain(name, '/');
    assert DropDots([name]) == [name] + DropDots([name][1..]);
    assert name[0] in name && name[|name| - 1] in name;
    CleanedKeeps(prefixes, name);
    assert AtOrUnder([name], Split(name, '/'));
  }
}
