/** The one severity ladder and the one source constructor of the health overlay
    (control-plane/nexus/plugin_api.py:1769-1813, 1838-1871). */
module Levels {
  import opened Wrappers

  datatype Level = Healthy | Unknown | Degraded | Unhealthy

  function Rank(l: Level): nat {
    match l case Healthy => 0 case Unknown => 1 case Degraded => 2 case Unhealthy => 3
  }

  predicate NeedsAttention(l: Level) { l.Degraded? || l.Unhealthy? }

  function Worse(a: Level, b: Level): Level { if Rank(b) > Rank(a) then b else a }

  function WorstSoFar(levels: seq<Level>): Level
    decreases |levels|
  {
    if levels == [] then Healthy else Worse(WorstSoFar(levels[..|levels| - 1]), levels[|levels| - 1])
  }

  /** `_rollup` as a function; nothing observed reads unknown. */
  function WorstOf(levels: seq<Level>): Level { if levels == [] then Unknown else WorstSoFar(levels) }

  method Rollup(levels: seq<Level>) returns (worst: Level)
    ensures worst == WorstOf(levels)
  {
    if levels == [] {
      return Unknown;
    }
    worst := Healthy;
    for i := 0 to |levels|
      invariant worst == WorstSoFar(levels[..i])
    {
      assert levels[..i + 1][..i] == levels[..i];
      if Rank(levels[i]) > Rank(worst) {
        worst := levels[i];
      }
    }
    assert levels[..|levels|] == levels;
  }

  lemma {:induction false} SoFarIsABound(levels: seq<Level>)
    ensures forall l :: l in levels ==> Rank(l) <= Rank(WorstSoFar(levels))
    ensures WorstSoFar(levels) in levels || WorstSoFar(levels) == Healthy
    decreases |levels|
  {
    if levels != [] {
      var front, last := levels[..|levels| - 1], levels[|levels| - 1];
      assert levels == front + [last];
      SoFarIsABound(front);
    }
  }

  /** The ladder's result is one of the observed levels and none is worse; with nothing
      observed it is unknown, never green. These facts alone determine it. */
  lemma WorstIsTheMaximum(levels: seq<Level>, worst: Level)
    ensures worst == WorstOf(levels) <==>
            (if levels == [] then worst == Unknown
             else worst in levels && forall l :: l in levels ==> Rank(l) <= Rank(worst))
  {
    SoFarIsABound(levels);
    assert levels != [] ==> Rank(levels[0]) <= Rank(WorstSoFar(levels));
  }

  /** Two readings with the same levels in them, in any order and number, roll up alike. */
  lemma WorstDependsOnTheSet(a: seq<Level>, b: seq<Level>)
    requires forall l :: l in a <==> l in b
    ensures WorstOf(a) == WorstOf(b)
  {
    WorstIsTheMaximum(a, WorstOf(a));
    WorstIsTheMaximum(b, WorstOf(b));
    assert a != [] ==> a[0] in b;
    assert b != [] ==> b[0] in a;
  }

  /** Green means: something was observed, and all of it was green. */
  lemma GreenIff(levels: seq<Level>)
    ensures WorstOf(levels) == Healthy <==> levels != [] && forall l :: l in levels ==> l == Healthy
  {
    WorstIsTheMaximum(levels, WorstOf(levels));
  }

  // ----- Sources ----------------------------------------------------------

  datatype Kind = Argocd | Grafana | Uptime | Eval | Backup | Communication | Reconciliation

  datatype Status = Configured | NotConfigured | Stale | Failed

  datatype Source = Source(kind: Kind, status: Status, level: Level, observedAt: Option<string>)

  /** `_source`: an adapter that observed nothing does not get to choose its level. */
  function MakeSource(kind: Kind, status: Status, level: Level, observedAt: Option<string>): (s: Source)
    ensures Honest(s) && s.kind == kind && s.status == status
    ensures !status.NotConfigured? && !status.Failed? ==> s.level == level
  {
    Source(kind, status, if status.NotConfigured? || status.Failed? then Unknown else level, observedAt)
  }

  predicate Honest(s: Source) { s.status.NotConfigured? || s.status.Failed? ==> s.level == Unknown }
}
