/** Collecting the non-Argo sources, and what a poll may say about what it did not observe
    (control-plane/nexus/plugin_api.py:4184-4312, 4385-4403, 3786-3800). */
module Collector {
  import opened Wrappers
  import opened Levels

  /** An adapter's answer: one fleet-wide source and its narrowed ones by component. */
  datatype Answer = Answer(fleet: Source, narrowed: map<string, Source>)

  /** How one adapter's fetch ended. */
  datatype Outcome = Succeeded(answer: Answer) | Unwired | Broken

  type Memory = map<Kind, Answer>
  type Outcomes = map<Kind, Outcome>

  const JOBS: seq<Kind> := [Grafana, Backup, Uptime, Communication, Reconciliation, Eval]

  predicate Complete(outcomes: Outcomes) { forall k :: k in JOBS ==> k in outcomes }

  function Get<K, V>(m: map<K, V>, k: K): Option<V> { if k in m then Some(m[k]) else None }

  /** `_stale`: the observation time stays the original one. */
  function MarkStale(s: Source): Source { s.(status := Stale) }

  function MarkAllStale(a: Answer): Answer {
    Answer(MarkStale(a.fleet), map cid | cid in a.narrowed :: MarkStale(a.narrowed[cid]))
  }

  /** `_degrade`. */
  function Degrade(kind: Kind, remembered: Option<Answer>): Answer {
    match remembered
    case None => Answer(MakeSource(kind, Failed, Unknown, None), map[])
    case Some(a) => MarkAllStale(a)
  }

  /** What a poll reports for one kind. */
  function Reported(memory: Memory, kind: Kind, outcome: Outcome): Answer {
    match outcome
    case Succeeded(a) => a
    case Unwired => Answer(MakeSource(kind, NotConfigured, Unknown, None), map[])
    case Broken => Degrade(kind, Get(memory, kind))
  }

  predicate SucceededIn(outcomes: Outcomes, k: Kind) { k in outcomes && outcomes[k].Succeeded? }

  /** What is remembered after a poll. */
  function Remembered(memory: Memory, outcomes: Outcomes): Memory {
    map k | k in memory.Keys + outcomes.Keys && (SucceededIn(outcomes, k) || k in memory)
      :: if SucceededIn(outcomes, k) then outcomes[k].answer else memory[k]
  }

  class Adapters {
    var lastGood: Memory

    constructor ()
      ensures lastGood == map[]
    {
      lastGood := map[];
    }

    /** `collect_sources`, after its fetches have ended one way or another. */
    method Collect(outcomes: Outcomes) returns (globals: map<Kind, Source>, narrowed: map<Kind, map<string, Source>>)
      requires Complete(outcomes) && outcomes.Keys <= set k | k in JOBS
      modifies this
      ensures lastGood == Remembered(old(lastGood), outcomes)
      ensures forall k :: k in JOBS ==>
        && k in globals && k in narrowed
        && Answer(globals[k], narrowed[k]) == Reported(old(lastGood), k, outcomes[k])
    {
      globals, narrowed := map[], map[];
      for i := 0 to |JOBS|
        invariant forall k :: k !in JOBS[..i] ==> Get(lastGood, k) == Get(old(lastGood), k)
        invariant forall k :: k in JOBS[..i] ==>
          && Get(lastGood, k) == (if outcomes[k].Succeeded? then Some(outcomes[k].answer) else Get(old(lastGood), k))
          && k in globals && k in narrowed
          && Answer(globals[k], narrowed[k]) == Reported(old(lastGood), k, outcomes[k])
      {
        JobsAreDistinct(i);
        var reported := Join(JOBS[i], outcomes[JOBS[i]]);
        globals, narrowed := globals[JOBS[i] := reported.fleet], narrowed[JOBS[i] := reported.narrowed];
      }
      assert JOBS[..|JOBS|] == JOBS;
      SameMemory(lastGood, old(lastGood), outcomes);
    }

    /** One adapter's answer, remembered when it is one. */
    method Join(kind: Kind, outcome: Outcome) returns (reported: Answer)
      modifies this
      ensures reported == Reported(old(lastGood), kind, outcome)
      ensures lastGood == if outcome.Succeeded? then old(lastGood)[kind := outcome.answer] else old(lastGood)
    {
      match outcome {
        case Succeeded(a) =>
          reported := a;
          lastGood := lastGood[kind := a];
        case Unwired =>
          reported := Answer(MakeSource(kind, NotConfigured, Unknown, None), map[]);
        case Broken =>
          reported := Degrade(kind, Get(lastGood, kind));
      }
    }
  }

  lemma JobsAreDistinct(i: nat)
    requires i < |JOBS|
    ensures JOBS[i] !in JOBS[..i] && JOBS[..i + 1] == JOBS[..i] + [JOBS[i]]
  {
  }

  lemma SameMemory(after: Memory, before: Memory, outcomes: Outcomes)
    requires outcomes.Keys <= set k | k in JOBS
    requires forall k :: k in JOBS ==>
      k in outcomes && Get(after, k) == (if outcomes[k].Succeeded? then Some(outcomes[k].answer) else Get(before, k))
    requires forall k :: k !in JOBS ==> Get(after, k) == Get(before, k)
    ensures after == Remembered(before, outcomes)
  {
    forall k ensures Get(after, k) == Get(Remembered(before, outcomes), k) {
      assert k in JOBS || k !in outcomes;
    }
    assert forall k :: k in after <==> Get(after, k).Some?;
    assert forall k :: k in Remembered(before, outcomes) <==> Get(Remembered(before, outcomes), k).Some?;
    forall k | k in after ensures after[k] == Remembered(before, outcomes)[k] {
      assert Get(after, k) == Get(Remembered(before, outcomes), k);
    }
  }

  // ----- Poll histories ---------------------------------------------------

  /** The polls so far, oldest first, each with how its adapters ended. */
  type History = seq<Outcomes>

  function MemoryAfter(history: History): Memory
    decreases |history|
  {
    if history == [] then map[] else Remembered(MemoryAfter(history[..|history| - 1]), history[|history| - 1])
  }

  /** Poll n is the kind's most recent success. */
  predicate LastSuccess(history: History, k: Kind, n: nat) {
    n < |history| && SucceededIn(history[n], k) && forall m :: n < m < |history| ==> !SucceededIn(history[m], k)
  }

  /** What is remembered of an adapter is its most recent success, however many polls it
      failed or was switched off since; nothing else is ever remembered. */
  lemma {:induction false} MemoryIsTheLastSuccess(history: History, k: Kind)
    ensures k in MemoryAfter(history) <==> exists n: nat :: LastSuccess(history, k, n)
    ensures forall n: nat :: LastSuccess(history, k, n) ==>
              k in MemoryAfter(history) && MemoryAfter(history)[k] == history[n][k].answer
    decreases |history|
  {
    if history != [] {
      var last := |history| - 1;
      var front := history[..last];
      MemoryIsTheLastSuccess(front, k);
      if SucceededIn(history[last], k) {
        assert LastSuccess(history, k, last);
      } else {
        forall n: nat ensures LastSuccess(history, k, n) <==> LastSuccess(front, k, n) {
          SuccessBeforeAFailure(history, k, n);
        }
      }
    }
  }

  lemma SuccessBeforeAFailure(history: History, k: Kind, n: nat)
    requires history != [] && !SucceededIn(history[|history| - 1], k)
    ensures LastSuccess(history, k, n) <==> LastSuccess(history[..|history| - 1], k, n)
  {
    var last := |history| - 1;
    var front := history[..last];
    assert forall m :: 0 <= m < last ==> front[m] == history[m];
  }

  /** A component's row of a kind: the narrowed source where there is one, else the
      fleet-wide; None asks for the fleet-wide one itself. */
  function RowOf(a: Answer, cid: Option<string>): Source {
    if cid.Some? && cid.value in a.narrowed then a.narrowed[cid.value] else a.fleet
  }

  predicate WellMade(k: Kind, a: Answer) {
    && a.fleet.kind == k && Honest(a.fleet)
    && forall cid :: cid in a.narrowed ==> a.narrowed[cid].kind == k && Honest(a.narrowed[cid])
  }

  /** Every adapter builds its answers with the one source constructor. */
  predicate AdaptersUseTheConstructor(history: History) {
    forall n, k :: 0 <= n < |history| && SucceededIn(history[n], k) ==> WellMade(k, history[n][k].answer)
  }

  /** What the latest poll serves for a kind. */
  function Served(history: History, k: Kind): Answer
    requires history != [] && k in history[|history| - 1]
  {
    Reported(MemoryAfter(history[..|history| - 1]), k, history[|history| - 1][k])
  }

  lemma MemoryIsWellMade(history: History, k: Kind)
    requires AdaptersUseTheConstructor(history) && k in MemoryAfter(history)
    ensures WellMade(k, MemoryAfter(history)[k])
  {
    MemoryIsTheLastSuccess(history, k);
    var n: nat :| LastSuccess(history, k, n);
    assert SucceededIn(history[n], k);
  }

  /** Reporting keeps to the constructor's rule. */
  lemma ReportedIsWellMade(memory: Memory, k: Kind, outcome: Outcome, cid: Option<string>)
    requires outcome.Succeeded? ==> WellMade(k, outcome.answer)
    requires k in memory ==> WellMade(k, memory[k])
    ensures var s := RowOf(Reported(memory, k, outcome), cid);
      && s.kind == k && Honest(s)
      && (s.status.Configured? ==> outcome.Succeeded? && s == RowOf(outcome.answer, cid))
      && (outcome.Unwired? ==> s.status.NotConfigured? && s.level == Unknown && s.observedAt.None?)
      && (outcome.Broken? && k !in memory ==> s.status.Failed? && s.level == Unknown)
  {
  }

  /** After any history of polls, for the fleet-wide source and every component's row: a
      source marked not configured or failed reads unknown; one marked configured is what its
      adapter just answered; and an adapter that failed without ever having succeeded reads
      failed. */
  lemma NeverGreenUnobserved(history: History, k: Kind, cid: Option<string>)
    requires history != [] && k in history[|history| - 1] && AdaptersUseTheConstructor(history)
    ensures
      var s, last, earlier := RowOf(Served(history, k), cid), history[|history| - 1][k], history[..|history| - 1];
      && s.kind == k && Honest(s)
      && (s.status.Configured? ==> last.Succeeded? && s == RowOf(last.answer, cid))
      && (last.Unwired? ==> s.status.NotConfigured? && s.level == Unknown && s.observedAt.None?)
      && (last.Broken? && (forall n: nat :: !LastSuccess(earlier, k, n)) ==> s.status.Failed? && s.level == Unknown)
  {
    var front, last := history[..|history| - 1], history[|history| - 1];
    MemoryIsTheLastSuccess(front, k);
    if k in MemoryAfter(front) {
      MemoryIsWellMade(front, k);
    }
    assert last[k].Succeeded? ==> SucceededIn(history[|history| - 1], k);
    ReportedIsWellMade(MemoryAfter(front), k, last[k], cid);
  }

  /** When the adapter just failed, every row is what its most recent success said, level and
      observation time included, marked stale. */
  lemma BrokenServesTheLast(history: History, k: Kind, cid: Option<string>, n: nat)
    requires history != [] && k in history[|history| - 1] && history[|history| - 1][k].Broken?
    requires LastSuccess(history[..|history| - 1], k, n)
    ensures var row, last := RowOf(Served(history, k), cid), RowOf(history[n][k].answer, cid);
      row.status == Stale && row.kind == last.kind && row.level == last.level && row.observedAt == last.observedAt
  {
    MemoryIsTheLastSuccess(history[..|history| - 1], k);
  }

  /** A green source, fresh or stale, was reported green by its adapter's most recent
      success, with the very observation time shown. */
  lemma GreenWasObserved(history: History, k: Kind, cid: Option<string>)
    requires history != [] && k in history[|history| - 1] && AdaptersUseTheConstructor(history)
    requires RowOf(Served(history, k), cid).level == Healthy
    ensures exists n: nat :: LastSuccess(history, k, n)
              && RowOf(history[n][k].answer, cid).level == Healthy
              && RowOf(history[n][k].answer, cid).observedAt == RowOf(Served(history, k), cid).observedAt
              && (n < |history| - 1 ==> RowOf(Served(history, k), cid).status.Stale?)
  {
    var last := |history| - 1;
    var front := history[..last];
    MemoryIsTheLastSuccess(front, k);
    NeverGreenUnobserved(history, k, cid);
    if history[last][k].Succeeded? {
      assert LastSuccess(history, k, last);
    } else {
      var n: nat :| LastSuccess(front, k, n);
      BrokenServesTheLast(history, k, cid, n);
      assert forall m :: 0 <= m < last ==> front[m] == history[m];
      assert LastSuccess(history, k, n);
    }
  }
}
