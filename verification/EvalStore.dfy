/** The published eval results: one bounded, deduplicating, newest-first log per
    component (control-plane/nexus/plugin_api.py:6206-6207, 6438-6483). */
module EvalStore {
  const MAX_RECORDS: nat := 200
  const MAX_BATCH: nat := 100

  /** A validated record; `rest` is everything the store only carries along. */
  datatype EvalRecord = EvalRecord(componentId: string, runId: string, rest: string)

  type Log = seq<EvalRecord>

  function RunIds(log: Log): set<string> { set r | r in log :: r.runId }

  predicate DistinctRuns(log: Log) {
    forall i, j :: 0 <= i < j < |log| ==> log[i].runId != log[j].runId
  }

  /** The batch members whose run is new, the first of each run, in order. */
  function FreshOf(seen: set<string>, incoming: Log): (novel: Log)
    ensures |novel| <= |incoming|
    decreases |incoming|
  {
    if incoming == [] then []
    else
      var r := incoming[0];
      if r.runId in seen then FreshOf(seen, incoming[1..])
      else [r] + FreshOf(seen + {r.runId}, incoming[1..])
  }

  function Capped(log: Log): Log { if |log| > MAX_RECORDS then log[..MAX_RECORDS] else log }

  /** What one component's file becomes. */
  function Merged(existing: Log, incoming: Log): Log {
    var novel := FreshOf(RunIds(existing), incoming);
    if novel == [] then existing else Capped(novel + existing)
  }

  function Dropped(existing: Log, incoming: Log): nat {
    var n := |FreshOf(RunIds(existing), incoming)|;
    if n > 0 && n + |existing| > MAX_RECORDS then n + |existing| - MAX_RECORDS else 0
  }

  /** The batch members of one component, in batch order. */
  function Incoming(records: Log, component: string): Log
    decreases |records|
  {
    if records == [] then []
    else
      var last := |records| - 1;
      Incoming(records[..last], component) + if records[last].componentId == component then [records[last]] else []
  }

  /** The components a batch names, each once, in order of first mention. */
  function Components(records: Log): seq<string>
    decreases |records|
  {
    if records == [] then []
    else
      var last := |records| - 1;
      var cs := Components(records[..last]);
      if records[last].componentId in cs then cs else cs + [records[last].componentId]
  }

  predicate Mentions(records: Log, c: string) { exists r :: r in records && r.componentId == c }

  lemma {:induction false} ComponentsAreTheMentioned(records: Log)
    ensures forall c :: c in Components(records) <==> Mentions(records, c)
    ensures Distinct(Components(records))
    decreases |records|
  {
    if records != [] {
      var last := |records| - 1;
      ComponentsAreTheMentioned(records[..last]);
      assert records == records[..last] + [records[last]];
      forall c ensures Mentions(records, c) <==> Mentions(records[..last], c) || c == records[last].componentId {
        if Mentions(records, c) {
          var r :| r in records && r.componentId == c;
          assert r in records[..last] || r == records[last];
        }
      }
    }
  }

  // ----- The store --------------------------------------------------------

  datatype Reply = Stored(written: nat, deduped: nat, dropped: nat) | TooLarge(component: string)

  type Files = map<string, Log>

  function LogOf(files: Files, c: string): Log { if c in files then files[c] else [] }

  function NovelIn(files: Files, records: Log, c: string): Log {
    FreshOf(RunIds(LogOf(files, c)), Incoming(records, c))
  }

  /** The files once the listed components have been merged, one after the other. */
  function Settled(files: Files, records: Log, cs: seq<string>): Files
    decreases |cs|
  {
    if cs == [] then files
    else
      var c := cs[|cs| - 1];
      var before := Settled(files, records, cs[..|cs| - 1]);
      if NovelIn(before, records, c) == [] then before
      else before[c := Merged(LogOf(before, c), Incoming(records, c))]
  }

  /** Records kept, offered, written and pushed out over the listed components. */
  function Kept(files: Files, cs: seq<string>): nat
    decreases |cs|
  {
    if cs == [] then 0 else Kept(files, cs[..|cs| - 1]) + |LogOf(files, cs[|cs| - 1])|
  }

  function BatchSize(records: Log, cs: seq<string>): nat
    decreases |cs|
  {
    if cs == [] then 0 else BatchSize(records, cs[..|cs| - 1]) + |Incoming(records, cs[|cs| - 1])|
  }

  function WrittenOver(files: Files, records: Log, cs: seq<string>): nat
    decreases |cs|
  {
    if cs == [] then 0
    else WrittenOver(files, records, cs[..|cs| - 1]) + |NovelIn(files, records, cs[|cs| - 1])|
  }

  function DroppedOver(files: Files, records: Log, cs: seq<string>): nat
    decreases |cs|
  {
    if cs == [] then 0
    else
      DroppedOver(files, records, cs[..|cs| - 1])
      + Dropped(LogOf(files, cs[|cs| - 1]), Incoming(records, cs[|cs| - 1]))
  }

  predicate Distinct(cs: seq<string>) { forall i, j :: 0 <= i < j < |cs| ==> cs[i] != cs[j] }

  /** Why a publish stopped at its i-th component: that one's file would be too large,
      and no earlier one's was. */
  predicate StoppedAt(files: Files, records: Log, cs: seq<string>, fits: Log -> bool, i: nat) {
    && i < |cs|
    && NovelIn(files, records, cs[i]) != [] && !fits(Merged(LogOf(files, cs[i]), Incoming(records, cs[i])))
    && AllFit(files, records, cs[..i], fits)
  }

  predicate AllFit(files: Files, records: Log, cs: seq<string>, fits: Log -> bool) {
    forall c :: c in cs ==>
      NovelIn(files, records, c) == [] || fits(Merged(LogOf(files, c), Incoming(records, c)))
  }

  /** The state of a publish that has been through its first i components. */
  predicate Through(start: Files, records: Log, cs: seq<string>, fits: Log -> bool, i: nat,
                    files: Files, written: nat, deduped: nat, dropped: nat)
  {
    && i <= |cs|
    && files == Settled(start, records, cs[..i])
    && written == WrittenOver(start, records, cs[..i])
    && dropped == DroppedOver(start, records, cs[..i])
    && written + deduped == BatchSize(records, cs[..i])
    && AllFit(start, records, cs[..i], fits)
  }

  /** What a publish answers and leaves: all of it when every file fits; else what came
      before the first component whose file would not. */
  ghost predicate Outcome(start: Files, records: Log, cs: seq<string>, fits: Log -> bool, reply: Reply, files: Files) {
    match reply
    case Stored(written, deduped, dropped) =>
      && AllFit(start, records, cs, fits)
      && files == Settled(start, records, cs)
      && written == WrittenOver(start, records, cs)
      && dropped == DroppedOver(start, records, cs)
      && written + deduped == |records|
    case TooLarge(component) =>
      && !AllFit(start, records, cs, fits)
      && exists i: nat :: StoppedAt(start, records, cs, fits, i)
           && component == cs[i] && files == Settled(start, records, cs[..i])
  }

  class Store {
    var files: Files

    constructor ()
      ensures files == map[]
    {
      files := map[];
    }

    /** The unseen records of a batch: the `seen` loop. */
    static method Sift(existing: Log, incoming: Log) returns (kept: Log)
      ensures kept == FreshOf(RunIds(existing), incoming)
    {
      var seen := RunIds(existing);
      kept := [];
      for i := 0 to |incoming|
        invariant FreshOf(RunIds(existing), incoming) == kept + FreshOf(seen, incoming[i..])
      {
        var rec := incoming[i];
        assert incoming[i..][0] == rec && incoming[i..][1..] == incoming[i + 1..];
        if rec.runId in seen {
          continue;
        }
        seen := seen + {rec.runId};
        kept := kept + [rec];
      }
    }

    /** One component's turn; `fits` is the file-size bound. */
    method StoreComponent(component: string, records: Log, fits: Log -> bool)
      returns (novel: nat, dropped: nat, ok: bool)
      modifies this
      ensures novel == |NovelIn(old(files), records, component)|
      ensures dropped == Dropped(LogOf(old(files), component), Incoming(records, component))
      ensures ok <==> novel == 0 || fits(Merged(LogOf(old(files), component), Incoming(records, component)))
      ensures files == if ok && novel > 0
                       then old(files)[component := Merged(LogOf(old(files), component), Incoming(records, component))]
                       else old(files)
    {
      var existing := LogOf(files, component);
      var kept := Sift(existing, Incoming(records, component));
      novel, dropped, ok := |kept|, 0, true;
      if kept == [] {
        return;
      }
      var merged := kept + existing;
      if |merged| > MAX_RECORDS {
        dropped := |merged| - MAX_RECORDS;
        merged := merged[..MAX_RECORDS];
      }
      if !fits(merged) {
        ok := false;
        return;
      }
      files := files[component := merged];
    }

    /** `store_eval_records`, under its lock. A component whose file would be too large
        stops the publish there, with the earlier components already stored. */
    method StoreBatch(records: Log, fits: Log -> bool) returns (reply: Reply)
      modifies this
      ensures Outcome(old(files), records, Components(records), fits, reply, files)
    {
      var cs := Components(records);
      ComponentsAreTheMentioned(records);
      BatchIsItsParts(records);
      var written: nat, deduped: nat, dropped: nat := 0, 0, 0;
      ghost var start := files;
      for i := 0 to |cs|
        invariant Through(start, records, cs, fits, i, files, written, deduped, dropped)
      {
        NextComponent(start, records, cs, i);
        var novel, gone, ok := StoreComponent(cs[i], records, fits);
        if !ok {
          StopsHere(start, records, cs, fits, i, files);
          return TooLarge(cs[i]);
        }
        FitsNext(start, records, cs, fits, i);
        written, deduped, dropped := written + novel, deduped + |Incoming(records, cs[i])| - novel, dropped + gone;
      }
      assert cs[..|cs|] == cs;
      reply := Stored(written, deduped, dropped);
    }
  }

  lemma StopsHere(start: Files, records: Log, cs: seq<string>, fits: Log -> bool, i: nat, files: Files)
    requires StoppedAt(start, records, cs, fits, i) && files == Settled(start, records, cs[..i])
    ensures Outcome(start, records, cs, fits, TooLarge(cs[i]), files)
  {
    assert cs[i] in cs;
  }

  lemma {:induction false} SettledElsewhere(files: Files, records: Log, cs: seq<string>, d: string)
    requires d !in cs
    ensures LogOf(Settled(files, records, cs), d) == LogOf(files, d)
    decreases |cs|
  {
    if cs != [] {
      assert cs[|cs| - 1] in cs;
      SettledElsewhere(files, records, cs[..|cs| - 1], d);
    }
  }

  lemma UntouchedYet(files: Files, records: Log, cs: seq<string>, i: nat)
    requires Distinct(cs) && i < |cs|
    ensures LogOf(Settled(files, records, cs[..i]), cs[i]) == LogOf(files, cs[i])
  {
    SettledElsewhere(files, records, cs[..i], cs[i]);
  }

  /** What the i-th component's turn starts from and leads to. */
  lemma NextComponent(files: Files, records: Log, cs: seq<string>, i: nat)
    requires Distinct(cs) && i < |cs|
    ensures LogOf(Settled(files, records, cs[..i]), cs[i]) == LogOf(files, cs[i])
    ensures Settled(files, records, cs[..i + 1])
         == if NovelIn(files, records, cs[i]) == [] then Settled(files, records, cs[..i])
            else Settled(files, records, cs[..i])[cs[i] := Merged(LogOf(files, cs[i]), Incoming(records, cs[i]))]
    ensures WrittenOver(files, records, cs[..i + 1])
         == WrittenOver(files, records, cs[..i]) + |NovelIn(files, records, cs[i])|
    ensures DroppedOver(files, records, cs[..i + 1])
         == DroppedOver(files, records, cs[..i]) + Dropped(LogOf(files, cs[i]), Incoming(records, cs[i]))
    ensures BatchSize(records, cs[..i + 1]) == BatchSize(records, cs[..i]) + |Incoming(records, cs[i])|
  {
    assert cs[..i + 1][..i] == cs[..i];
    UntouchedYet(files, records, cs, i);
  }

  lemma FitsNext(files: Files, records: Log, cs: seq<string>, fits: Log -> bool, i: nat)
    requires i < |cs| && AllFit(files, records, cs[..i], fits)
    requires NovelIn(files, records, cs[i]) == [] || fits(Merged(LogOf(files, cs[i]), Incoming(records, cs[i])))
    ensures AllFit(files, records, cs[..i + 1], fits)
  {
    assert cs[..i + 1] == cs[..i] + [cs[i]];
  }

  /** A stored batch merges every named component with its own part of the batch, and
      touches no other. */
  lemma {:induction false} SettledAt(files: Files, records: Log, cs: seq<string>, d: string)
    requires Distinct(cs)
    ensures LogOf(Settled(files, records, cs), d)
         == if d in cs then Merged(LogOf(files, d), Incoming(records, d)) else LogOf(files, d)
    decreases |cs|
  {
    if cs != [] {
      var last := |cs| - 1;
      assert cs == cs[..last] + [cs[last]];
      SettledAt(files, records, cs[..last], d);
      UntouchedYet(files, records, cs, last);
    }
  }

  /** Size after, plus what was pushed out, is size before plus what was written. */
  lemma {:induction false} BatchConserves(files: Files, records: Log, cs: seq<string>)
    requires Distinct(cs)
    ensures Kept(Settled(files, records, cs), cs) + DroppedOver(files, records, cs)
         == Kept(files, cs) + WrittenOver(files, records, cs)
    decreases |cs|
  {
    if cs != [] {
      var last := |cs| - 1;
      var front, before, after := cs[..last], Settled(files, records, cs[..last]), Settled(files, records, cs);
      BatchConserves(files, records, front);
      UntouchedYet(files, records, cs, last);
      KeptSame(after, before, front);
      MergeConserves(LogOf(files, cs[last]), Incoming(records, cs[last]));
    }
  }

  predicate StoreOk(files: Files) { forall c :: c in files ==> LogOk(files[c]) }

  /** Every publish, complete or cut short, keeps every log bounded with distinct runs. */
  lemma {:induction false} SettledKeepsStore(files: Files, records: Log, cs: seq<string>)
    requires StoreOk(files)
    ensures StoreOk(Settled(files, records, cs))
    decreases |cs|
  {
    if cs != [] {
      var before := Settled(files, records, cs[..|cs| - 1]);
      SettledKeepsStore(files, records, cs[..|cs| - 1]);
      MergeKeepsLog(LogOf(before, cs[|cs| - 1]), Incoming(records, cs[|cs| - 1]));
    }
  }

  // ----- Conservation -----------------------------------------------------

  lemma {:induction false} KeptSame(f: Files, g: Files, cs: seq<string>)
    requires forall c :: c in cs ==> LogOf(f, c) == LogOf(g, c)
    ensures Kept(f, cs) == Kept(g, cs)
    decreases |cs|
  {
    if cs != [] {
      KeptSame(f, g, cs[..|cs| - 1]);
      assert cs[|cs| - 1] in cs;
    }
  }

  /** Size after = size before + written - dropped. */
  lemma MergeConserves(existing: Log, incoming: Log)
    ensures |Merged(existing, incoming)| + Dropped(existing, incoming)
         == |existing| + |FreshOf(RunIds(existing), incoming)|
  {
  }

  lemma {:induction false} BatchIsItsParts(records: Log)
    ensures BatchSize(records, Components(records)) == |records|
    decreases |records|
  {
    if records != [] {
      var last := |records| - 1;
      var front, r := records[..last], records[last];
      assert records == front + [r];
      BatchIsItsParts(front);
      ComponentsAreTheMentioned(front);
      var cs := Components(front);
      if r.componentId in cs {
        OneMore(front, r, cs);
      } else {
        forall x | x in front ensures x.componentId != r.componentId { assert !Mentions(front, r.componentId); }
        NoneIncoming(front, r.componentId);
        IncomingStep(front, r, r.componentId);
        OneMoreElsewhere(front, r, cs);
        assert (cs + [r.componentId])[..|cs|] == cs;
      }
    }
  }

  lemma {:induction false} NoneIncoming(records: Log, c: string)
    requires forall x :: x in records ==> x.componentId != c
    ensures Incoming(records, c) == []
    decreases |records|
  {
    if records != [] {
      assert records[|records| - 1] in records;
      NoneIncoming(records[..|records| - 1], c);
    }
  }

  lemma IncomingStep(front: Log, r: EvalRecord, c: string)
    ensures Incoming(front + [r], c) == Incoming(front, c) + if r.componentId == c then [r] else []
  {
    assert (front + [r])[..|front|] == front;
  }

  lemma {:induction false} OneMoreElsewhere(front: Log, r: EvalRecord, cs: seq<string>)
    requires r.componentId !in cs
    ensures BatchSize(front + [r], cs) == BatchSize(front, cs)
    decreases |cs|
  {
    if cs != [] {
      assert cs[|cs| - 1] in cs;
      IncomingStep(front, r, cs[|cs| - 1]);
      OneMoreElsewhere(front, r, cs[..|cs| - 1]);
    }
  }

  lemma {:induction false} OneMore(front: Log, r: EvalRecord, cs: seq<string>)
    requires r.componentId in cs && Distinct(cs)
    ensures BatchSize(front + [r], cs) == BatchSize(front, cs) + 1
    decreases |cs|
  {
    var last := |cs| - 1;
    IncomingStep(front, r, cs[last]);
    if cs[last] == r.componentId {
      OneMoreElsewhere(front, r, cs[..last]);
    } else {
      OneMore(front, r, cs[..last]);
    }
  }

  // ----- The log invariant ------------------------------------------------

  lemma {:induction false} FreshIsFresh(seen: set<string>, incoming: Log)
    ensures var novel := FreshOf(seen, incoming);
      && DistinctRuns(novel) && RunIds(novel) !! seen
      && RunIds(novel) == RunIds(incoming) - seen
    decreases |incoming|
  {
    if incoming != [] {
      var r := incoming[0];
      assert incoming == [r] + incoming[1..];
      assert RunIds(incoming) == {r.runId} + RunIds(incoming[1..]);
      if r.runId in seen {
        FreshIsFresh(seen, incoming[1..]);
      } else {
        var rest := FreshOf(seen + {r.runId}, incoming[1..]);
        FreshIsFresh(seen + {r.runId}, incoming[1..]);
        assert RunIds([r] + rest) == {r.runId} + RunIds(rest);
        forall i, j | 0 <= i < j < |[r] + rest| ensures ([r] + rest)[i].runId != ([r] + rest)[j].runId {
          if i == 0 { assert rest[j - 1].runId in RunIds(rest); }
        }
      }
    }
  }

  /** Where in the batch a run is first mentioned. */
  function FirstOf(incoming: Log, run: string): (i: nat)
    requires run in RunIds(incoming)
    ensures i < |incoming| && incoming[i].runId == run && forall j :: 0 <= j < i ==> incoming[j].runId != run
    decreases |incoming|
  {
    if incoming[0].runId == run then 0
    else
      assert incoming == [incoming[0]] + incoming[1..];
      1 + FirstOf(incoming[1..], run)
  }

  /** The kept records are the batch's own, each the first of its run, in batch order. */
  lemma {:induction false} FreshAreTheFirst(seen: set<string>, incoming: Log)
    ensures var novel := FreshOf(seen, incoming);
      && (forall i :: 0 <= i < |novel| ==> IsFirst(incoming, novel[i]))
      && forall i, j :: 0 <= i < j < |novel| ==>
           FirstOf(incoming, novel[i].runId) < FirstOf(incoming, novel[j].runId)
    decreases |incoming|
  {
    FreshIsFresh(seen, incoming);
    var novel := FreshOf(seen, incoming);
    forall i | 0 <= i < |novel| ensures novel[i].runId in RunIds(incoming) { assert novel[i].runId in RunIds(novel); }
    if incoming != [] {
      var r, later := incoming[0], incoming[1..];
      assert incoming == [r] + later;
      var rest := FreshOf(if r.runId in seen then seen else seen + {r.runId}, later);
      FreshAreTheFirst(if r.runId in seen then seen else seen + {r.runId}, later);
      FreshIsFresh(if r.runId in seen then seen else seen + {r.runId}, later);
      forall i | 0 <= i < |rest|
        ensures IsFirst(incoming, rest[i])
        ensures rest[i].runId in RunIds(later) && FirstOf(incoming, rest[i].runId) == 1 + FirstOf(later, rest[i].runId)
      {
        assert rest[i].runId in RunIds(rest) && rest[i].runId != r.runId;
      }
      assert novel == if r.runId in seen then rest else [r] + rest;
    }
  }

  predicate IsFirst(incoming: Log, r: EvalRecord) {
    r.runId in RunIds(incoming) && incoming[FirstOf(incoming, r.runId)] == r
  }

  predicate LogOk(log: Log) { |log| <= MAX_RECORDS && DistinctRuns(log) }

  /** A publish keeps a log within its bound with distinct runs; the new records come
      first, and what stays of the old ones stays in order. */
  lemma MergeKeepsLog(existing: Log, incoming: Log)
    requires LogOk(existing)
    ensures LogOk(Merged(existing, incoming))
    ensures Merged(existing, incoming) <= FreshOf(RunIds(existing), incoming) + existing
  {
    var novel := FreshOf(RunIds(existing), incoming);
    FreshIsFresh(RunIds(existing), incoming);
    DistinctAppend(novel, existing);
  }

  lemma DistinctAppend(a: Log, b: Log)
    requires DistinctRuns(a) && DistinctRuns(b) && RunIds(a) !! RunIds(b)
    ensures DistinctRuns(a + b)
  {
    forall i, j | 0 <= i < |a| && 0 <= j < |b| ensures a[i].runId != b[j].runId {
      assert a[i].runId in RunIds(a) && b[j].runId in RunIds(b);
    }
  }

  /** A log never outgrows 200 records, and loses only what is past the 200th. */
  lemma CapIs(existing: Log, incoming: Log)
    requires |existing| <= 200
    ensures var all := FreshOf(RunIds(existing), incoming) + existing;
      Merged(existing, incoming) == if |all| > 200 then all[..200] else all
  {
  }

  /** The position of an old record is past the tail the new ones push out. */
  predicate Evicted(existing: Log, incoming: Log, i: nat) {
    var n := |FreshOf(RunIds(existing), incoming)|;
    n > 0 && n + i >= MAX_RECORDS
  }

  /** Publishing the same batch again at once changes nothing exactly when no record of
      the batch that was already stored was pushed out by the new ones. */
  lemma RepublishIsQuietIff(existing: Log, incoming: Log)
    requires LogOk(existing) && |incoming| <= MAX_BATCH
    ensures (Merged(Merged(existing, incoming), incoming) == Merged(existing, incoming)) <==>
            (forall i :: 0 <= i < |existing| && existing[i].runId in RunIds(incoming) ==>
               !Evicted(existing, incoming, i))
  {
    var m := Merged(existing, incoming);
    QuietIffKnown(m, incoming);
    NewOnesStay(existing, incoming);
    forall i | 0 <= i < |existing|
      ensures existing[i].runId in RunIds(m) <==> !Evicted(existing, incoming, i)
    {
      StoredAt(existing, incoming, i);
    }
    if forall i :: 0 <= i < |existing| && existing[i].runId in RunIds(incoming) ==> !Evicted(existing, incoming, i) {
      forall s | s in RunIds(incoming) ensures s in RunIds(m) {
        if s in RunIds(existing) {
          var i :| 0 <= i < |existing| && existing[i].runId == s;
        }
      }
    }
  }

  lemma QuietIffKnown(log: Log, incoming: Log)
    ensures Merged(log, incoming) == log <==> RunIds(incoming) <= RunIds(log)
  {
    MergeChanges(log, incoming);
    FreshIsFresh(RunIds(log), incoming);
    var novel := FreshOf(RunIds(log), incoming);
    assert novel == [] ==> RunIds(novel) == {};
    assert novel != [] ==> novel[0].runId in RunIds(novel);
    forall x | RunIds(novel) == {} && x in RunIds(incoming) ensures x in RunIds(log) {
      assert x !in RunIds(novel);
    }
  }

  lemma NewOnesStay(existing: Log, incoming: Log)
    requires |incoming| <= MAX_RECORDS
    ensures RunIds(incoming) - RunIds(existing) <= RunIds(Merged(existing, incoming))
  {
    var novel, m := FreshOf(RunIds(existing), incoming), Merged(existing, incoming);
    FreshIsFresh(RunIds(existing), incoming);
    forall s | s in RunIds(novel) ensures s in RunIds(m) {
      var k :| 0 <= k < |novel| && novel[k].runId == s;
      assert m[k] == novel[k];
    }
  }

  /** An old record stays exactly while the new ones leave room for its position. */
  lemma StoredAt(existing: Log, incoming: Log, i: nat)
    requires LogOk(existing) && i < |existing|
    ensures existing[i].runId in RunIds(Merged(existing, incoming)) <==> !Evicted(existing, incoming, i)
  {
    var novel, m := FreshOf(RunIds(existing), incoming), Merged(existing, incoming);
    FreshIsFresh(RunIds(existing), incoming);
    MergeKeepsLog(existing, incoming);
    var all := novel + existing;
    assert existing[i].runId in RunIds(existing);
    if novel == [] {
    } else if |novel| + i < MAX_RECORDS {
      assert m[|novel| + i] == existing[i];
    } else {
      forall k | 0 <= k < |m| ensures m[k].runId != existing[i].runId {
        assert m[k] == all[k];
        if k < |novel| { assert novel[k].runId in RunIds(novel); }
      }
    }
  }

  lemma MergeChanges(log: Log, incoming: Log)
    ensures Merged(log, incoming) == log <==> FreshOf(RunIds(log), incoming) == []
  {
    var novel := FreshOf(RunIds(log), incoming);
    FreshIsFresh(RunIds(log), incoming);
    if novel != [] {
      assert Merged(log, incoming)[0] == novel[0];
      assert novel[0].runId in RunIds(novel);
      if log != [] { assert log[0].runId in RunIds(log); }
    }
  }

  /** So a retried publish of runs the store had never seen is a no-op. */
  lemma RetryOfNewRunsIsQuiet(existing: Log, incoming: Log)
    requires LogOk(existing) && |incoming| <= MAX_BATCH
    requires RunIds(incoming) !! RunIds(existing)
    ensures Merged(Merged(existing, incoming), incoming) == Merged(existing, incoming)
  {
    RepublishIsQuietIff(existing, incoming);
    forall i | 0 <= i < |existing| ensures existing[i].runId !in RunIds(incoming) {
      assert existing[i].runId in RunIds(existing);
    }
  }

  /** A mixed batch on a full log is not: the new run evicts the old one it came with,
      and the retry brings that one back. */
  lemma MixedRetryExample(existing: Log, novel: EvalRecord)
    requires LogOk(existing) && |existing| == MAX_RECORDS && novel.runId !in RunIds(existing)
    ensures var batch := [novel, existing[MAX_RECORDS - 1]];
      Merged(Merged(existing, batch), batch) != Merged(existing, batch)
  {
    var aged := existing[MAX_RECORDS - 1];
    var batch := [novel, aged];
    assert aged.runId in RunIds(existing);
    assert batch[1..] == [aged] && [aged][1..] == [];
    assert FreshOf(RunIds(existing) + {novel.runId}, [aged]) == FreshOf(RunIds(existing) + {novel.runId}, []);
    assert FreshOf(RunIds(existing), batch) == [novel];
    assert aged in batch;
    RepublishIsQuietIff(existing, batch);
  }

  // ----- Over every run of publishes --------------------------------------

  /** One publish of a history: its batch and how many of its components it got through. */
  datatype Publish = Publish(records: Log, done: nat)

  function StoreAfter(history: seq<Publish>): Files
    requires forall p :: p in history ==> p.done <= |Components(p.records)|
    decreases |history|
  {
    if history == [] then map[]
    else
      var p := history[|history| - 1];
      Settled(StoreAfter(history[..|history| - 1]), p.records, Components(p.records)[..p.done])
  }

  lemma {:induction false} StoreAlwaysOk(history: seq<Publish>)
    requires forall p :: p in history ==> p.done <= |Components(p.records)|
    ensures StoreOk(StoreAfter(history))
    decreases |history|
  {
    if history != [] {
      var p := history[|history| - 1];
      StoreAlwaysOk(history[..|history| - 1]);
      SettledKeepsStore(StoreAfter(history[..|history| - 1]), p.records, Components(p.records)[..p.done]);
    }
  }

  /** After any history, publishing an accepted batch of runs the store has never seen,
      and then publishing it again, leaves the files exactly as the first publish left them. */
  lemma RetriedPublishIsQuiet(history: seq<Publish>, records: Log)
    requires forall p :: p in history ==> p.done <= |Components(p.records)|
    requires |records| <= MAX_BATCH
    requires forall c :: c in Components(records) ==>
               RunIds(Incoming(records, c)) !! RunIds(LogOf(StoreAfter(history), c))
    ensures var once := Settled(StoreAfter(history), records, Components(records));
      Settled(once, records, Components(records)) == once
  {
    var before, cs := StoreAfter(history), Components(records);
    var once := Settled(before, records, cs);
    StoreAlwaysOk(history);
    ComponentsAreTheMentioned(records);
    forall c | c in cs ensures NovelIn(once, records, c) == [] {
      SettledAt(before, records, cs, c);
      IncomingIsPart(records, c);
      RetryOfNewRunsIsQuiet(LogOf(before, c), Incoming(records, c));
      MergeChanges(LogOf(once, c), Incoming(records, c));
    }
    NothingNovel(once, records, cs);
  }

  lemma {:induction false} NothingNovel(files: Files, records: Log, cs: seq<string>)
    requires forall c :: c in cs ==> NovelIn(files, records, c) == []
    ensures Settled(files, records, cs) == files
    decreases |cs|
  {
    if cs != [] {
      assert cs[|cs| - 1] in cs;
      NothingNovel(files, records, cs[..|cs| - 1]);
    }
  }

  lemma {:induction false} IncomingIsPart(records: Log, c: string)
    ensures |Incoming(records, c)| <= |records|
    decreases |records|
  {
    if records != [] {
      IncomingIsPart(records[..|records| - 1], c);
    }
  }
}
