/** The stored workspace: read, compare-and-set save, reset
    (control-plane/nexus/plugin_api.py:5929-5950, 6118-6163). Each request is one step. */
module WorkspaceStore {
  import opened Wrappers
  import opened Json
  import Labels
  import opened WorkspaceSpec
  import opened WorkspaceValidator
  import opened WorkspaceClean
  import opened Relationships
  import opened Adoption

  /** What a save stamps on the document. */
  datatype Stamp = Stamp(now: string, subject: Json, flags: map<Key, Json>)

  datatype Reply = TooBig | Rejected | Conflict(current: Json) | Saved(revision: int)

  function RevisionOf(doc: Json): int { if Get(doc, Key.Revision).Int? then Get(doc, Key.Revision).n else 0 }

  predicate IsMarked(doc: Json) { Get(doc, Key.AdoptedRelationships) == Bool(true) }

  /** What `read_workspace` answers; `projected` is the repository default. */
  function Reading(env: Env, file: Option<Json>, projected: Json, rels: seq<Relationship>): Json {
    if file.None? || !WorkspaceOk(env, file.value) then projected
    else
      var doc := Clean(env, file.value);
      if IsMarked(doc) then doc else AdoptDocument(doc, rels)
  }

  /** The document as it is written. */
  function Stamped(doc: Json, revision: int, stamp: Stamp): Json
    requires doc.Obj?
  {
    Obj(doc.fields[Key.Revision := Int(revision)][Key.SavedAt := Str(stamp.now)]
                  [Key.SavedBy := stamp.subject][Key.FeatureFlags := Obj(stamp.flags)])
  }

  class Store {
    var file: Option<Json>

    constructor ()
      ensures file == None
    {
      file := None;
    }

    /** `read_workspace`: adoption runs on every sheet, in place, when the marker is missing. */
    method Read(env: Env, projected: Json, rels: seq<Relationship>) returns (doc: Json)
      ensures doc == Reading(env, file, projected, rels)
    {
      if file.None? {
        return projected;
      }
      var valid := ValidateWorkspace(env, file.value);
      if valid.None? {
        return projected;
      }
      doc := valid.value;
      if IsMarked(doc) {
        return;
      }
      var sheets := AdoptInto(Items(ListAt(doc, Key.Sheets)), rels);
      doc := Obj(doc.fields[Key.Sheets := List(sheets)][Key.AdoptedRelationships := Bool(true)]);
    }

    /** The sheet loop of the migration. */
    static method AdoptInto(sheets: seq<Json>, rels: seq<Relationship>) returns (done: seq<Json>)
      ensures done == AdoptSheets(sheets, rels)
    {
      done := [];
      for i := 0 to |sheets|
        invariant done == AdoptSheets(sheets[..i], rels)
      {
        var sheet := sheets[i];
        if sheet.Obj? {
          var conns := AdoptRelationships(RefsOf(sheet), Conns(sheet), rels);
          sheet := Obj(sheet.fields[Key.Connections := List(conns)]);
        }
        done := done + [sheet];
      }
      assert sheets[..|sheets|] == sheets;
    }

    /** `put_workspace`; `fits` says whether the body is within the size bound. */
    method Put(env: Env, payload: Json, fits: bool, projected: Json, rels: seq<Relationship>, stamp: Stamp)
      returns (reply: Reply)
      modifies this
      ensures (file, reply) == AfterPut(env, old(file), payload, fits, projected, rels, stamp)
    {
      if !fits {
        return TooBig;
      }
      var valid := ValidateWorkspace(env, payload);
      if valid.None? {
        return Rejected;
      }
      var current := Read(env, projected, rels);
      if RevisionOf(valid.value) != RevisionOf(current) {
        return Conflict(current);
      }
      var revision := RevisionOf(current) + 1;
      file := Some(Stamped(valid.value, revision, stamp));
      reply := Saved(revision);
    }

    /** `delete_workspace`: the reset. */
    method Delete()
      modifies this
      ensures file == None
    {
      file := None;
    }
  }

  /** The outcome of a save: the stored file and the answer. */
  function AfterPut(env: Env, file: Option<Json>, payload: Json, fits: bool, projected: Json, rels: seq<Relationship>,
                    stamp: Stamp): (Option<Json>, Reply)
  {
    PutOver(file, Reading(env, file, projected, rels), Validated(env, payload), fits, stamp)
  }

  /** The validator's answer. */
  function Validated(env: Env, doc: Json): (r: Option<Json>)
    ensures r.Some? ==> r.value.Obj?
  {
    if WorkspaceOk(env, doc) then Some(Clean(env, doc)) else None
  }

  /** The same, given the current document and the validator's answer. */
  function PutOver(file: Option<Json>, current: Json, valid: Option<Json>, fits: bool, stamp: Stamp)
    : (Option<Json>, Reply)
    requires valid.Some? ==> valid.value.Obj?
  {
    if !fits then (file, TooBig)
    else if valid.None? then (file, Rejected)
    else if RevisionOf(valid.value) != RevisionOf(current) then (file, Conflict(current))
    else (Some(Stamped(valid.value, RevisionOf(current) + 1, stamp)), Saved(RevisionOf(current) + 1))
  }

  // ----- Runs -------------------------------------------------------------

  /** One request that may change the store. The projected default and the plan's
      relationships are what the server computes at that moment. */
  datatype Request =
    | Save(payload: Json, fits: bool, projected: Json, rels: seq<Relationship>, stamp: Stamp)
    | Reset

  /** The repository default is at revision 0. */
  predicate DefaultsAtZero(run: seq<Request>) {
    forall i :: 0 <= i < |run| && run[i].Save? ==> RevisionOf(run[i].projected) == 0
  }

  /** The revision a payload says it was read at. */
  function ReadAt(payload: Json): int { var r := GetOr(payload, Key.Revision, Int(0)); if r.Int? then r.n else -1 }

  function StoredRevision(file: Option<Json>): int { if file.Some? then RevisionOf(file.value) else 0 }

  /** The compare half: the payload fits, is valid, and was read at the stored revision. */
  predicate Accepts(env: Env, file: Option<Json>, payload: Json, fits: bool) {
    fits && WorkspaceOk(env, payload) && ReadAt(payload) == StoredRevision(file)
  }

  /** The set half. */
  function Next(env: Env, file: Option<Json>, request: Request): Option<Json> {
    match request
    case Save(payload, fits, _, _, stamp) =>
      if Accepts(env, file, payload, fits) then Some(Stamped(Clean(env, payload), StoredRevision(file) + 1, stamp))
      else file
    case Reset => None
  }

  /** The stored file after the first n requests. */
  function FileAt(env: Env, run: seq<Request>, n: nat): Option<Json>
    requires n <= |run|
  {
    if n == 0 then None else Next(env, FileAt(env, run, n - 1), run[n - 1])
  }

  predicate StoreOk(env: Env, file: Option<Json>) {
    file.Some? ==> WorkspaceOk(env, file.value) && RevisionOf(file.value) >= 1
  }

  predicate Accepted(env: Env, run: seq<Request>, n: nat)
    requires n < |run|
  {
    run[n].Save? && Accepts(env, FileAt(env, run, n), run[n].payload, run[n].fits)
  }

  lemma StampedIsOk(env: Env, payload: Json, revision: int, stamp: Stamp)
    requires WorkspaceOk(env, payload) && revision >= 0
    ensures WorkspaceOk(env, Stamped(Clean(env, payload), revision, stamp))
    ensures RevisionOf(Stamped(Clean(env, payload), revision, stamp)) == revision
  {
    var doc := Clean(env, payload);
    CleanIsOk(env, payload);
    var out := Stamped(doc, revision, stamp);
    assert out.fields.Keys == doc.fields.Keys + {Key.Revision, Key.SavedAt, Key.SavedBy, Key.FeatureFlags};
    assert Get(out, Key.ApiVersion) == Get(doc, Key.ApiVersion) && Get(out, Key.Kind) == Get(doc, Key.Kind);
    assert GetOr(out, Key.Environment, Str("default")) == GetOr(doc, Key.Environment, Str("default"));
    assert ListAt(out, Key.Sheets) == ListAt(doc, Key.Sheets);
  }

  /** In every run the stored file always validates, and its revision is at least 1. */
  lemma {:induction false} StoreAlwaysOk(env: Env, run: seq<Request>, n: nat)
    requires n <= |run|
    ensures StoreOk(env, FileAt(env, run, n))
    decreases n
  {
    if n > 0 {
      StoreAlwaysOk(env, run, n - 1);
      StepKeepsOk(env, FileAt(env, run, n - 1), run[n - 1]);
    }
  }

  lemma StepKeepsOk(env: Env, file: Option<Json>, request: Request)
    requires StoreOk(env, file)
    ensures StoreOk(env, Next(env, file, request))
  {
    if request.Save? && Accepts(env, file, request.payload, request.fits) {
      StampedIsOk(env, request.payload, StoredRevision(file) + 1, request.stamp);
    }
  }

  // ----- The handlers follow the run --------------------------------------

  lemma ReadRevision(env: Env, file: Option<Json>, projected: Json, rels: seq<Relationship>)
    requires StoreOk(env, file) && RevisionOf(projected) == 0
    ensures RevisionOf(Reading(env, file, projected, rels)) == StoredRevision(file)
  {
    if file.Some? {
      CleanAt(env, file.value, Key.Revision);
    }
  }

  lemma CleanRevision(env: Env, payload: Json)
    requires WorkspaceOk(env, payload)
    ensures RevisionOf(Clean(env, payload)) == ReadAt(payload)
  {
    CleanAt(env, payload, Key.Revision);
  }

  lemma ValidatedRevision(env: Env, file: Option<Json>, payload: Json, fits: bool)
    ensures Accepts(env, file, payload, fits) <==>
      fits && Validated(env, payload).Some? && RevisionOf(Validated(env, payload).value) == StoredRevision(file)
    ensures Validated(env, payload).Some? ==> Validated(env, payload).value == Clean(env, payload)
  {
    if WorkspaceOk(env, payload) {
      CleanRevision(env, payload);
    }
  }

  lemma PutFollows(env: Env, file: Option<Json>, current: Json, r: Request)
    requires r.Save? && RevisionOf(current) == StoredRevision(file)
    ensures var (after, reply) := PutOver(file, current, Validated(env, r.payload), r.fits, r.stamp);
      (reply.Saved? <==> Accepts(env, file, r.payload, r.fits)) && after == Next(env, file, r)
  {
    ValidatedRevision(env, file, r.payload, r.fits);
    PutOverFollows(file, current, Validated(env, r.payload), r.fits, r.stamp);
  }

  lemma PutOverFollows(file: Option<Json>, current: Json, valid: Option<Json>, fits: bool, stamp: Stamp)
    requires RevisionOf(current) == StoredRevision(file) && (valid.Some? ==> valid.value.Obj?)
    ensures var accepted := fits && valid.Some? && RevisionOf(valid.value) == StoredRevision(file);
      var (after, reply) := PutOver(file, current, valid, fits, stamp);
      && (reply.Saved? <==> accepted)
      && after == if accepted then Some(Stamped(valid.value, StoredRevision(file) + 1, stamp)) else file
  {
  }

  /** In every run each save does what the handler does: it is answered with a saved revision
      exactly when it is accepted, and leaves the file the run says it leaves. */
  lemma HandlersFollowTheRun(env: Env, run: seq<Request>, n: nat)
    requires n < |run| && DefaultsAtZero(run) && run[n].Save?
    ensures var r := run[n];
      var (after, reply) := AfterPut(env, FileAt(env, run, n), r.payload, r.fits, r.projected, r.rels, r.stamp);
      (reply.Saved? <==> Accepted(env, run, n)) && after == FileAt(env, run, n + 1)
  {
    var r := run[n];
    StoreAlwaysOk(env, run, n);
    ReadRevision(env, FileAt(env, run, n), r.projected, r.rels);
    PutFollows(env, FileAt(env, run, n), Reading(env, FileAt(env, run, n), r.projected, r.rels), r);
  }

  /** So a read never falls back to the default while there is a file. */
  lemma ReadNeverFallsBack(env: Env, run: seq<Request>, n: nat, projected: Json, rels: seq<Relationship>)
    requires n <= |run| && FileAt(env, run, n).Some?
    ensures var stored := Clean(env, FileAt(env, run, n).value);
      Reading(env, FileAt(env, run, n), projected, rels)
        == if Get(stored, Key.AdoptedRelationships) == Bool(true) then stored else AdoptDocument(stored, rels)
  {
    StoreAlwaysOk(env, run, n);
  }

  /** The four answers, and when each is given. */
  lemma RepliesAre(env: Env, file: Option<Json>, payload: Json, fits: bool, projected: Json, rels: seq<Relationship>,
                   stamp: Stamp)
    requires StoreOk(env, file) && RevisionOf(projected) == 0
    ensures var (after, reply) := AfterPut(env, file, payload, fits, projected, rels, stamp);
      && (reply == TooBig <==> !fits)
      && (reply == Rejected <==> fits && !WorkspaceOk(env, payload))
      && (reply.Conflict? <==> fits && WorkspaceOk(env, payload) && ReadAt(payload) != StoredRevision(file))
      && (reply.Conflict? ==> reply.current == Reading(env, file, projected, rels))
      && (reply.Saved? ==> reply.revision == StoredRevision(file) + 1)
      && (!reply.Saved? ==> after == file)
  {
    ReadRevision(env, file, projected, rels);
    ValidatedRevision(env, file, payload, fits);
    RepliesOver(file, Reading(env, file, projected, rels), Validated(env, payload), fits, stamp);
  }

  lemma RepliesOver(file: Option<Json>, current: Json, valid: Option<Json>, fits: bool, stamp: Stamp)
    requires valid.Some? ==> valid.value.Obj?
    ensures var (after, reply) := PutOver(file, current, valid, fits, stamp);
      && (reply == TooBig <==> !fits)
      && (reply == Rejected <==> fits && valid.None?)
      && (reply.Conflict? <==> fits && valid.Some? && RevisionOf(valid.value) != RevisionOf(current))
      && (reply.Conflict? ==> reply.current == current)
      && (reply.Saved? ==> reply.revision == RevisionOf(current) + 1)
      && (!reply.Saved? ==> after == file)
  {
  }

  /** What only the server writes: a client's own revision, times, name and flags are never stored. */
  lemma StampedByTheServer(env: Env, run: seq<Request>, n: nat)
    requires n < |run| && Accepted(env, run, n)
    ensures var r, after := run[n], FileAt(env, run, n + 1);
      && after.Some?
      && Get(after.value, Key.Revision) == Int(StoredRevision(FileAt(env, run, n)) + 1)
      && Get(after.value, Key.SavedAt) == Str(r.stamp.now) && Get(after.value, Key.SavedBy) == r.stamp.subject
      && Get(after.value, Key.FeatureFlags) == Obj(r.stamp.flags)
      && forall key :: key !in {Key.Revision, Key.SavedAt, Key.SavedBy, Key.FeatureFlags} ==>
           Get(after.value, key) == Get(Clean(env, r.payload), key)
  {
    StampedSays(Clean(env, run[n].payload), StoredRevision(FileAt(env, run, n)) + 1, run[n].stamp);
  }

  lemma StampedSays(doc: Json, revision: int, stamp: Stamp)
    requires doc.Obj?
    ensures var out := Stamped(doc, revision, stamp);
      && Get(out, Key.Revision) == Int(revision)
      && Get(out, Key.SavedAt) == Str(stamp.now) && Get(out, Key.SavedBy) == stamp.subject
      && Get(out, Key.FeatureFlags) == Obj(stamp.flags)
      && forall key :: key !in {Key.Revision, Key.SavedAt, Key.SavedBy, Key.FeatureFlags} ==>
           Get(out, key) == Get(doc, key)
  {
  }

  // ----- Compare and set --------------------------------------------------

  /** One request: an accepted save raises the revision it was read at by exactly one; a
      reset forgets it; anything else changes nothing. */
  lemma StepEffect(env: Env, run: seq<Request>, n: nat)
    requires n < |run|
    ensures var before, after := FileAt(env, run, n), FileAt(env, run, n + 1);
      if Accepted(env, run, n) then
        after.Some? && StoredRevision(after) == StoredRevision(before) + 1 == ReadAt(run[n].payload) + 1
      else if run[n].Reset? then after == None
      else after == before
  {
  }

  predicate NoReset(run: seq<Request>, i: nat, j: nat)
    requires j <= |run|
  {
    forall k :: i <= k < j ==> run[k].Save?
  }

  /** Between resets the revision never falls, and it stays where it is only while the file
      does. */
  lemma {:induction false} RevisionNamesTheFile(env: Env, run: seq<Request>, i: nat, j: nat)
    requires i <= j <= |run| && NoReset(run, i, j)
    ensures StoredRevision(FileAt(env, run, i)) <= StoredRevision(FileAt(env, run, j))
    ensures StoredRevision(FileAt(env, run, i)) == StoredRevision(FileAt(env, run, j)) ==>
              FileAt(env, run, i) == FileAt(env, run, j)
    decreases j
  {
    if i < j {
      RevisionNamesTheFile(env, run, i, j - 1);
      StepEffect(env, run, j - 1);
    }
  }

  /** No lost update: between resets a save is accepted only over the very file its author
      read, whatever other saves came in between. */
  lemma SavedOverWhatWasRead(env: Env, run: seq<Request>, i: nat, j: nat)
    requires i <= j < |run| && NoReset(run, i, j)
    requires Accepted(env, run, j) && ReadAt(run[j].payload) == StoredRevision(FileAt(env, run, i))
    ensures FileAt(env, run, j) == FileAt(env, run, i)
  {
    StepEffect(env, run, j);
    RevisionNamesTheFile(env, run, i, j);
  }

  /** Between resets at most one save per revision is accepted. */
  lemma OneSavePerRevision(env: Env, run: seq<Request>, i: nat, j: nat)
    requires i < j < |run| && NoReset(run, i, j)
    requires Accepted(env, run, i) && Accepted(env, run, j)
    ensures ReadAt(run[i].payload) < ReadAt(run[j].payload)
  {
    StepEffect(env, run, i);
    StepEffect(env, run, j);
    RevisionNamesTheFile(env, run, i + 1, j);
  }

  /** An accepted save stores its author's sheets. */
  lemma AcceptedSheets(env: Env, run: seq<Request>, n: nat)
    requires n < |run| && Accepted(env, run, n)
    ensures FileAt(env, run, n + 1).Some?
    ensures Get(FileAt(env, run, n + 1).value, Key.Sheets) == Get(Clean(env, run[n].payload), Key.Sheets)
  {
  }

  function PlainSheet(id: string): Json { Obj(map[Key.Id := Str(id), Key.Name := Str(id)]) }

  /** A one-sheet document. */
  function Plain(id: string, revision: nat): Json {
    Obj(map[Key.ApiVersion := Str(API_VERSION), Key.Kind := Str(KIND), Key.Revision := Int(revision),
            Key.Sheets := List([PlainSheet(id)])])
  }

  lemma PlainSheetIsOk(env: Env, id: string)
    requires IdOk(Str(id))
    ensures SheetOk(env, PlainSheet(id))
  {
    assert !IsBlank(id[0]);
    assert "operational" == ["operational", "concept"][0];
  }

  lemma PlainIsOk(env: Env, id: string, revision: nat)
    requires IdOk(Str(id))
    ensures WorkspaceOk(env, Plain(id, revision))
  {
    var doc, sheet := Plain(id, revision), PlainSheet(id);
    PlainSheetIsOk(env, id);
    assert Labels.IsLabel("default");
    assert ListAt(doc, Key.Sheets) == List([sheet]);
  }

  lemma PlainSheets(env: Env, id: string, revision: nat)
    ensures Get(Clean(env, Plain(id, revision)), Key.Sheets)
         == List([CleanSheet(PlainSheet(id))])
  {
    var doc, sheet := Plain(id, revision), PlainSheet(id);
    CleanAt(env, doc, Key.Sheets);
    assert CleanSheets([sheet]) == [CleanSheet(sheet)];
  }

  lemma OtherSheets(env: Env, a: string, b: string)
    requires a != b
    ensures Get(Clean(env, Plain(a, 0)), Key.Sheets) != Get(Clean(env, Plain(b, 0)), Key.Sheets)
  {
    var first, second := PlainSheet(a), PlainSheet(b);
    PlainSheets(env, a, 0);
    PlainSheets(env, b, 0);
    CleanSheetAt(first, Key.Id);
    CleanSheetAt(second, Key.Id);
    assert [CleanSheet(first)][0] != [CleanSheet(second)][0];
  }

  /** One author saves a document, the workspace is reset, another saves a different one, and
      then the first author saves over the revision 1 it once read. */
  function ResetRun(projected: Json, stamp: Stamp): (run: seq<Request>)
    ensures |run| == 4 && run[1].Reset? && run[0].Save? && run[2].Save? && run[3].Save?
    ensures run[0].payload == Plain("a", 0) && run[2].payload == Plain("b", 0) && run[3].payload == Plain("a", 1)
    ensures run[0].fits && run[2].fits && run[3].fits
  {
    [Save(Plain("a", 0), true, projected, [], stamp), Reset, Save(Plain("b", 0), true, projected, [], stamp),
     Save(Plain("a", 1), true, projected, [], stamp)]
  }

  lemma PlainIsAccepted(env: Env, run: seq<Request>, n: nat, id: string, revision: nat)
    requires n < |run| && run[n].Save? && run[n].fits
    requires IdOk(Str(id)) && run[n].payload == Plain(id, revision) && StoredRevision(FileAt(env, run, n)) == revision
    ensures Accepted(env, run, n)
  {
    PlainIsOk(env, id, revision);
  }

  /** Across a reset the revision starts over, so the same revision can name another file: a
      save that read revision 1 before the reset is accepted over a revision 1 its author
      never saw. */
  lemma ResetLosesAnUpdateExample(env: Env, projected: Json, stamp: Stamp)
    ensures var run := ResetRun(projected, stamp);
      && Accepted(env, run, 3)
      && StoredRevision(FileAt(env, run, 1)) == StoredRevision(FileAt(env, run, 3)) == 1
      && FileAt(env, run, 1) != FileAt(env, run, 3)
  {
    var run := ResetRun(projected, stamp);
    PlainIsAccepted(env, run, 0, "a", 0);
    StepEffect(env, run, 0);
    StepEffect(env, run, 1);
    PlainIsAccepted(env, run, 2, "b", 0);
    StepEffect(env, run, 2);
    PlainIsAccepted(env, run, 3, "a", 1);
    AcceptedSheets(env, run, 0);
    AcceptedSheets(env, run, 2);
    OtherSheets(env, "a", "b");
  }

  // ----- The adoption marker ----------------------------------------------

  /** A save writes the marker exactly when its payload carries it. */
  lemma MarkerIsThePayloads(env: Env, run: seq<Request>, n: nat)
    requires n < |run| && Accepted(env, run, n)
    ensures Get(FileAt(env, run, n + 1).value, Key.AdoptedRelationships) == Bool(true) <==>
            Get(run[n].payload, Key.AdoptedRelationships) == Bool(true)
  {
    CleanAt(env, run[n].payload, Key.AdoptedRelationships);
  }

  predicate KeepsMarker(env: Env, run: seq<Request>, n: nat)
    requires n < |run|
  {
    run[n].Save? && (Accepted(env, run, n) ==> IsMarked(run[n].payload))
  }

  lemma MarkerStep(env: Env, run: seq<Request>, n: nat)
    requires n < |run| && KeepsMarker(env, run, n)
    requires FileAt(env, run, n).Some? && IsMarked(FileAt(env, run, n).value)
    ensures FileAt(env, run, n + 1).Some? && IsMarked(FileAt(env, run, n + 1).value)
  {
    StepEffect(env, run, n);
    if Accepted(env, run, n) {
      MarkerIsThePayloads(env, run, n);
    }
  }

  lemma {:induction false} MarkerStays(env: Env, run: seq<Request>, i: nat, j: nat)
    requires i <= j <= |run|
    requires FileAt(env, run, i).Some? && IsMarked(FileAt(env, run, i).value)
    requires forall k :: i <= k < j ==> KeepsMarker(env, run, k)
    ensures FileAt(env, run, j).Some? && IsMarked(FileAt(env, run, j).value)
    decreases j
  {
    if i < j {
      MarkerStays(env, run, i, j - 1);
      MarkerStep(env, run, j - 1);
    }
  }

  /** A read that adopts changes the connections of each sheet and marks the document, so that
      saving it back stops later reads from adopting again. */
  lemma AdoptedSays(doc: Json, rels: seq<Relationship>)
    requires doc.Obj? && Get(doc, Key.Sheets).List?
    ensures var out := AdoptDocument(doc, rels);
      && Get(out, Key.AdoptedRelationships) == Bool(true)
      && (forall key :: key !in {Key.AdoptedRelationships, Key.Sheets} ==> Get(out, key) == Get(doc, key))
      && Get(out, Key.Sheets).List? && |Get(out, Key.Sheets).items| == |Get(doc, Key.Sheets).items|
      && forall i :: 0 <= i < |Get(doc, Key.Sheets).items| ==>
           AdoptedFrom(Get(doc, Key.Sheets).items[i], Get(out, Key.Sheets).items[i], rels)
  {
    assert ListAt(doc, Key.Sheets) == Get(doc, Key.Sheets);
  }

  /** A sheet after adoption: its connections followed by the new ones, and all else as it was. */
  ghost predicate AdoptedFrom(sheet: Json, out: Json, rels: seq<Relationship>) {
    sheet.Obj? ==>
      && out.Obj? && Get(out, Key.Connections) == List(Adopt(RefsOf(sheet), Conns(sheet), rels))
      && forall key :: key != Key.Connections ==> Get(out, key) == Get(sheet, key)
  }

  /** Once the marker is stored, and as long as every accepted save carries it and nothing is
      reset, no read ever adds a connection: each returns the stored document. */
  lemma NoLaterReadAdopts(env: Env, run: seq<Request>, i: nat, j: nat, projected: Json, rels: seq<Relationship>)
    requires i <= j <= |run|
    requires FileAt(env, run, i).Some? && IsMarked(FileAt(env, run, i).value)
    requires forall k :: i <= k < j ==> KeepsMarker(env, run, k)
    ensures FileAt(env, run, j).Some?
    ensures Reading(env, FileAt(env, run, j), projected, rels) == Clean(env, FileAt(env, run, j).value)
  {
    MarkerStays(env, run, i, j);
    StoreAlwaysOk(env, run, j);
    MarkedReadsBack(env, FileAt(env, run, j), projected, rels);
  }

  lemma MarkedReadsBack(env: Env, file: Option<Json>, projected: Json, rels: seq<Relationship>)
    requires StoreOk(env, file) && file.Some? && IsMarked(file.value)
    ensures Reading(env, file, projected, rels) == Clean(env, file.value)
  {
    CleanAt(env, file.value, Key.AdoptedRelationships);
  }
}
