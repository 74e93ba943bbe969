/** The workspace validator: it accepts exactly the documents of the specification and
    returns what is kept of them (control-plane/nexus/plugin_api.py:5568-5818). */
module WorkspaceValidator {
  import opened Wrappers
  import opened Json
  import opened Labels
  import opened WorkspaceSpec

  /** The loop every list of items goes through: shape by shape, with a set of seen keys. */
  method CheckItems(v: Json, cap: nat, ok: Json -> bool, key: Json -> string) returns (good: bool)
    ensures good == ItemsOk(v, cap, ok, key)
  {
    if !v.List? || |v.items| > cap {
      return false;
    }
    var seen: set<string> := {};
    for i := 0 to |v.items|
      invariant forall k :: 0 <= k < i ==> ok(v.items[k]) && key(v.items[k]) in seen
      invariant forall s :: s in seen ==> exists k :: 0 <= k < i && key(v.items[k]) == s
      invariant forall k, l :: 0 <= k < l < i ==> key(v.items[k]) != key(v.items[l])
    {
      if !ok(v.items[i]) || key(v.items[i]) in seen {
        return false;
      }
      seen := seen + {key(v.items[i])};
    }
    good := true;
  }

  /** One group's members, none of them claimed yet by it or an earlier group. */
  method CheckMembers(members: seq<Json>, ok: Json -> bool, claimed: set<Json>, ghost before: seq<Json>)
    returns (good: bool, claims: set<Json>)
    requires NoRepeats(before) && forall m :: m in claimed <==> m in before
    ensures good <==> (forall i :: 0 <= i < |members| ==> ok(members[i])) && NoRepeats(before + members)
    ensures good ==> forall m :: m in claims <==> m in before + members
  {
    claims := claimed;
    ghost var now := before;
    for i := 0 to |members|
      invariant forall k :: 0 <= k < i ==> ok(members[k])
      invariant now == before + members[..i] && NoRepeats(now)
      invariant forall m :: m in claims <==> m in now
    {
      var m := members[i];
      if !ok(m) {
        return false, claims;
      }
      OneMore(now, m);
      now := now + [m];
      assert now == before + members[..i + 1];
      if m in claims {
        Prefixed(before, members, i + 1);
        return false, claims;
      }
      claims := claims + {m};
    }
    assert now == before + members;
    good := true;
  }

  lemma OneMore(s: seq<Json>, m: Json)
    requires NoRepeats(s)
    ensures NoRepeats(s + [m]) <==> m !in s
  {
    assert forall i :: 0 <= i < |s| ==> (s + [m])[i] == s[i];
    assert (s + [m])[|s|] == m;
  }

  lemma Prefixed(before: seq<Json>, members: seq<Json>, i: nat)
    requires i <= |members|
    ensures NoRepeats(before + members) ==> NoRepeats(before + members[..i])
  {
    var all, part := before + members, before + members[..i];
    assert forall k :: 0 <= k < |part| ==> part[k] == all[k];
  }

  /** The group loop, with its two sets. */
  method CheckGroups(v: Json) returns (good: bool)
    ensures good == GroupsOk(v)
  {
    good := CheckItems(v, MAX_GROUPS, GroupOk, IdOf);
    if !good {
      return;
    }
    var claimed: set<Json> := {};
    for i := 0 to |v.items|
      invariant NoRepeats(AllMembers(v.items[..i]))
      invariant forall m :: m in claimed <==> m in AllMembers(v.items[..i])
    {
      assert v.items[..i + 1][..i] == v.items[..i];
      var members := Get(v.items[i], Key.Members).items;
      good, claimed := CheckMembers(members, MemberOk, claimed, AllMembers(v.items[..i]));
      if !good {
        RepeatsStay(v.items, i + 1);
        return;
      }
    }
    assert v.items[..|v.items|] == v.items;
  }

  /** A repeated member stays repeated whatever groups follow. */
  lemma RepeatsStay(groups: seq<Json>, i: nat)
    requires i <= |groups|
    ensures NoRepeats(AllMembers(groups)) ==> NoRepeats(AllMembers(groups[..i]))
  {
    MembersExtend(groups, i);
    var part, all := AllMembers(groups[..i]), AllMembers(groups);
    assert forall k :: 0 <= k < |part| ==> part[k] == all[k];
  }

  lemma {:induction false} MembersExtend(groups: seq<Json>, i: nat)
    requires i <= |groups|
    ensures AllMembers(groups[..i]) <= AllMembers(groups)
    decreases |groups| - i
  {
    if i < |groups| {
      MembersExtend(groups, i + 1);
      assert groups[..i + 1][..i] == groups[..i];
    } else {
      assert groups[..i] == groups;
    }
  }

  function MembersOf(group: Json): seq<Json> {
    if Get(group, Key.Members).List? then Get(group, Key.Members).items else []
  }

  lemma MemberAt(groups: seq<Json>, i: nat, a: nat)
    requires i < |groups| && a < |MembersOf(groups[i])|
    ensures |AllMembers(groups[..i])| + a < |AllMembers(groups[..i + 1])| <= |AllMembers(groups)|
    ensures AllMembers(groups)[|AllMembers(groups[..i])| + a] == MembersOf(groups[i])[a]
  {
    MembersExtend(groups, i + 1);
    assert groups[..i + 1][..i] == groups[..i];
    assert AllMembers(groups[..i + 1]) == AllMembers(groups[..i]) + MembersOf(groups[i]);
  }

  lemma EarlierGroupEarlierPlace(groups: seq<Json>, i: nat, a: nat, j: nat)
    requires i < j < |groups| && a < |MembersOf(groups[i])|
    ensures |AllMembers(groups[..i])| + a < |AllMembers(groups[..j])|
  {
    MemberAt(groups, i, a);
    MembersExtend(groups[..j], i + 1);
    assert groups[..j][..i + 1] == groups[..i + 1];
  }

  /** Accepted groups list every member once: not twice in one group, not in two groups. */
  lemma EveryMemberHasOneHome(groups: seq<Json>, i: nat, a: nat, j: nat, b: nat)
    requires NoRepeats(AllMembers(groups)) && i < |groups| && j < |groups|
    requires a < |MembersOf(groups[i])| && b < |MembersOf(groups[j])| && (i != j || a != b)
    ensures MembersOf(groups[i])[a] != MembersOf(groups[j])[b]
  {
    MemberAt(groups, i, a);
    MemberAt(groups, j, b);
    if i < j {
      EarlierGroupEarlierPlace(groups, i, a, j);
    } else if j < i {
      EarlierGroupEarlierPlace(groups, j, b, i);
    }
  }

  // ----- Sheets -----------------------------------------------------------

  /** The list half of a sheet. */
  method CheckLists(env: Env, sheet: Json) returns (good: bool)
    ensures good == SheetListsOk(env, sheet)
  {
    good := CheckItems(ListAt(sheet, Key.Cards), MAX_CARDS, CardOk, CardKey);
    if !good { return; }
    if !Get(sheet, Key.Objects).Null? {
      good := CheckItems(Get(sheet, Key.Objects), MAX_OBJECTS, ObjectCheck(env), IdOf);
      if !good { return; }
    }
    good := CheckItems(ListAt(sheet, Key.Shapes), MAX_SHAPES, ShapeOk, IdOf);
    if !good { return; }
    good := CheckItems(ListAt(sheet, Key.Texts), MAX_TEXTS, TextOk, IdOf);
    if !good { return; }
    good := CheckItems(ListAt(sheet, Key.Notes), MAX_NOTES, NoteOk, IdOf);
    if !good { return; }
    good := CheckItems(ListAt(sheet, Key.Connections), MAX_CONNECTIONS, ConnectionOk, IdOf);
    if !good { return; }
    if !Get(sheet, Key.Groups).Null? {
      good := CheckGroups(Get(sheet, Key.Groups));
    }
  }

  /** `_validate_sheet`. */
  method ValidateSheet(env: Env, sheet: Json, seen: set<string>) returns (out: Option<Json>, now: set<string>)
    ensures out.Some? <==> SheetOk(env, sheet) && IdOf(sheet) !in seen
    ensures out.Some? ==> out.value == CleanSheet(sheet) && now == seen + {IdOf(sheet)}
  {
    out, now := None, seen;
    if !SheetHeadOk(sheet) || IdOf(sheet) in seen {
      return;
    }
    now := seen + {IdOf(sheet)};
    var good := CheckLists(env, sheet);
    if !good {
      return;
    }
    var fields := WriteFields(sheet);
    out := Some(Obj(fields));
  }

  /** What is kept of a sheet, field by field. */
  method WriteFields(sheet: Json) returns (fields: Fields)
    ensures fields == SheetFields(sheet, SHEET_ORDER)
  {
    fields := map[];
    for i := 0 to |SHEET_ORDER|
      invariant fields == SheetFields(sheet, SHEET_ORDER[..i])
    {
      var key := SHEET_ORDER[i];
      assert SHEET_ORDER[..i + 1][..i] == SHEET_ORDER[..i];
      if !IsDropped(sheet, key) {
        fields := fields[key := SheetField(sheet, key)];
      }
    }
    assert SHEET_ORDER[..|SHEET_ORDER|] == SHEET_ORDER;
  }

  // ----- Documents --------------------------------------------------------

  /** The sheet loop. */
  method ValidateSheets(env: Env, items: seq<Json>) returns (clean: Option<seq<Json>>)
    ensures clean.Some? <==> AllSheetsOk(env, items) && DistinctIds(items)
    ensures clean.Some? ==> clean.value == CleanSheets(items)
  {
    var seen: set<string>, kept: seq<Json> := {}, [];
    for i := 0 to |items|
      invariant AllSheetsOk(env, items[..i]) && DistinctIds(items[..i])
      invariant seen == IdsOf(items[..i])
      invariant kept == CleanSheets(items[..i])
    {
      var sheet, now := ValidateSheet(env, items[i], seen);
      NextSheet(env, items, i);
      if sheet.None? {
        return None;
      }
      seen, kept := now, kept + [sheet.value];
    }
    assert items[..|items|] == items;
    clean := Some(kept);
  }

  function IdsOf(items: seq<Json>): set<string> { set k | 0 <= k < |items| :: IdOf(items[k]) }

  /** One more sheet is fine when it is fine itself and its id is new; once one is not, the
      document is not. */
  lemma NextSheet(env: Env, items: seq<Json>, i: nat)
    requires i < |items| && AllSheetsOk(env, items[..i]) && DistinctIds(items[..i])
    ensures AllSheetsOk(env, items[..i + 1]) && DistinctIds(items[..i + 1])
            <==> SheetOk(env, items[i]) && IdOf(items[i]) !in IdsOf(items[..i])
    ensures AllSheetsOk(env, items) && DistinctIds(items) ==>
              AllSheetsOk(env, items[..i + 1]) && DistinctIds(items[..i + 1])
    ensures IdsOf(items[..i + 1]) == IdsOf(items[..i]) + {IdOf(items[i])}
  {
    assert items[..i + 1] == items[..i] + [items[i]];
    assert forall k :: 0 <= k < i ==> items[..i][k] == items[k] && items[..i + 1][k] == items[k];
    assert items[..i + 1][i] == items[i];
  }

  /** `validate_workspace`: it accepts exactly the specified documents, and returns what is
      kept of them. */
  method ValidateWorkspace(env: Env, doc: Json) returns (out: Option<Json>)
    ensures out.Some? <==> WorkspaceOk(env, doc)
    ensures out.Some? ==> out.value == Clean(env, doc)
  {
    out := None;
    var sheets := ListAt(doc, Key.Sheets);
    if !WorkspaceHeadOk(doc) || !sheets.List? || sheets.items == [] || |sheets.items| > MAX_SHEETS {
      return;
    }
    var clean := ValidateSheets(env, sheets.items);
    if clean.None? {
      return;
    }
    var fields: Fields := map[];
    for i := 0 to |WORKSPACE_ORDER|
      invariant fields == WorkspaceFields(env, doc, WORKSPACE_ORDER[..i])
    {
      var key := WORKSPACE_ORDER[i];
      assert WORKSPACE_ORDER[..i + 1][..i] == WORKSPACE_ORDER[..i];
      if key.Sheets? {
        fields := fields[key := List(clean.value)];
      } else if IsKept(doc, key) {
        fields := fields[key := WorkspaceField(env, doc, key)];
      }
    }
    assert WORKSPACE_ORDER[..|WORKSPACE_ORDER|] == WORKSPACE_ORDER;
    out := Some(Obj(fields));
  }
}
