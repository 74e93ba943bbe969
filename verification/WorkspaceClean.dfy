/** Validating what the validator returned changes nothing more. */
module WorkspaceClean {
  import opened Wrappers
  import opened Json
  import opened WorkspaceSpec

  lemma {:induction false} ChosenAt(keys: seq<Key>, keep: Key -> bool, value: Key -> Json, key: Key)
    ensures key in Chosen(keys, keep, value) <==> key in keys && keep(key)
    ensures key in Chosen(keys, keep, value) ==> Chosen(keys, keep, value)[key] == value(key)
    decreases |keys|
  {
    if keys != [] {
      ChosenAt(keys[..|keys| - 1], keep, value, key);
      assert keys == keys[..|keys| - 1] + [keys[|keys| - 1]];
    }
  }

  /** Two choices that agree on every key write the same fields. */
  lemma {:induction false} ChosenAlike(keys: seq<Key>, keep: Key -> bool, value: Key -> Json,
                                       keep': Key -> bool, value': Key -> Json)
    requires forall key :: key in keys ==> keep(key) == keep'(key) && (keep(key) ==> value(key) == value'(key))
    ensures Chosen(keys, keep, value) == Chosen(keys, keep', value')
    decreases |keys|
  {
    if keys != [] {
      ChosenAlike(keys[..|keys| - 1], keep, value, keep', value');
    }
  }

  /** A cleaned sheet holds exactly the sheet's keys: each option when it was given, every
      other field always, with its default where it was absent. */
  lemma CleanSheetAt(sheet: Json, key: Key)
    ensures Has(CleanSheet(sheet), key) <==> key in SHEET_ORDER && !IsDropped(sheet, key)
    ensures Has(CleanSheet(sheet), key) ==> Get(CleanSheet(sheet), key) == SheetField(sheet, key)
  {
    ChosenAt(SHEET_ORDER, k => !IsDropped(sheet, k), k => SheetField(sheet, k), key);
  }

  /** A field that is there is kept as it is. */
  lemma KeptField(sheet: Json, v: Json, key: Key)
    requires Has(v, key) && Get(v, key) == SheetField(sheet, key) && !IsDropped(sheet, key)
    ensures !IsDropped(v, key) && SheetField(v, key) == SheetField(sheet, key)
  {
  }

  lemma SameField(sheet: Json, key: Key)
    requires key in SHEET_ORDER
    ensures IsDropped(CleanSheet(sheet), key) <==> IsDropped(sheet, key)
    ensures !IsDropped(sheet, key) ==> SheetField(CleanSheet(sheet), key) == SheetField(sheet, key)
  {
    CleanSheetAt(sheet, key);
    if !IsDropped(sheet, key) {
      KeptField(sheet, CleanSheet(sheet), key);
    }
  }

  lemma CleanSheetTwice(sheet: Json)
    ensures CleanSheet(CleanSheet(sheet)) == CleanSheet(sheet)
  {
    var clean := CleanSheet(sheet);
    forall key | key in SHEET_ORDER
      ensures IsDropped(clean, key) <==> IsDropped(sheet, key)
      ensures !IsDropped(sheet, key) ==> SheetField(clean, key) == SheetField(sheet, key)
    {
      SameField(sheet, key);
    }
    ChosenAlike(SHEET_ORDER, key => !IsDropped(clean, key), key => SheetField(clean, key),
                key => !IsDropped(sheet, key), key => SheetField(sheet, key));
  }

  lemma CleanSheetKeys(sheet: Json)
    ensures CleanSheet(sheet).fields.Keys <= SHEET_KEYS
  {
    forall key | key in CleanSheet(sheet).fields ensures key in SHEET_KEYS {
      CleanSheetAt(sheet, key);
      assert forall k :: k in SHEET_ORDER ==> k in SHEET_KEYS;
    }
  }

  lemma CleanHeadOk(sheet: Json)
    requires SheetHeadOk(sheet)
    ensures SheetHeadOk(CleanSheet(sheet)) && Get(CleanSheet(sheet), Key.Id) == Get(sheet, Key.Id)
  {
    CleanSheetKeys(sheet);
    SameScalar(sheet, Key.Id);
    SameScalar(sheet, Key.Name);
    SameScalar(sheet, Key.Viewport);
    CleanMode(sheet);
    CleanSettings(sheet);
  }

  lemma SameScalar(sheet: Json, key: Key)
    requires key in [Key.Id, Key.Name, Key.Viewport]
    ensures Get(CleanSheet(sheet), key) == Get(sheet, key)
  {
    CleanSheetAt(sheet, key);
  }

  lemma CleanMode(sheet: Json)
    ensures GetOr(CleanSheet(sheet), Key.Mode, Str("operational")) == GetOr(sheet, Key.Mode, Str("operational"))
  {
    CleanSheetAt(sheet, Key.Mode);
  }

  lemma CleanSettings(sheet: Json)
    requires Get(sheet, Key.Settings).Null? || SettingsOk(Get(sheet, Key.Settings))
    ensures Get(CleanSheet(sheet), Key.Settings).Null? || SettingsOk(Get(CleanSheet(sheet), Key.Settings))
  {
    CleanSheetAt(sheet, Key.Settings);
  }

  /** The lists are passed on as they are. */
  lemma SameList(sheet: Json, key: Key)
    requires key in [Key.Cards, Key.Shapes, Key.Texts, Key.Notes, Key.Connections]
    ensures ListAt(CleanSheet(sheet), key) == ListAt(sheet, key)
  {
    CleanSheetAt(sheet, key);
  }

  lemma SameOption(sheet: Json, key: Key)
    requires key in [Key.Objects, Key.Groups]
    ensures Get(CleanSheet(sheet), key) == Get(sheet, key)
  {
    CleanSheetAt(sheet, key);
  }

  lemma CleanSheetOk(env: Env, sheet: Json)
    requires SheetOk(env, sheet)
    ensures SheetOk(env, CleanSheet(sheet)) && IdOf(CleanSheet(sheet)) == IdOf(sheet)
  {
    CleanHeadOk(sheet);
    SameList(sheet, Key.Cards);
    SameList(sheet, Key.Shapes);
    SameList(sheet, Key.Texts);
    SameList(sheet, Key.Notes);
    SameList(sheet, Key.Connections);
    SameOption(sheet, Key.Objects);
    SameOption(sheet, Key.Groups);
  }

  lemma CleanSheetsOk(env: Env, sheets: seq<Json>)
    requires AllSheetsOk(env, sheets) && DistinctIds(sheets)
    ensures AllSheetsOk(env, CleanSheets(sheets)) && DistinctIds(CleanSheets(sheets))
    ensures CleanSheets(CleanSheets(sheets)) == CleanSheets(sheets)
  {
    var clean := CleanSheets(sheets);
    forall k | 0 <= k < |sheets|
      ensures SheetOk(env, clean[k]) && IdOf(clean[k]) == IdOf(sheets[k]) && CleanSheet(clean[k]) == clean[k]
    {
      CleanSheetOk(env, sheets[k]);
      CleanSheetTwice(sheets[k]);
    }
  }

  // ----- Documents --------------------------------------------------------

  /** What a cleaned document holds under each key. */
  lemma CleanAt(env: Env, doc: Json, key: Key)
    ensures Has(Clean(env, doc), key) <==> key in WORKSPACE_ORDER && IsKept(doc, key)
    ensures Has(Clean(env, doc), key) ==> Get(Clean(env, doc), key) == WorkspaceField(env, doc, key)
  {
    ChosenAt(WORKSPACE_ORDER, k => IsKept(doc, k), k => WorkspaceField(env, doc, k), key);
  }

  /** `str()` of a JSON value other than a string is never empty. */
  ghost predicate ShowsSomething(env: Env) { forall v: Json :: env.show(v) != "" }

  lemma SavedByTwice(env: Env, doc: Json)
    requires ShowsSomething(env) && Truthy(Get(doc, Key.SavedBy))
    ensures var v := WorkspaceField(env, doc, Key.SavedBy);
      Truthy(v) && Str(Clipped(Shown(env, v), MAX_SUBJECT)) == v
  {
    assert Shown(env, Get(doc, Key.SavedBy)) != "";
  }

  /** A field that is there is kept as it is, once its own value would be kept. */
  lemma KeptWorkspaceField(env: Env, doc: Json, v: Json, key: Key)
    requires Has(v, key) && Get(v, key) == WorkspaceField(env, doc, key) && IsKept(doc, key)
    requires key.SavedBy? ==>
      Truthy(WorkspaceField(env, doc, key)) && Str(Clipped(Shown(env, Get(v, key)), MAX_SUBJECT)) == Get(v, key)
    requires key.Sheets? ==>
      ListAt(v, key).List? && CleanSheets(ListAt(v, key).items) == ListAt(v, key).items
    ensures IsKept(v, key) && WorkspaceField(env, v, key) == WorkspaceField(env, doc, key)
  {
  }

  lemma SameWorkspaceField(env: Env, doc: Json, key: Key)
    requires WorkspaceOk(env, doc) && ShowsSomething(env) && key in WORKSPACE_ORDER
    ensures IsKept(Clean(env, doc), key) <==> IsKept(doc, key)
    ensures IsKept(doc, key) ==> WorkspaceField(env, Clean(env, doc), key) == WorkspaceField(env, doc, key)
  {
    CleanAt(env, doc, key);
    if IsKept(doc, key) {
      if key.SavedBy? {
        SavedByTwice(env, doc);
      }
      if key.Sheets? {
        CleanSheetsOk(env, ListAt(doc, Key.Sheets).items);
      }
      KeptWorkspaceField(env, doc, Clean(env, doc), key);
    }
  }

  lemma SameWorkspaceFields(env: Env, doc: Json)
    requires WorkspaceOk(env, doc) && ShowsSomething(env)
    ensures Clean(env, Clean(env, doc)) == Clean(env, doc)
  {
    var clean := Clean(env, doc);
    forall key | key in WORKSPACE_ORDER
      ensures IsKept(clean, key) <==> IsKept(doc, key)
      ensures IsKept(doc, key) ==> WorkspaceField(env, clean, key) == WorkspaceField(env, doc, key)
    {
      SameWorkspaceField(env, doc, key);
    }
    ChosenAlike(WORKSPACE_ORDER, key => IsKept(clean, key), key => WorkspaceField(env, clean, key),
                key => IsKept(doc, key), key => WorkspaceField(env, doc, key));
  }

  lemma CleanKeys(env: Env, doc: Json)
    ensures Clean(env, doc).fields.Keys <= WORKSPACE_KEYS
  {
    forall key | key in Clean(env, doc).fields ensures key in WORKSPACE_KEYS {
      CleanAt(env, doc, key);
      assert forall k :: k in WORKSPACE_ORDER ==> k in WORKSPACE_KEYS;
    }
  }

  lemma CleanIsOk(env: Env, doc: Json)
    requires WorkspaceOk(env, doc)
    ensures WorkspaceOk(env, Clean(env, doc))
  {
    CleanWorkspaceHeadOk(env, doc);
    CleanAt(env, doc, Key.Sheets);
    CleanSheetsOk(env, ListAt(doc, Key.Sheets).items);
  }

  lemma CleanWorkspaceHeadOk(env: Env, doc: Json)
    requires WorkspaceHeadOk(doc)
    ensures WorkspaceHeadOk(Clean(env, doc))
  {
    CleanKeys(env, doc);
    CleanAt(env, doc, Key.ApiVersion);
    CleanAt(env, doc, Key.Kind);
    CleanAt(env, doc, Key.Environment);
    CleanAt(env, doc, Key.Revision);
  }

  /** The validator accepts its own output and returns it unchanged. */
  lemma CleanIsIdempotent(env: Env, doc: Json)
    requires WorkspaceOk(env, doc) && ShowsSomething(env)
    ensures WorkspaceOk(env, Clean(env, doc)) && Clean(env, Clean(env, doc)) == Clean(env, doc)
  {
    CleanIsOk(env, doc);
    SameWorkspaceFields(env, doc);
  }

  // ----- What a save keeps, field by field --------------------------------

  /** One field of a cleaned sheet against the sheet sent: what was there comes back unchanged -
      settings with their badges, or with none - the mode and the lists are filled in where they
      were left out, null options are dropped, and there is nothing else. */
  predicate FieldKept(sheet: Json, clean: Json, key: Key) {
    var sent, kept := Get(sheet, key), Get(clean, key);
    match key
    case Id => Has(clean, key) && kept == sent
    case Name => Has(clean, key) && kept == sent
    case Mode => Has(clean, key) && kept == if Has(sheet, key) then sent else Str("operational")
    case Cards => Has(clean, key) && kept == if Has(sheet, key) then sent else List([])
    case Shapes => Has(clean, key) && kept == if Has(sheet, key) then sent else List([])
    case Texts => Has(clean, key) && kept == if Has(sheet, key) then sent else List([])
    case Notes => Has(clean, key) && kept == if Has(sheet, key) then sent else List([])
    case Connections => Has(clean, key) && kept == if Has(sheet, key) then sent else List([])
    case Viewport => (Has(clean, key) <==> !sent.Null?) && kept == sent
    case Objects => (Has(clean, key) <==> !sent.Null?) && kept == sent
    case Groups => (Has(clean, key) <==> !sent.Null?) && kept == sent
    case Settings => (Has(clean, key) <==> !sent.Null?) && (Has(clean, key) ==> kept == KeptSettings(sent))
    case _ => !Has(clean, key)
  }

  /** Settings hold the badges sent, or the empty list. */
  function KeptSettings(settings: Json): Json {
    if Has(settings, Key.SourceBadges) then Obj(map[Key.SourceBadges := Get(settings, Key.SourceBadges)])
    else Obj(map[Key.SourceBadges := List([])])
  }

  ghost predicate SheetKept(sheet: Json, clean: Json) { clean.Obj? && forall key :: FieldKept(sheet, clean, key) }

  lemma OptionKept(sheet: Json, key: Key)
    requires key in [Key.Viewport, Key.Objects, Key.Groups]
    ensures FieldKept(sheet, CleanSheet(sheet), key)
  {
    CleanSheetAt(sheet, key);
  }

  lemma SettingsKept(sheet: Json)
    ensures FieldKept(sheet, CleanSheet(sheet), Key.Settings)
  {
    CleanSheetAt(sheet, Key.Settings);
  }

  lemma ListKept(sheet: Json, key: Key)
    requires key in [Key.Cards, Key.Shapes, Key.Texts, Key.Notes, Key.Connections]
    ensures FieldKept(sheet, CleanSheet(sheet), key)
  {
    CleanSheetAt(sheet, key);
  }

  lemma ScalarKept(sheet: Json, key: Key)
    requires key in [Key.Id, Key.Name, Key.Mode]
    ensures FieldKept(sheet, CleanSheet(sheet), key)
  {
    CleanSheetAt(sheet, key);
  }

  lemma NothingElse(sheet: Json, key: Key)
    requires key !in SHEET_ORDER
    ensures FieldKept(sheet, CleanSheet(sheet), key)
  {
    CleanSheetAt(sheet, key);
  }

  /** What is kept of a sheet, every field. */
  lemma CleanSheetKeeps(sheet: Json)
    ensures SheetKept(sheet, CleanSheet(sheet))
  {
    forall key ensures FieldKept(sheet, CleanSheet(sheet), key) {
      if key.Settings? {
        SettingsKept(sheet);
      } else if key in [Key.Viewport, Key.Objects, Key.Groups] {
        OptionKept(sheet, key);
      } else if key in [Key.Id, Key.Name, Key.Mode] {
        ScalarKept(sheet, key);
      } else if key in [Key.Cards, Key.Shapes, Key.Texts, Key.Notes, Key.Connections] {
        ListKept(sheet, key);
      } else {
        NothingElse(sheet, key);
      }
    }
  }

  /** One field of a cleaned document against the one sent. */
  predicate EntryKept(env: Env, doc: Json, clean: Json, key: Key) {
    var sent, kept := Get(doc, key), Get(clean, key);
    match key
    case ApiVersion => kept == Str("nexus.hermes.ai/v1alpha1")
    case Kind => kept == Str("NexusWorkspace")
    case Environment => Has(clean, key) && kept == if Has(doc, key) then sent else Str("default")
    case Revision => Has(clean, key) && kept == if Has(doc, key) then sent else Int(0)
    case FeatureFlags => Has(clean, key) && kept == if sent.Obj? then sent else Obj(map[])
    case SavedAt => (Has(clean, key) <==> sent.Str?) && (Has(clean, key) ==> kept == sent)
    case SavedBy => (Has(clean, key) <==> Truthy(sent)) && (Has(clean, key) ==> kept == KeptSubject(env, sent))
    case AdoptedRelationships => (Has(clean, key) <==> sent == Bool(true)) && (Has(clean, key) ==> kept == Bool(true))
    case Sheets => Has(clean, key)
    case _ => !Has(clean, key)
  }

  /** The author's name, as text, at most 200 characters of it. */
  function KeptSubject(env: Env, v: Json): Json {
    var text := if v.Str? then v.s else env.show(v);
    if |text| > 200 then Str(text[..200]) else Str(text)
  }

  lemma EntryIsKept(env: Env, doc: Json, clean: Json, key: Key)
    requires Get(doc, Key.ApiVersion) == Str(API_VERSION) && Get(doc, Key.Kind) == Str(KIND)
    requires Has(clean, key) <==> key in WORKSPACE_ORDER && IsKept(doc, key)
    requires Has(clean, key) ==> Get(clean, key) == WorkspaceField(env, doc, key)
    ensures EntryKept(env, doc, clean, key)
  {
    if key.SavedAt? || key.SavedBy? || key.AdoptedRelationships? {
      ServerEntryIsKept(env, doc, clean, key);
    }
  }

  lemma ServerEntryIsKept(env: Env, doc: Json, clean: Json, key: Key)
    requires key.SavedAt? || key.SavedBy? || key.AdoptedRelationships?
    requires Has(clean, key) <==> IsKept(doc, key)
    requires Has(clean, key) ==> Get(clean, key) == WorkspaceField(env, doc, key)
    ensures EntryKept(env, doc, clean, key)
  {
    SubjectIsKept(env, Get(doc, key));
  }

  lemma SubjectIsKept(env: Env, v: Json)
    ensures Str(Clipped(Shown(env, v), MAX_SUBJECT)) == KeptSubject(env, v)
  {
  }

  /** The same sheets in the same order, each kept. */
  ghost predicate SheetsKept(sent: Json, kept: Json) {
    && sent.List? && kept.List? && |kept.items| == |sent.items|
    && forall i :: 0 <= i < |kept.items| ==> SheetKept(sent.items[i], kept.items[i])
  }

  ghost predicate DocumentKept(env: Env, doc: Json, clean: Json) {
    && clean.Obj?
    && (forall key :: EntryKept(env, doc, clean, key))
    && SheetsKept(Get(doc, Key.Sheets), Get(clean, Key.Sheets))
  }

  /** What an accepted document is stored and read back as: the same sheets in the same order,
      each kept, and every other field as it was sent or by its default. */
  lemma CleanKeeps(env: Env, doc: Json)
    requires WorkspaceOk(env, doc)
    ensures DocumentKept(env, doc, Clean(env, doc))
  {
    SheetsAreThere(env, doc);
    forall key ensures EntryKept(env, doc, Clean(env, doc), key) {
      CleanAt(env, doc, key);
      EntryIsKept(env, doc, Clean(env, doc), key);
    }
    var sheets := Get(doc, Key.Sheets).items;
    forall i | 0 <= i < |sheets| ensures SheetKept(sheets[i], CleanSheet(sheets[i])) {
      CleanSheetKeeps(sheets[i]);
    }
  }

  lemma SheetsAreThere(env: Env, doc: Json)
    requires WorkspaceOk(env, doc)
    ensures Has(doc, Key.Sheets) && ListAt(doc, Key.Sheets).List?
    ensures Get(Clean(env, doc), Key.Sheets) == List(CleanSheets(Get(doc, Key.Sheets).items))
  {
    CleanAt(env, doc, Key.Sheets);
  }
}
