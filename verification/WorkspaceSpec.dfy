/** Which workspace documents are accepted, and what is kept of them
    (control-plane/nexus/plugin_api.py:5311-5352, 5393-5448, 5481-5850). */
module WorkspaceSpec {
  import opened Wrappers
  import opened Json
  import opened Labels

  const API_VERSION := "nexus.hermes.ai/v1alpha1"
  const KIND := "NexusWorkspace"
  const MAX_ID: nat := 63
  const MAX_SHEETS: nat := 8
  const MAX_CARDS: nat := 500
  const MAX_OBJECTS: nat := 200
  const MAX_SHAPES: nat := 200
  const MAX_TEXTS: nat := 200
  const MAX_NOTES: nat := 100
  const MAX_CONNECTIONS: nat := 200
  const MAX_GROUPS: nat := 50
  const MAX_GROUP_MEMBERS: nat := 500
  const MAX_OBJECT_MEMBERS: nat := 12
  const MAX_NAME: nat := 80
  const MAX_TEXT: nat := 200
  const MAX_NOTE: nat := 2000
  const MAX_ENDPOINT: nat := 70
  const MAX_SUBJECT: nat := 200
  const LIMIT: real := 100000.0

  const WORKSPACE_KEYS: set<Key> := {Key.ApiVersion, Key.Kind, Key.Environment, Key.Revision, Key.SavedAt, Key.SavedBy,
                                     Key.FeatureFlags, Key.AdoptedRelationships, Key.Sheets}
  const SHEET_KEYS: set<Key> := {Key.Id, Key.Name, Key.Mode, Key.Viewport, Key.Settings, Key.Cards, Key.Objects,
                                 Key.Shapes, Key.Texts, Key.Notes, Key.Connections, Key.Groups}
  const SOURCE_KINDS: seq<string> :=
    ["argocd", "grafana", "uptime", "eval", "backup", "communication", "reconciliation"]
  const DOMAIN_KINDS: seq<string> :=
    ["person", "group", "agent", "agent-bundle", "tool", "external-tool", "comm-in", "comm-out"]

  /** What the validator calls into: the https link check (lines 692-711), and `str()` of a
      value that is not a string. */
  datatype Env = Env(safeUrl: string -> bool, show: Json -> string)

  predicate IdOk(v: Json) { v.Str? && IsLabel(v.s) && |v.s| <= MAX_ID }

  predicate CoordOk(v: Json, key: Key) { Within(Get(v, key), -LIMIT, LIMIT) }

  // ----- Items ------------------------------------------------------------

  predicate NoteOk(v: Json) {
    && HasExactly(v, {Key.Id, Key.X, Key.Y, Key.Text}, {Key.W, Key.H})
    && (Has(v, Key.W) ==> Within(Get(v, Key.W), 20.0, 20000.0))
    && (Has(v, Key.H) ==> Within(Get(v, Key.H), 20.0, 20000.0))
    && IdOk(Get(v, Key.Id)) && CoordOk(v, Key.X) && CoordOk(v, Key.Y) && TextUpTo(Get(v, Key.Text), MAX_NOTE)
  }

  predicate EndpointOk(v: Json) {
    && TextUpTo(v, MAX_ENDPOINT)
    && (IsLabel(v.s) || PrefixedLabel(v.s, "shape:") || PrefixedLabel(v.s, "text:"))
  }

  predicate PrefixedLabel(s: string, prefix: string) { prefix <= s && IsLabel(s[|prefix|..]) }

  predicate ConnectionOk(v: Json) {
    && HasExactly(v, {Key.Id, Key.From, Key.To, Key.Label}, {Key.Kind, Key.Arrows})
    && (Has(v, Key.Kind) ==> OneOf(Get(v, Key.Kind), ["depends-on", "calls", "observes", "owns", "custom"]))
    && (Has(v, Key.Arrows) ==> OneOf(Get(v, Key.Arrows), ["none", "start", "end", "both"]))
    && IdOk(Get(v, Key.Id)) && EndpointOk(Get(v, Key.From)) && EndpointOk(Get(v, Key.To))
    && TextUpTo(Get(v, Key.Label), MAX_TEXT)
  }

  predicate CardOk(v: Json) {
    && HasExactly(v, {Key.Ref, Key.Position}, {Key.DisplayMode, Key.Id})
    && (Has(v, Key.DisplayMode) ==> OneOf(Get(v, Key.DisplayMode), ["badge", "stack", "expanded"]))
    && IdOk(Get(v, Key.Ref)) && (Has(v, Key.Id) ==> IdOk(Get(v, Key.Id)))
    && HasExactly(Get(v, Key.Position), {Key.X, Key.Y}, {})
    && CoordOk(Get(v, Key.Position), Key.X) && CoordOk(Get(v, Key.Position), Key.Y)
  }

  /** `^[a-z0-9]([a-z0-9-]{0,61}[a-z0-9])?$` under `re.match`: one final newline slips through. */
  predicate IconOk(s: string) {
    var stem := if s != "" && s[|s| - 1] == '\n' then s[..|s| - 1] else s;
    IsLabel(stem) && |stem| <= 63
  }

  predicate ObjectOk(env: Env, v: Json) {
    && HasExactly(v, {Key.Id, Key.Kind, Key.Title}, {Key.Subtitle, Key.Url, Key.Members, Key.Icon})
    && IdOk(Get(v, Key.Id)) && OneOf(Get(v, Key.Kind), DOMAIN_KINDS)
    && NameUpTo(Get(v, Key.Title), MAX_NAME)
    && (Get(v, Key.Subtitle).Null? || NameUpTo(Get(v, Key.Subtitle), MAX_NAME))
    && (Get(v, Key.Url).Null? || (Get(v, Key.Url).Str? && env.safeUrl(Get(v, Key.Url).s)))
    && (Get(v, Key.Icon).Null? || (Get(v, Key.Icon).Str? && IconOk(Get(v, Key.Icon).s)))
    && (Get(v, Key.Members).Null? || RefsOk(Get(v, Key.Members)))
  }

  predicate RefsOk(v: Json) {
    v.List? && |v.items| <= MAX_OBJECT_MEMBERS && forall i :: 0 <= i < |v.items| ==> IdOk(v.items[i])
  }

  predicate ShapeOk(v: Json) {
    && HasExactly(v, {Key.Id, Key.X, Key.Y, Key.W, Key.H, Key.Label}, {Key.Shape, Key.Color, Key.Rotation})
    && IdOk(Get(v, Key.Id)) && CoordOk(v, Key.X) && CoordOk(v, Key.Y)
    && Within(Get(v, Key.W), 20.0, 20000.0) && Within(Get(v, Key.H), 20.0, 20000.0)
    && TextUpTo(Get(v, Key.Label), MAX_TEXT)
    && (Has(v, Key.Shape) ==>
          OneOf(Get(v, Key.Shape), ["rect", "ellipse", "diamond", "pill", "arrow", "brace-l", "brace-r"]))
    && (Has(v, Key.Color) ==> OneOf(Get(v, Key.Color), ["apricot", "sky", "mint", "rose", "violet", "slate"]))
    && (Has(v, Key.Rotation) ==> Get(v, Key.Rotation).Int? && 1 <= Get(v, Key.Rotation).n <= 359)
  }

  predicate TextOk(v: Json) {
    && HasExactly(v, {Key.Id, Key.X, Key.Y, Key.Text, Key.Size}, {Key.Font})
    && IdOk(Get(v, Key.Id)) && CoordOk(v, Key.X) && CoordOk(v, Key.Y)
    && NameUpTo(Get(v, Key.Text), MAX_TEXT) && OneOf(Get(v, Key.Size), ["sm", "md", "lg"])
    && (Has(v, Key.Font) ==> OneOf(Get(v, Key.Font), ["display", "body", "mono"]))
  }

  /** A prefixed member key, under `re.match`. */
  predicate MemberOk(v: Json) {
    v.Str? && exists p :: p in ["card:", "shape:", "text:", "note:"] && p <= v.s && MatchesLabel(v.s[|p|..])
  }

  predicate GroupOk(v: Json) {
    && HasExactly(v, {Key.Id, Key.Name, Key.Members}, {})
    && IdOk(Get(v, Key.Id)) && NameUpTo(Get(v, Key.Name), MAX_NAME)
    && Get(v, Key.Members).List? && |Get(v, Key.Members).items| <= MAX_GROUP_MEMBERS
    && forall i :: 0 <= i < |Get(v, Key.Members).items| ==> MemberOk(Get(v, Key.Members).items[i])
  }

  // ----- Lists ------------------------------------------------------------

  function TextOf(v: Json): string { if v.Str? then v.s else "" }

  function IdOf(v: Json): string { TextOf(Get(v, Key.Id)) }

  /** A card's canvas-instance key: its id, or its ref when it has none. */
  function CardKey(v: Json): string { if Has(v, Key.Id) then IdOf(v) else TextOf(Get(v, Key.Ref)) }

  /** A list within its cap whose items are all fine and have distinct keys. */
  predicate ItemsOk(v: Json, cap: nat, ok: Json -> bool, key: Json -> string) {
    && v.List? && |v.items| <= cap
    && (forall i :: 0 <= i < |v.items| ==> ok(v.items[i]))
    && forall i, j :: 0 <= i < j < |v.items| ==> key(v.items[i]) != key(v.items[j])
  }

  /** Every member key of every group, in order. */
  function AllMembers(groups: seq<Json>): seq<Json>
    decreases |groups|
  {
    if groups == [] then []
    else
      var members := Get(groups[|groups| - 1], Key.Members);
      AllMembers(groups[..|groups| - 1]) + if members.List? then members.items else []
  }

  predicate NoRepeats(vs: seq<Json>) { forall i, j :: 0 <= i < j < |vs| ==> vs[i] != vs[j] }

  predicate GroupsOk(v: Json) {
    ItemsOk(v, MAX_GROUPS, GroupOk, IdOf) && NoRepeats(AllMembers(v.items))
  }

  // ----- Sheets and documents ---------------------------------------------

  predicate ViewportOk(v: Json) {
    && HasExactly(v, {Key.X, Key.Y, Key.Zoom}, {}) && CoordOk(v, Key.X) && CoordOk(v, Key.Y)
    && Within(Get(v, Key.Zoom), 0.05, 10.0)
  }

  predicate BadgesOk(v: Json) { v.List? && forall i :: 0 <= i < |v.items| ==> OneOf(v.items[i], SOURCE_KINDS) }

  predicate SettingsOk(v: Json) {
    HasExactly(v, {}, {Key.SourceBadges}) && BadgesOk(GetOr(v, Key.SourceBadges, List([])))
  }

  /** A list field; an absent one reads empty. */
  function ListAt(sheet: Json, key: Key): Json { GetOr(sheet, key, List([])) }

  function ObjectCheck(env: Env): Json -> bool { v => ObjectOk(env, v) }

  /** The scalar half of a sheet. */
  predicate SheetHeadOk(sheet: Json) {
    && sheet.Obj? && sheet.fields.Keys <= SHEET_KEYS
    && IdOk(Get(sheet, Key.Id)) && NameUpTo(Get(sheet, Key.Name), MAX_NAME)
    && OneOf(GetOr(sheet, Key.Mode, Str("operational")), ["operational", "concept"])
    && (Get(sheet, Key.Viewport).Null? || ViewportOk(Get(sheet, Key.Viewport)))
    && (Get(sheet, Key.Settings).Null? || SettingsOk(Get(sheet, Key.Settings)))
  }

  /** Its lists: bounded, with distinct keys, and no member in two groups. */
  predicate SheetListsOk(env: Env, sheet: Json) {
    && ItemsOk(ListAt(sheet, Key.Cards), MAX_CARDS, CardOk, CardKey)
    && (Get(sheet, Key.Objects).Null? || ItemsOk(Get(sheet, Key.Objects), MAX_OBJECTS, ObjectCheck(env), IdOf))
    && ItemsOk(ListAt(sheet, Key.Shapes), MAX_SHAPES, ShapeOk, IdOf)
    && ItemsOk(ListAt(sheet, Key.Texts), MAX_TEXTS, TextOk, IdOf)
    && ItemsOk(ListAt(sheet, Key.Notes), MAX_NOTES, NoteOk, IdOf)
    && ItemsOk(ListAt(sheet, Key.Connections), MAX_CONNECTIONS, ConnectionOk, IdOf)
    && (Get(sheet, Key.Groups).Null? || GroupsOk(Get(sheet, Key.Groups)))
  }

  predicate SheetOk(env: Env, sheet: Json) { SheetHeadOk(sheet) && SheetListsOk(env, sheet) }

  /** The scalar half of a document. */
  predicate WorkspaceHeadOk(doc: Json) {
    && doc.Obj? && Get(doc, Key.ApiVersion) == Str(API_VERSION) && Get(doc, Key.Kind) == Str(KIND)
    && doc.fields.Keys <= WORKSPACE_KEYS
    && GetOr(doc, Key.Revision, Int(0)).Int? && GetOr(doc, Key.Revision, Int(0)).n >= 0
    && IdOk(GetOr(doc, Key.Environment, Str("default")))
  }

  predicate SheetsOk(env: Env, v: Json) {
    && v.List? && v.items != [] && |v.items| <= MAX_SHEETS
    && AllSheetsOk(env, v.items) && DistinctIds(v.items)
  }

  predicate AllSheetsOk(env: Env, items: seq<Json>) { forall k :: 0 <= k < |items| ==> SheetOk(env, items[k]) }

  predicate DistinctIds(items: seq<Json>) { forall k, l :: 0 <= k < l < |items| ==> IdOf(items[k]) != IdOf(items[l]) }

  predicate WorkspaceOk(env: Env, doc: Json) { WorkspaceHeadOk(doc) && SheetsOk(env, ListAt(doc, Key.Sheets)) }

  // ----- What is kept -----------------------------------------------------

  type Fields = map<Key, Json>

  function SheetField(sheet: Json, key: Key): Json {
    match key
    case Mode => GetOr(sheet, Key.Mode, Str("operational"))
    case Settings => Obj(map[Key.SourceBadges := GetOr(Get(sheet, Key.Settings), Key.SourceBadges, List([]))])
    case Cards => ListAt(sheet, Key.Cards)
    case Shapes => ListAt(sheet, Key.Shapes)
    case Texts => ListAt(sheet, Key.Texts)
    case Notes => ListAt(sheet, Key.Notes)
    case Connections => ListAt(sheet, Key.Connections)
    case _ => Get(sheet, key)
  }

  const SHEET_ORDER: seq<Key> := [Key.Id, Key.Name, Key.Mode, Key.Viewport, Key.Settings, Key.Cards, Key.Objects,
                                  Key.Shapes, Key.Texts, Key.Notes, Key.Connections, Key.Groups]

  predicate IsOption(key: Key) { key.Viewport? || key.Settings? || key.Objects? || key.Groups? }

  predicate IsDropped(sheet: Json, key: Key) { IsOption(key) && Get(sheet, key).Null? }

  /** The fields written so far, key by key. */
  function Chosen(keys: seq<Key>, keep: Key -> bool, value: Key -> Json): Fields
    decreases |keys|
  {
    if keys == [] then map[]
    else
      var before, key := Chosen(keys[..|keys| - 1], keep, value), keys[|keys| - 1];
      if keep(key) then before[key := value(key)] else before
  }

  /** An option is written only when it is there and not null. */
  function SheetFields(sheet: Json, keys: seq<Key>): Fields {
    Chosen(keys, key => !IsDropped(sheet, key), key => SheetField(sheet, key))
  }

  /** A sheet with its defaults written out and its null options dropped. */
  function CleanSheet(sheet: Json): Json { Obj(SheetFields(sheet, SHEET_ORDER)) }

  function CleanSheets(sheets: seq<Json>): seq<Json> {
    seq(|sheets|, i requires 0 <= i < |sheets| => CleanSheet(sheets[i]))
  }

  function Shown(env: Env, v: Json): string { if v.Str? then v.s else env.show(v) }

  function Clipped(s: string, cap: nat): string { if |s| <= cap then s else s[..cap] }

  function WorkspaceField(env: Env, doc: Json, key: Key): Json {
    match key
    case Environment => GetOr(doc, Key.Environment, Str("default"))
    case Revision => GetOr(doc, Key.Revision, Int(0))
    case SavedBy => Str(Clipped(Shown(env, Get(doc, Key.SavedBy)), MAX_SUBJECT))
    case FeatureFlags => if Get(doc, Key.FeatureFlags).Obj? then Get(doc, Key.FeatureFlags) else Obj(map[])
    case Sheets => if ListAt(doc, Key.Sheets).List? then List(CleanSheets(ListAt(doc, Key.Sheets).items)) else Null
    case _ => Get(doc, key)
  }

  const WORKSPACE_ORDER: seq<Key> := [Key.ApiVersion, Key.Kind, Key.Environment, Key.Revision, Key.SavedAt, Key.SavedBy,
                                      Key.FeatureFlags, Key.AdoptedRelationships, Key.Sheets]

  /** The server-owned fields are kept only in the shape the server writes, the adoption
      marker only when it is true. */
  predicate IsKept(doc: Json, key: Key) {
    match key
    case SavedAt => Get(doc, Key.SavedAt).Str?
    case SavedBy => Truthy(Get(doc, Key.SavedBy))
    case AdoptedRelationships => Get(doc, Key.AdoptedRelationships) == Bool(true)
    case _ => true
  }

  function WorkspaceFields(env: Env, doc: Json, keys: seq<Key>): Fields {
    Chosen(keys, key => IsKept(doc, key), key => WorkspaceField(env, doc, key))
  }

  /** The document the validator returns for an accepted one. */
  function Clean(env: Env, doc: Json): Json { Obj(WorkspaceFields(env, doc, WORKSPACE_ORDER)) }
}
