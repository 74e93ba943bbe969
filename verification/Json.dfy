/** Parsed JSON as the workspace handlers see it: integers and floats are told apart, and
    booleans are not numbers. */
module Json {
  import opened Wrappers

  /** The keys the handlers know, and any other key. */
  datatype Key =
    | ApiVersion | Kind | Environment | Revision | SavedAt | SavedBy | FeatureFlags | AdoptedRelationships | Sheets
    | Id | Name | Mode | Viewport | Settings | Cards | Objects | Shapes | Texts
    | Notes | Connections | Groups | X | Y | Zoom | W | H | Text
    | From | To | Label | Arrows | Ref | Position | DisplayMode | Title | Subtitle
    | Url | Members | Icon | Shape | Color | Rotation | Size | Font | SourceBadges
    | Other(name: string)

  datatype Json =
    | Null
    | Bool(b: bool)
    | Int(n: int)
    | Float(r: real)
    | NonFinite
    | Str(s: string)
    | List(items: seq<Json>)
    | Obj(fields: map<Key, Json>)

  /** `doc.get(key)`: an absent key reads null. */
  function Get(v: Json, key: Key): Json {
    if v.Obj? && key in v.fields then v.fields[key] else Null
  }

  /** `doc.get(key, default)`. */
  function GetOr(v: Json, key: Key, default_: Json): Json {
    if v.Obj? && key in v.fields then v.fields[key] else default_
  }

  predicate Has(v: Json, key: Key) { v.Obj? && key in v.fields }

  /** A mapping with exactly the required keys, give or take the optional ones. */
  predicate HasExactly(v: Json, required: set<Key>, optional: set<Key>) {
    v.Obj? && v.fields.Keys - optional == required
  }

  /** A number, not a boolean, within bounds; not-a-number and infinities are out of them. */
  predicate Within(v: Json, lo: real, hi: real) {
    match v
    case Int(n) => lo <= n as real <= hi
    case Float(r) => lo <= r <= hi
    case _ => false
  }

  predicate OneOf(v: Json, words: seq<string>) { v.Str? && v.s in words }

  predicate TextUpTo(v: Json, cap: nat) { v.Str? && |v.s| <= cap }

  /** The characters `str.strip` removes. */
  predicate IsBlank(c: char) {
    || '\t' <= c <= '\r' || '\U{001C}' <= c <= ' ' || c == '\U{0085}' || c == '\U{00A0}' || c == '\U{1680}'
    || '\U{2000}' <= c <= '\U{200A}' || '\U{2028}' <= c <= '\U{2029}' || c == '\U{202F}' || c == '\U{205F}'
    || c == '\U{3000}'
  }

  /** Something other than white space, up to a length. */
  predicate NameUpTo(v: Json, cap: nat) { TextUpTo(v, cap) && exists i :: 0 <= i < |v.s| && !IsBlank(v.s[i]) }

  predicate Truthy(v: Json) {
    match v
    case Null => false
    case Bool(b) => b
    case Int(n) => n != 0
    case Float(r) => r != 0.0
    case NonFinite => true
    case Str(s) => s != ""
    case List(items) => items != []
    case Obj(fields) => fields != map[]
  }
}
