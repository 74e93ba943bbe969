/** What an accepted workspace can hold: the closed allowlist, the caps and the bounds, said of
    whole documents (control-plane/nexus/plugin_api.py:5311-5352, 5393-5448, 5481-5850). */
module WorkspaceClaims {
  import opened Wrappers
  import opened Json
  import opened Labels
  import opened WorkspaceSpec
  import opened WorkspaceClean

  // ----- Nothing unknown, at any depth ------------------------------------

  /** No key the handlers do not know, here or anywhere below. */
  ghost predicate Closed(v: Json) {
    match v
    case Obj(fields) => forall k :: k in fields ==> !k.Other? && Closed(fields[k])
    case List(items) => forall i :: 0 <= i < |items| ==> Closed(items[i])
    case _ => true
  }

  /** A plain value: no mapping and no list. */
  predicate Flat(v: Json) { !v.Obj? && !v.List? }

  ghost predicate FlatFields(v: Json) { v.Obj? && forall k :: k in v.fields ==> !k.Other? && Flat(v.fields[k]) }

  lemma FlatIsClosed(v: Json)
    requires FlatFields(v)
    ensures Closed(v)
  {
  }

  lemma KeysOf(v: Json, required: set<Key>, optional: set<Key>, k: Key)
    requires HasExactly(v, required, optional) && k in v.fields
    ensures k in required || k in optional
  {
    if k !in optional {
      assert k in v.fields.Keys - optional;
    }
  }

  lemma NoteIsFlat(v: Json)
    requires NoteOk(v)
    ensures FlatFields(v)
  {
    forall k | k in v.fields ensures !k.Other? && Flat(v.fields[k]) {
      KeysOf(v, {Key.Id, Key.X, Key.Y, Key.Text}, {Key.W, Key.H}, k);
      assert Get(v, k) == v.fields[k];
    }
  }

  lemma ConnectionIsFlat(v: Json)
    requires ConnectionOk(v)
    ensures FlatFields(v)
  {
    forall k | k in v.fields ensures !k.Other? && Flat(v.fields[k]) {
      KeysOf(v, {Key.Id, Key.From, Key.To, Key.Label}, {Key.Kind, Key.Arrows}, k);
      assert Get(v, k) == v.fields[k];
    }
  }

  lemma ShapeIsFlat(v: Json)
    requires ShapeOk(v)
    ensures FlatFields(v)
  {
    forall k | k in v.fields ensures !k.Other? && Flat(v.fields[k]) {
      KeysOf(v, {Key.Id, Key.X, Key.Y, Key.W, Key.H, Key.Label}, {Key.Shape, Key.Color, Key.Rotation}, k);
      assert Get(v, k) == v.fields[k];
    }
  }

  lemma TextIsFlat(v: Json)
    requires TextOk(v)
    ensures FlatFields(v)
  {
    forall k | k in v.fields ensures !k.Other? && Flat(v.fields[k]) {
      KeysOf(v, {Key.Id, Key.X, Key.Y, Key.Text, Key.Size}, {Key.Font}, k);
      assert Get(v, k) == v.fields[k];
    }
  }

  lemma PointIsFlat(v: Json)
    requires HasExactly(v, {Key.X, Key.Y}, {}) && CoordOk(v, Key.X) && CoordOk(v, Key.Y)
    ensures FlatFields(v)
  {
    forall k | k in v.fields ensures !k.Other? && Flat(v.fields[k]) {
      KeysOf(v, {Key.X, Key.Y}, {}, k);
      assert Get(v, k) == v.fields[k];
    }
  }

  lemma CardIsClosed(v: Json)
    requires CardOk(v)
    ensures Closed(v)
  {
    forall k | k in v.fields ensures !k.Other? && Closed(v.fields[k]) {
      KeysOf(v, {Key.Ref, Key.Position}, {Key.DisplayMode, Key.Id}, k);
      assert Get(v, k) == v.fields[k];
      if k.Position? {
        PointIsFlat(v.fields[k]);
        FlatIsClosed(v.fields[k]);
      }
    }
  }

  lemma ObjectIsClosed(env: Env, v: Json)
    requires ObjectOk(env, v)
    ensures Closed(v)
  {
    forall k | k in v.fields ensures !k.Other? && Closed(v.fields[k]) {
      KeysOf(v, {Key.Id, Key.Kind, Key.Title}, {Key.Subtitle, Key.Url, Key.Members, Key.Icon}, k);
      assert Get(v, k) == v.fields[k];
    }
  }

  lemma GroupIsClosed(v: Json)
    requires GroupOk(v)
    ensures Closed(v)
  {
    forall k | k in v.fields ensures !k.Other? && Closed(v.fields[k]) {
      KeysOf(v, {Key.Id, Key.Name, Key.Members}, {}, k);
      assert Get(v, k) == v.fields[k];
    }
  }

  lemma ViewportIsClosed(v: Json)
    requires ViewportOk(v)
    ensures Closed(v)
  {
    forall k | k in v.fields ensures !k.Other? && Flat(v.fields[k]) {
      KeysOf(v, {Key.X, Key.Y, Key.Zoom}, {}, k);
      assert Get(v, k) == v.fields[k];
    }
    FlatIsClosed(v);
  }

  lemma SettingsIsClosed(v: Json)
    requires SettingsOk(v)
    ensures Closed(v)
  {
    forall k | k in v.fields ensures !k.Other? && Closed(v.fields[k]) {
      KeysOf(v, {}, {Key.SourceBadges}, k);
      assert GetOr(v, Key.SourceBadges, List([])) == v.fields[k];
    }
  }

  lemma ListIsClosed(env: Env, sheet: Json, key: Key)
    requires SheetListsOk(env, sheet) && Has(sheet, key)
    requires key in [Key.Cards, Key.Shapes, Key.Texts, Key.Notes, Key.Connections]
    ensures Closed(sheet.fields[key])
  {
    var v := sheet.fields[key];
    assert v == ListAt(sheet, key);
    forall i | 0 <= i < |v.items| ensures Closed(v.items[i]) {
      match key
      case Cards => CardIsClosed(v.items[i]);
      case Shapes => ShapeIsFlat(v.items[i]); FlatIsClosed(v.items[i]);
      case Texts => TextIsFlat(v.items[i]); FlatIsClosed(v.items[i]);
      case Notes => NoteIsFlat(v.items[i]); FlatIsClosed(v.items[i]);
      case Connections => ConnectionIsFlat(v.items[i]); FlatIsClosed(v.items[i]);
    }
  }

  lemma OptionIsClosed(env: Env, sheet: Json, key: Key)
    requires SheetOk(env, sheet) && Has(sheet, key)
    requires key in [Key.Viewport, Key.Settings, Key.Objects, Key.Groups]
    ensures Closed(sheet.fields[key])
  {
    var v := sheet.fields[key];
    assert v == Get(sheet, key);
    if !v.Null? {
      match key
      case Viewport => ViewportIsClosed(v);
      case Settings => SettingsIsClosed(v);
      case Objects => forall i | 0 <= i < |v.items| ensures Closed(v.items[i]) { ObjectIsClosed(env, v.items[i]); }
      case Groups => forall i | 0 <= i < |v.items| ensures Closed(v.items[i]) { GroupIsClosed(v.items[i]); }
    }
  }

  lemma SheetIsClosed(env: Env, sheet: Json)
    requires SheetOk(env, sheet)
    ensures Closed(sheet)
  {
    forall k | k in sheet.fields ensures !k.Other? && Closed(sheet.fields[k]) {
      assert k in SHEET_KEYS;
      if k in [Key.Viewport, Key.Settings, Key.Objects, Key.Groups] {
        OptionIsClosed(env, sheet, k);
      } else if k in [Key.Cards, Key.Shapes, Key.Texts, Key.Notes, Key.Connections] {
        ListIsClosed(env, sheet, k);
      } else {
        assert sheet.fields[k] == Get(sheet, k) && sheet.fields[k] == GetOr(sheet, k, Str("operational"));
      }
    }
  }

  /** The closed allowlist: an accepted document has no unknown key at its top, and none at any
      depth of any sheet. */
  lemma AcceptedIsClosed(env: Env, doc: Json)
    requires WorkspaceOk(env, doc)
    ensures doc.Obj? && forall k :: k in doc.fields ==> !k.Other?
    ensures Has(doc, Key.Sheets) && Closed(doc.fields[Key.Sheets])
  {
    forall k | k in doc.fields ensures !k.Other? {
      assert k in WORKSPACE_KEYS;
    }
    var sheets := doc.fields[Key.Sheets];
    assert sheets == ListAt(doc, Key.Sheets);
    forall i | 0 <= i < |sheets.items| ensures Closed(sheets.items[i]) {
      SheetIsClosed(env, sheets.items[i]);
    }
  }

  // ----- Caps, names and bounds -------------------------------------------

  predicate DnsLabel(v: Json) { v.Str? && 1 <= |v.s| <= 63 && IsLabel(v.s) }

  predicate Number(v: Json) { v.Int? || v.Float? }

  function Size(v: Json): real
    requires Number(v)
  {
    match v case Int(n) => n as real case Float(r) => r
  }

  predicate OnTheCanvas(v: Json) { Number(v) && -100000.0 <= Size(v) <= 100000.0 }

  predicate Placed(v: Json) { OnTheCanvas(Get(v, Key.X)) && OnTheCanvas(Get(v, Key.Y)) }

  function Length(v: Json): nat { if v.List? then |v.items| else 0 }

  /** The sizes an accepted sheet keeps to. */
  lemma SheetIsBounded(env: Env, sheet: Json)
    requires SheetOk(env, sheet)
    ensures Length(Get(sheet, Key.Cards)) <= 500 && Length(Get(sheet, Key.Objects)) <= 200
    ensures Length(Get(sheet, Key.Shapes)) <= 200 && Length(Get(sheet, Key.Texts)) <= 200
    ensures Length(Get(sheet, Key.Notes)) <= 100 && Length(Get(sheet, Key.Connections)) <= 200
    ensures Length(Get(sheet, Key.Groups)) <= 50
    ensures DnsLabel(Get(sheet, Key.Id)) && Get(sheet, Key.Name).Str? && 1 <= |Get(sheet, Key.Name).s| <= 80
  {
  }

  /** Everything on a sheet that has a place is on the canvas, and everything that is named has a
      label for an id; cards are named by their reference and placed by their position. */
  lemma ItemsAreNamedAndPlaced(env: Env, sheet: Json, key: Key, i: nat)
    requires SheetOk(env, sheet) && i < Length(Get(sheet, key))
    requires key in {Key.Shapes, Key.Texts, Key.Notes, Key.Connections, Key.Cards}
    ensures var item := Get(sheet, key).items[i];
      && (key in {Key.Shapes, Key.Texts, Key.Notes, Key.Connections} ==> DnsLabel(Get(item, Key.Id)))
      && (key in {Key.Shapes, Key.Texts, Key.Notes} ==> Placed(item))
      && (key == Key.Cards ==> DnsLabel(Get(item, Key.Ref)) && Placed(Get(item, Key.Position)))
      && (key == Key.Notes ==> Get(item, Key.Text).Str? && |Get(item, Key.Text).s| <= 2000)
      && (key == Key.Connections ==> Get(item, Key.Label).Str? && |Get(item, Key.Label).s| <= 200)
  {
    assert Get(sheet, key) == ListAt(sheet, key);
  }

  /** Where the ids of two items of one list differ, as every two do. */
  lemma IdsAreDistinct(env: Env, sheet: Json, key: Key, i: nat, j: nat)
    requires SheetOk(env, sheet) && i < j < Length(Get(sheet, key))
    requires key in {Key.Shapes, Key.Texts, Key.Notes, Key.Connections}
    ensures Get(Get(sheet, key).items[i], Key.Id) != Get(Get(sheet, key).items[j], Key.Id)
  {
    assert Get(sheet, key) == ListAt(sheet, key);
    ItemsAreNamedAndPlaced(env, sheet, key, i);
    ItemsAreNamedAndPlaced(env, sheet, key, j);
    assert IdOf(Get(sheet, key).items[i]) != IdOf(Get(sheet, key).items[j]);
  }

  /** Between one and eight sheets, under distinct labels. */
  lemma SheetsAreDistinct(env: Env, doc: Json, i: nat, j: nat)
    requires WorkspaceOk(env, doc) && i < j < Length(Get(doc, Key.Sheets))
    ensures Length(Get(doc, Key.Sheets)) <= 8
    ensures Get(Get(doc, Key.Sheets).items[i], Key.Id) != Get(Get(doc, Key.Sheets).items[j], Key.Id)
  {
    assert Get(doc, Key.Sheets) == ListAt(doc, Key.Sheets);
    var sheets := Get(doc, Key.Sheets).items;
    assert SheetOk(env, sheets[i]) && SheetOk(env, sheets[j]);
    assert IdOf(sheets[i]) != IdOf(sheets[j]);
  }

  // ----- The bounds are inclusive -----------------------------------------

  /** What Python calls false: nothing, zero, and anything empty. */
  lemma TruthyIs(v: Json)
    ensures Truthy(v) <==> v !in {Null, Bool(false), Int(0), Float(0.0), Str(""), List([]), Obj(map[])}
  {
  }

  lemma NotesAtTheLimit(text: string)
    requires |text| == 2000
    ensures NoteOk(Obj(map[Key.Id := Str("n"), Key.X := Float(-100000.0), Key.Y := Int(100000), Key.Text := Str(text),
                           Key.W := Int(20), Key.H := Float(20000.0)]))
  {
    var v := Obj(map[Key.Id := Str("n"), Key.X := Float(-100000.0), Key.Y := Int(100000), Key.Text := Str(text),
                     Key.W := Int(20), Key.H := Float(20000.0)]);
    assert v.fields.Keys - {Key.W, Key.H} == {Key.Id, Key.X, Key.Y, Key.Text};
  }

  lemma ShapesAtTheLimit(caption: string, turn: int)
    requires |caption| == 200 && (turn == 1 || turn == 359)
    ensures ShapeOk(Obj(map[Key.Id := Str("s"), Key.X := Int(0), Key.Y := Int(0), Key.W := Int(20), Key.H := Int(20000),
                            Key.Label := Str(caption), Key.Rotation := Int(turn)]))
  {
    var v := Obj(map[Key.Id := Str("s"), Key.X := Int(0), Key.Y := Int(0), Key.W := Int(20), Key.H := Int(20000),
                     Key.Label := Str(caption), Key.Rotation := Int(turn)]);
    assert v.fields.Keys - {Key.Shape, Key.Color, Key.Rotation} == {Key.Id, Key.X, Key.Y, Key.W, Key.H, Key.Label};
  }

  lemma ConnectionsAtTheLimit(caption: string, endpoint: string)
    requires |caption| == 200 && IsLabel(endpoint) && |endpoint| == 70
    ensures ConnectionOk(Obj(map[Key.Id := Str("c"), Key.From := Str(endpoint), Key.To := Str("b"),
                                 Key.Label := Str(caption)]))
  {
    var v := Obj(map[Key.Id := Str("c"), Key.From := Str(endpoint), Key.To := Str("b"), Key.Label := Str(caption)]);
    assert v.fields.Keys - {Key.Kind, Key.Arrows} == {Key.Id, Key.From, Key.To, Key.Label};
  }

  lemma ViewportsAtTheLimit(zoom: real)
    requires zoom == 0.05 || zoom == 10.0
    ensures ViewportOk(Obj(map[Key.X := Int(-100000), Key.Y := Float(100000.0), Key.Zoom := Float(zoom)]))
  {
    var v := Obj(map[Key.X := Int(-100000), Key.Y := Float(100000.0), Key.Zoom := Float(zoom)]);
    assert v.fields.Keys - {} == {Key.X, Key.Y, Key.Zoom};
  }

  /** The words a field may hold. */
  lemma BadgesAre(v: Json)
    ensures BadgesOk(List([v])) <==>
            v.Str? && v.s in {"argocd", "grafana", "uptime", "eval", "backup", "communication", "reconciliation"}
  {
    var words := SOURCE_KINDS;
    assert BadgesOk(List([v])) <==> OneOf([v][0], words);
    assert words == [words[0], words[1], words[2], words[3], words[4], words[5], words[6]];
  }

  lemma ObjectKindsAre(env: Env, v: Json)
    requires ObjectOk(env, v)
    ensures Get(v, Key.Kind).Str?
    ensures Get(v, Key.Kind).s in
            {"person", "group", "agent", "agent-bundle", "tool", "external-tool", "comm-in", "comm-out"}
    ensures Has(v, Key.Members) && !Get(v, Key.Members).Null? ==>
            Get(v, Key.Members).List? && |Get(v, Key.Members).items| <= 12
  {
  }

  lemma GroupsAreBounded(v: Json)
    requires GroupOk(v)
    ensures DnsLabel(Get(v, Key.Id)) && Get(v, Key.Members).List? && |Get(v, Key.Members).items| <= 500
  {
  }

  // ----- What a field may be set to ---------------------------------------

  function With(v: Json, key: Key, x: Json): Json
    requires v.Obj?
  {
    Obj(v.fields[key := x])
  }

  lemma StillExactly(v: Json, required: set<Key>, optional: set<Key>, key: Key, x: Json)
    requires HasExactly(v, required, optional) && (key in required || key in optional) && required !! optional
    ensures HasExactly(With(v, key, x), required, optional)
    ensures forall k :: k != key ==> Get(With(v, key, x), k) == Get(v, k) && (Has(With(v, key, x), k) <==> Has(v, k))
    ensures Get(With(v, key, x), key) == x && Has(With(v, key, x), key)
  {
    assert With(v, key, x).fields.Keys == v.fields.Keys + {key};
  }

  /** A string, and one of the words. */
  predicate Word(x: Json, words: set<string>) { x.Str? && x.s in words }

  /** Setting the kind or the arrows of an accepted connection: exactly these words do. */
  lemma ConnectionWords(v: Json, x: Json)
    requires ConnectionOk(v)
    ensures ConnectionOk(With(v, Key.Kind, x)) <==> Word(x, {"depends-on", "calls", "observes", "owns", "custom"})
    ensures ConnectionOk(With(v, Key.Arrows, x)) <==> Word(x, {"none", "start", "end", "both"})
  {
    StillExactly(v, {Key.Id, Key.From, Key.To, Key.Label}, {Key.Kind, Key.Arrows}, Key.Kind, x);
    StillExactly(v, {Key.Id, Key.From, Key.To, Key.Label}, {Key.Kind, Key.Arrows}, Key.Arrows, x);
  }

  /** A connection may end at a component, a shape or a text, by at most 70 characters. */
  predicate Endpoint(x: Json) {
    && x.Str? && |x.s| <= 70
    && (|| IsLabel(x.s)
        || (|x.s| > 6 && x.s[..6] == "shape:" && IsLabel(x.s[6..]))
        || (|x.s| > 5 && x.s[..5] == "text:" && IsLabel(x.s[5..])))
  }

  lemma EndpointsAre(v: Json, x: Json)
    requires ConnectionOk(v)
    ensures ConnectionOk(With(v, Key.From, x)) <==> Endpoint(x)
    ensures ConnectionOk(With(v, Key.To, x)) <==> Endpoint(x)
  {
    StillExactly(v, {Key.Id, Key.From, Key.To, Key.Label}, {Key.Kind, Key.Arrows}, Key.From, x);
    StillExactly(v, {Key.Id, Key.From, Key.To, Key.Label}, {Key.Kind, Key.Arrows}, Key.To, x);
    EndpointIff(x);
  }

  lemma EndpointIff(x: Json)
    ensures EndpointOk(x) <==> Endpoint(x)
  {
    if x.Str? {
      assert "shape:" <= x.s <==> |x.s| >= 6 && x.s[..6] == "shape:";
      assert "text:" <= x.s <==> |x.s| >= 5 && x.s[..5] == "text:";
    }
  }

  lemma CardWords(v: Json, x: Json)
    requires CardOk(v)
    ensures CardOk(With(v, Key.DisplayMode, x)) <==> Word(x, {"badge", "stack", "expanded"})
  {
    StillExactly(v, {Key.Ref, Key.Position}, {Key.DisplayMode, Key.Id}, Key.DisplayMode, x);
  }

  lemma ShapeWords(v: Json, x: Json)
    requires ShapeOk(v)
    ensures ShapeOk(With(v, Key.Shape, x)) <==>
            Word(x, {"rect", "ellipse", "diamond", "pill", "arrow", "brace-l", "brace-r"})
  {
    StillExactly(v, {Key.Id, Key.X, Key.Y, Key.W, Key.H, Key.Label}, {Key.Shape, Key.Color, Key.Rotation},
                 Key.Shape, x);
  }

  lemma ShapeColors(v: Json, x: Json)
    requires ShapeOk(v)
    ensures ShapeOk(With(v, Key.Color, x)) <==> Word(x, {"apricot", "sky", "mint", "rose", "violet", "slate"})
  {
    StillExactly(v, {Key.Id, Key.X, Key.Y, Key.W, Key.H, Key.Label}, {Key.Shape, Key.Color, Key.Rotation},
                 Key.Color, x);
  }

  lemma TextWords(v: Json, x: Json)
    requires TextOk(v)
    ensures TextOk(With(v, Key.Size, x)) <==> Word(x, {"sm", "md", "lg"})
    ensures TextOk(With(v, Key.Font, x)) <==> Word(x, {"display", "body", "mono"})
  {
    StillExactly(v, {Key.Id, Key.X, Key.Y, Key.Text, Key.Size}, {Key.Font}, Key.Size, x);
    StillExactly(v, {Key.Id, Key.X, Key.Y, Key.Text, Key.Size}, {Key.Font}, Key.Font, x);
  }

  /** A name of one to eighty characters that is not blank. */
  predicate Name(x: Json) { x.Str? && |x.s| <= 80 && exists i :: 0 <= i < |x.s| && !IsBlank(x.s[i]) }

  /** An icon's stem: a label of at most 63 characters, one final line break overlooked. */
  ghost predicate Icon(x: Json) {
    x.Str? && exists stem :: IsLabel(stem) && |stem| <= 63 && (x.s == stem || x.s == stem + "\n")
  }

  lemma IconIff(s: string)
    ensures IconOk(s) <==> Icon(Str(s))
  {
    if IconOk(s) {
      var stem := if s != "" && s[|s| - 1] == '\n' then s[..|s| - 1] else s;
      assert s == stem || s == stem + "\n";
    }
    if stem :| IsLabel(stem) && |stem| <= 63 && (s == stem || s == stem + "\n") {
      assert stem[|stem| - 1] != '\n';
      assert s == stem + "\n" ==> s[|s| - 1] == '\n' && s[..|s| - 1] == stem;
    }
  }

  predicate Members(x: Json) { x.List? && |x.items| <= 12 && forall i :: 0 <= i < |x.items| ==> DnsLabel(x.items[i]) }

  /** What an authored object's fields may be set to; each optional one also to null. */
  lemma ObjectTitle(env: Env, v: Json, x: Json)
    requires ObjectOk(env, v)
    ensures ObjectOk(env, With(v, Key.Title, x)) <==> Name(x)
  {
    StillExactly(v, {Key.Id, Key.Kind, Key.Title}, {Key.Subtitle, Key.Url, Key.Members, Key.Icon}, Key.Title, x);
  }

  lemma ObjectSubtitle(env: Env, v: Json, x: Json)
    requires ObjectOk(env, v)
    ensures ObjectOk(env, With(v, Key.Subtitle, x)) <==> x.Null? || Name(x)
  {
    StillExactly(v, {Key.Id, Key.Kind, Key.Title}, {Key.Subtitle, Key.Url, Key.Members, Key.Icon}, Key.Subtitle, x);
  }

  lemma ObjectUrl(env: Env, v: Json, x: Json)
    requires ObjectOk(env, v)
    ensures ObjectOk(env, With(v, Key.Url, x)) <==> x.Null? || (x.Str? && env.safeUrl(x.s))
  {
    StillExactly(v, {Key.Id, Key.Kind, Key.Title}, {Key.Subtitle, Key.Url, Key.Members, Key.Icon}, Key.Url, x);
  }

  lemma ObjectIcon(env: Env, v: Json, x: Json)
    requires ObjectOk(env, v)
    ensures ObjectOk(env, With(v, Key.Icon, x)) <==> x.Null? || Icon(x)
  {
    StillExactly(v, {Key.Id, Key.Kind, Key.Title}, {Key.Subtitle, Key.Url, Key.Members, Key.Icon}, Key.Icon, x);
    if x.Str? {
      IconIff(x.s);
    }
  }

  lemma ObjectMembers(env: Env, v: Json, x: Json)
    requires ObjectOk(env, v)
    ensures ObjectOk(env, With(v, Key.Members, x)) <==> x.Null? || Members(x)
  {
    StillExactly(v, {Key.Id, Key.Kind, Key.Title}, {Key.Subtitle, Key.Url, Key.Members, Key.Icon}, Key.Members, x);
    assert RefsOk(x) <==> Members(x);
  }

  /** What the environment of an accepted document may be set to. */
  lemma EnvironmentIs(env: Env, doc: Json, x: Json)
    requires WorkspaceOk(env, doc)
    ensures WorkspaceOk(env, With(doc, Key.Environment, x)) <==> DnsLabel(x)
  {
    var out := With(doc, Key.Environment, x);
    assert out.fields.Keys == doc.fields.Keys + {Key.Environment};
    assert ListAt(out, Key.Sheets) == ListAt(doc, Key.Sheets);
    assert GetOr(out, Key.Revision, Int(0)) == GetOr(doc, Key.Revision, Int(0));
  }
}
