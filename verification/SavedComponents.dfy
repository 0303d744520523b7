/** What components save is read back as what they were. Reading is told as the loaders do it: each
    component knows what kind of component it expects inside. */
module SavedComponents {
  import opened Json
  import opened ConfigTable
  import opened Components

  /** What a component is, which its document does not tell: a mask makes its lines after their types,
      and the parts of options are of given kinds. */
  datatype Kind =
    | PlainKind
    | MaskKind(provider: nat -> Kind)
    | FormKind(id: string, root: Kind)
    | OptionsKind(id: string, slots: seq<(Slot, Kind)>)
    | GuichetKind(categ: Category, inner: Kind)

  // ------------------------------------------------------------------ reading

  /** The configuration under the header of a class. */
  function ConfigIn(j: Value, id: string): (r: Option<Value>)
    ensures r.Some? ==> r.value < j
  {
    match Unwrap(j)
    case None => None
    case Some(h) => if h.id == id && h.version <= 1 then Some(h.config) else None
  }

  function ListIn(j: Value, key: string): (r: Option<seq<Value>>)
    ensures r.Some? ==> forall i :: 0 <= i < |r.value| ==> r.value[i] < j
  {
    match At(j, key)
    case None => None
    case Some(list) => if IsList(list) then Some(Elements(list)) else None
  }

  function Parse(k: Kind, j: Value): Option<Component>
    decreases j, 2, 0
  {
    match k
    case PlainKind => Some(Plain(j))
    case MaskKind(provider) =>
      (match ConfigIn(j, "html_form_mask_bool")
       case None => None
       case Some(conf) =>
         match (StringAt(conf, "logic"), At(conf, "components"))
         case (Some(logic), Some(table)) =>
           (match ParseTable(provider, table)
            case None => None
            case Some(lines) => Some(MaskBool(logic, lines)))
         case _ => None)
    case FormKind(id, root) =>
      (match ConfigIn(j, id)
       case None => None
       case Some(conf) =>
         match At(conf, "bool-config")
         case None => None
         case Some(inner) =>
           match Parse(root, inner)
           case None => None
           case Some(r) => Some(MaskForm(id, r)))
    case OptionsKind(id, slots) =>
      (match ConfigIn(j, id)
       case Some(Obj(members)) =>
         (match ParseParts(slots, Obj(members))
          case None => None
          case Some(parts) => Some(Options(id, members - KeysOf(slots), parts)))
       case _ => None)
    case GuichetKind(categ, inner) =>
      (match ConfigIn(j, "guichet")
       case None => None
       case Some(conf) =>
         match BoolAt(conf, "manual-mode")
         case Some(true) =>
           (match At(conf, "config")
            case None => None
            case Some(own) =>
              match Parse(inner, own)
              case None => None
              case Some(c) => Some(Guichet(categ, None, c)))
         case Some(false) =>
           (match (StringAt(conf, "category"), StringAt(conf, "configname"))
            case (Some(cat), Some(name)) =>
              if StringToCategory(cat) == Some(categ) then Some(Guichet(categ, Some(name), Plain(Null))) else None
            case _ => None)
         case _ => None)
  }

  function ParseTable(provider: nat -> Kind, table: Value): Option<seq<Line>>
    decreases table, 1, 0
  {
    match ConfigIn(table, "html_form_dynamic_table")
    case None => None
    case Some(conf) =>
      match (BoolAt(conf, "has-lef-labels"), ListIn(conf, "contents"))
      case (Some(true), Some(items)) => ParseLines(provider, table, items)
      case _ => None
  }

  function ParseLines(provider: nat -> Kind, table: Value, items: seq<Value>): Option<seq<Line>>
    requires forall i :: 0 <= i < |items| ==> items[i] < table
    decreases table, 0, |items|
  {
    if items == [] then Some([])
    else
      var n := |items| - 1;
      match (ParseLines(provider, table, items[..n]), ParseLine(provider, items[n]))
      case (Some(lines), Some(line)) => Some(lines + [line])
      case _ => None
  }

  function ParseLine(provider: nat -> Kind, item: Value): Option<Line>
    decreases item, 3, 0
  {
    match (StringAt(item, "left-label"), At(item, "type"), At(item, "object"))
    case (Some(left), Some(Num(n)), Some(saved)) =>
      if n < 0 then None
      else
        (match Parse(provider(n), saved)
         case None => None
         case Some(c) => Some(Line(left, n, c)))
    case _ => None
  }

  function KeysOf(slots: seq<(Slot, Kind)>): set<string> {
    set i | 0 <= i < |slots| :: slots[i].0.key
  }

  /** A part whose key is not there was not selected. */
  function ParseParts(slots: seq<(Slot, Kind)>, conf: Value): Option<seq<Part>>
    decreases conf, 3, |slots|
  {
    if slots == [] then Some([])
    else
      var n := |slots| - 1;
      match (ParseParts(slots[..n], conf), ParsePart(slots[n].0, slots[n].1, conf))
      case (Some(parts), Some(part)) => Some(parts + [part])
      case _ => None
  }

  function ParsePart(s: Slot, k: Kind, conf: Value): Option<Part>
    decreases conf, 2, 0
  {
    match At(conf, s.key)
    case None => Some(Part(s.key, false, s.declared, s.forgets, Plain(Null)))
    case Some(saved) =>
      match Parse(k, saved)
      case None => None
      case Some(c) => Some(Part(s.key, true, s.declared, s.forgets, c))
  }

  // ------------------------------------------------------------------ what can be read back

  ghost predicate Conforms(c: Component, k: Kind)
    decreases c
  {
    match (c, k)
    case (Plain(_), PlainKind) => true
    case (MaskBool(_, lines), MaskKind(provider)) =>
      forall l :: l in lines ==> Conforms(l.object_, provider(l.objectType))
    case (MaskForm(id, root), FormKind(id', k')) => id == id' && Conforms(root, k')
    case (Options(id, settings, parts), OptionsKind(id', slots)) =>
      && id == id' && |parts| == |slots| && settings.Keys !! KeysOf(slots)
      && (forall i, j :: 0 <= i < j < |slots| ==> slots[i].0.key != slots[j].0.key)
      && forall i :: 0 <= i < |parts| ==>
          && parts[i].key == slots[i].0.key && parts[i].declared == slots[i].0.declared
          && parts[i].forgets == slots[i].0.forgets && Conforms(parts[i].object_, slots[i].1)
    case (Guichet(categ, _, inner), GuichetKind(categ', k')) => categ == categ' && Conforms(inner, k')
    case _ => false
  }

  /** All that is saved of a component: not what is in a part that is not selected, nor what is under a
      guichet that follows a configuration. */
  function Shown(c: Component): Component
    decreases c, 1
  {
    match c
    case Plain(_) => c
    case MaskBool(logic, lines) => MaskBool(logic, ShownLines(c, lines))
    case MaskForm(id, root) => MaskForm(id, Shown(root))
    case Options(id, settings, parts) => Options(id, settings, ShownParts(c, parts))
    case Guichet(categ, choice, inner) => Guichet(categ, choice, if choice == None then Shown(inner) else Plain(Null))
  }

  function ShownLines(owner: Component, lines: seq<Line>): (r: seq<Line>)
    requires forall l :: l in lines ==> l.object_ < owner
    ensures |r| == |lines| && forall i :: 0 <= i < |r| ==> r[i] == lines[i].(object_ := Shown(lines[i].object_))
    decreases owner, 0
  {
    seq(|lines|, i requires 0 <= i < |lines| => lines[i].(object_ := Shown(lines[i].object_)))
  }

  function ShownParts(owner: Component, parts: seq<Part>): seq<Part>
    requires forall p :: p in parts ==> p.object_ < owner
    decreases owner, 0
  {
    seq(|parts|, i requires 0 <= i < |parts| =>
      parts[i].(object_ := if parts[i].selected then Shown(parts[i].object_) else Plain(Null)))
  }

  // ------------------------------------------------------------------ reading what was saved

  lemma WrappedIsRead(id: string, conf: Value)
    ensures ConfigIn(Wrap(1, id, conf), id) == Some(conf)
  {
    var m := Wrap(1, id, conf).members;
    assert VERSION_LABEL[0] != ID_LABEL[0] && VERSION_LABEL[0] != CONFIG_LABEL[0] && ID_LABEL[1] != CONFIG_LABEL[1];
    assert m[VERSION_LABEL] == Num(1) && m[ID_LABEL] == Str(id) && m[CONFIG_LABEL] == conf;
  }

  lemma LineIsRead(l: Line, saved: Value, provider: nat -> Kind)
    requires Parse(provider(l.objectType), saved) == Some(Shown(l.object_))
    ensures ParseLine(provider, LineJson(l, saved)) == Some(l.(object_ := Shown(l.object_)))
  {
    var m := LineJson(l, saved).members;
    assert "left-label"[0] != "type"[0] && "left-label"[0] != "object"[0] && "type"[0] != "object"[0];
    assert m["left-label"] == Str(l.leftLabel) && m["type"] == Num(l.objectType) && m["object"] == saved;
  }

  lemma OneMoreLine(provider: nat -> Kind, table: Value, items: seq<Value>, front: seq<Line>, last: Line)
    requires items != [] && forall i :: 0 <= i < |items| ==> items[i] < table
    requires ParseLines(provider, table, items[..|items| - 1]) == Some(front)
    requires ParseLine(provider, items[|items| - 1]) == Some(last)
    ensures ParseLines(provider, table, items) == Some(front + [last])
  {
  }

  lemma PushedElements(list: Value, item: Value)
    requires IsList(list)
    ensures Elements(PushBack(list, item)) == Elements(list) + [item]
  {
  }

  lemma OneMoreSaved(owner: Component, lines: seq<Line>)
    requires lines != [] && forall l :: l in lines ==> l.object_ < owner
    ensures var n := |lines| - 1; var last := lines[n];
      Elements(SaveLines(owner, lines)) == Elements(SaveLines(owner, lines[..n])) + [LineJson(last, Save(last.object_))]
  {
    var n := |lines| - 1;
    PushedElements(SaveLines(owner, lines[..n]), LineJson(lines[n], Save(lines[n].object_)));
  }

  lemma OneMoreShown(owner: Component, lines: seq<Line>)
    requires lines != [] && forall l :: l in lines ==> l.object_ < owner
    ensures var n := |lines| - 1; var last := lines[n];
      ShownLines(owner, lines) == ShownLines(owner, lines[..n]) + [last.(object_ := Shown(last.object_))]
  {
  }

  lemma {:induction false} LinesAreRead(owner: Component, lines: seq<Line>, provider: nat -> Kind, table: Value,
                                        items: seq<Value>)
    requires forall l :: l in lines ==> l.object_ < owner
    requires forall l :: l in lines ==> Parse(provider(l.objectType), Save(l.object_)) == Some(Shown(l.object_))
    requires items == Elements(SaveLines(owner, lines)) && forall i :: 0 <= i < |items| ==> items[i] < table
    ensures ParseLines(provider, table, items) == Some(ShownLines(owner, lines))
    decreases |lines|
  {
    if lines != [] {
      var n := |lines| - 1;
      var last := lines[n];
      OneMoreSaved(owner, lines);
      OneMoreShown(owner, lines);
      LinesAreRead(owner, lines[..n], provider, table, items[..|items| - 1]);
      LineIsRead(last, Save(last.object_), provider);
      OneMoreLine(provider, table, items, ShownLines(owner, lines[..n]), last.(object_ := Shown(last.object_)));
    }
  }

  lemma TableIsRead(owner: Component, lines: seq<Line>, provider: nat -> Kind)
    requires forall l :: l in lines ==> l.object_ < owner
    requires forall l :: l in lines ==> Parse(provider(l.objectType), Save(l.object_)) == Some(Shown(l.object_))
    ensures ParseTable(provider, SaveTable(owner, lines)) == Some(ShownLines(owner, lines))
  {
    var listing := SaveLines(owner, lines);
    var conf := Obj(map["has-lef-labels" := Bool(true), "contents" := listing]);
    assert "has-lef-labels"[0] != "contents"[0];
    assert SaveTable(owner, lines) == Wrap(1, "html_form_dynamic_table", conf);
    WrappedIsRead("html_form_dynamic_table", conf);
    assert At(conf, "contents") == Some(listing) && BoolAt(conf, "has-lef-labels") == Some(true);
    LinesAreRead(owner, lines, provider, SaveTable(owner, lines), Elements(listing));
  }

  lemma MaskIsRead(logic: string, lines: seq<Line>, provider: nat -> Kind)
    requires forall l :: l in lines ==> Parse(provider(l.objectType), Save(l.object_)) == Some(Shown(l.object_))
    ensures var c := MaskBool(logic, lines); Parse(MaskKind(provider), Save(c)) == Some(Shown(c))
  {
    var c := MaskBool(logic, lines);
    var conf := Obj(map["logic" := Str(logic), "components" := SaveTable(c, lines)]);
    assert "logic"[0] != "components"[0];
    assert Save(c) == Wrap(1, "html_form_mask_bool", conf);
    WrappedIsRead("html_form_mask_bool", conf);
    assert StringAt(conf, "logic") == Some(logic) && At(conf, "components") == Some(SaveTable(c, lines));
    TableIsRead(c, lines, provider);
  }

  lemma FormIsRead(id: string, root: Component, k: Kind)
    requires Parse(k, Save(root)) == Some(Shown(root))
    ensures var c := MaskForm(id, root); Parse(FormKind(id, k), Save(c)) == Some(Shown(c))
  {
    var c := MaskForm(id, root);
    var conf := Obj(map["bool-config" := Save(root)]);
    assert Save(c) == Wrap(1, id, conf);
    WrappedIsRead(id, conf);
    assert At(conf, "bool-config") == Some(Save(root));
  }

  lemma OwnIsRead(categ: Category, inner: Component, k: Kind)
    requires Parse(k, Save(inner)) == Some(Shown(inner))
    ensures var c := Guichet(categ, None, inner); Parse(GuichetKind(categ, k), Save(c)) == Some(Shown(c))
  {
    assert "manual-mode"[0] != "config"[0];
    var conf := Obj(map["manual-mode" := Bool(true), "config" := Save(inner)]);
    assert Save(Guichet(categ, None, inner)) == Wrap(1, "guichet", conf);
    WrappedIsRead("guichet", conf);
    assert BoolAt(conf, "manual-mode") == Some(true) && At(conf, "config") == Some(Save(inner));
  }

  lemma FollowerIsRead(categ: Category, name: string, inner: Component, k: Kind)
    ensures Parse(GuichetKind(categ, k), Save(Guichet(categ, Some(name), inner))) ==
      Some(Guichet(categ, Some(name), Plain(Null)))
  {
    var conf := Obj(map["manual-mode" := Bool(false), "category" := Str(CategoryToString(categ)),
      "configname" := Str(name)]);
    assert Save(Guichet(categ, Some(name), inner)) == Wrap(1, "guichet", conf);
    WrappedIsRead("guichet", conf);
    FollowerLabels(conf, categ, name);
  }

  lemma FollowerLabels(conf: Value, categ: Category, name: string)
    requires conf == Obj(map["manual-mode" := Bool(false), "category" := Str(CategoryToString(categ)),
      "configname" := Str(name)])
    ensures BoolAt(conf, "manual-mode") == Some(false) && StringAt(conf, "configname") == Some(name)
    ensures StringAt(conf, "category") == Some(CategoryToString(categ))
  {
    assert "manual-mode"[0] != "category"[0] && "manual-mode"[0] != "configname"[0];
    assert "category"[1] != "configname"[1];
  }

  ghost predicate OwnKeys(settings: map<string, Value>, parts: seq<Part>) {
    && (forall i :: 0 <= i < |parts| ==> parts[i].key !in settings)
    && forall i, j :: 0 <= i < j < |parts| ==> parts[i].key != parts[j].key
  }

  /** The part at i is under its key if it is selected, and is not there otherwise. */
  ghost predicate KeptAt(m: map<string, Value>, part: Part) {
    if part.selected then part.key in m && m[part.key] == Save(part.object_) else part.key !in m
  }

  ghost predicate KeyOf(parts: seq<Part>, key: string) {
    exists i :: 0 <= i < |parts| && parts[i].key == key
  }

  /** So it is of each part, and the rest are the settings. */
  ghost predicate Keeps(m: map<string, Value>, settings: map<string, Value>, parts: seq<Part>) {
    && (forall i {:trigger KeptAt(m, parts[i])} :: 0 <= i < |parts| ==> KeptAt(m, parts[i]))
    && (forall key :: key in settings ==> key in m && m[key] == settings[key])
    && forall key :: key in m && key !in settings ==> KeyOf(parts, key)
  }

  lemma KeepsOneMore(before: map<string, Value>, settings: map<string, Value>, front: seq<Part>, last: Part,
                     parts: seq<Part>)
    requires Keeps(before, settings, front) && parts == front + [last] && OwnKeys(settings, parts)
    ensures Keeps(if last.selected then before[last.key := Save(last.object_)] else before, settings, parts)
  {
    var m, n := if last.selected then before[last.key := Save(last.object_)] else before, |front|;
    assert parts[n] == last && KeyOf(parts, last.key);
    forall i | 0 <= i < n ensures front[i].key != last.key && parts[i] == front[i] && KeptAt(m, parts[i]) {
      assert KeptAt(before, front[i]) && parts[i].key != parts[n].key;
    }
    assert !KeyOf(front, last.key);
    assert KeptAt(m, last);
    forall key | key in m && key !in settings ensures KeyOf(parts, key) {
      if KeyOf(front, key) {
        var i :| 0 <= i < |front| && front[i].key == key;
        assert parts[i].key == key;
      }
    }
  }

  lemma {:induction false} PartsAreKept(owner: Component, settings: map<string, Value>, parts: seq<Part>)
    requires (forall p :: p in parts ==> p.object_ < owner) && OwnKeys(settings, parts)
    ensures Keeps(SaveParts(owner, settings, parts), settings, parts)
    decreases |parts|
  {
    if parts != [] {
      var n := |parts| - 1;
      assert parts == parts[..n] + [parts[n]];
      PartsAreKept(owner, settings, parts[..n]);
      KeepsOneMore(SaveParts(owner, settings, parts[..n]), settings, parts[..n], parts[n], parts);
    }
  }

  lemma OneMorePart(slots: seq<(Slot, Kind)>, conf: Value, front: seq<Part>, last: Part)
    requires slots != [] && ParseParts(slots[..|slots| - 1], conf) == Some(front)
    requires ParsePart(slots[|slots| - 1].0, slots[|slots| - 1].1, conf) == Some(last)
    ensures ParseParts(slots, conf) == Some(front + [last])
  {
  }

  lemma {:induction false} PartsAreRead(shown: seq<Part>, slots: seq<(Slot, Kind)>, conf: Value)
    requires |slots| == |shown|
    requires forall i :: 0 <= i < |shown| ==> ParsePart(slots[i].0, slots[i].1, conf) == Some(shown[i])
    ensures ParseParts(slots, conf) == Some(shown)
    decreases |shown|
  {
    if shown != [] {
      var n := |shown| - 1;
      PartsAreRead(shown[..n], slots[..n], conf);
      OneMorePart(slots, conf, shown[..n], shown[n]);
      assert shown == shown[..n] + [shown[n]];
    }
  }

  lemma OptionsAreRead(c: Component, k: Kind)
    requires c.Options? && k.OptionsKind? && Conforms(c, k)
    requires forall i :: 0 <= i < |c.parts| ==>
      Parse(k.slots[i].1, Save(c.parts[i].object_)) == Some(Shown(c.parts[i].object_))
    ensures Parse(k, Save(c)) == Some(Shown(c))
  {
    var m := SaveParts(c, c.settings, c.parts);
    WrappedIsRead(c.id, Obj(m));
    KeysAreOwn(c, k);
    PartsAreKept(c, c.settings, c.parts);
    forall i | 0 <= i < |c.parts|
      ensures ParsePart(k.slots[i].0, k.slots[i].1, Obj(m)) == Some(ShownParts(c, c.parts)[i])
    {
      assert KeptAt(m, c.parts[i]);
    }
    PartsAreRead(ShownParts(c, c.parts), k.slots, Obj(m));
    SettingsRemain(c, k, m);
  }

  lemma KeysAreOwn(c: Component, k: Kind)
    requires c.Options? && k.OptionsKind? && Conforms(c, k)
    ensures OwnKeys(c.settings, c.parts)
    ensures KeysOf(k.slots) == set i | 0 <= i < |c.parts| :: c.parts[i].key
  {
    forall i | 0 <= i < |c.parts| ensures c.parts[i].key in KeysOf(k.slots) {
      assert k.slots[i].0.key in KeysOf(k.slots);
    }
  }

  lemma SettingsRemain(c: Component, k: Kind, m: map<string, Value>)
    requires c.Options? && k.OptionsKind? && Conforms(c, k)
    requires Keeps(m, c.settings, c.parts)
    ensures m - KeysOf(k.slots) == c.settings
  {
    KeysAreOwn(c, k);
  }

  /** Whatever is saved, through any nesting of guichets, masks, forms and options, is read back. */
  lemma {:induction false} SavedIsReadBack(c: Component, k: Kind)
    requires Conforms(c, k)
    ensures Parse(k, Save(c)) == Some(Shown(c))
    decreases c
  {
    match c
    case Plain(_) =>
    case MaskBool(logic, lines) =>
      forall l | l in lines ensures Parse(k.provider(l.objectType), Save(l.object_)) == Some(Shown(l.object_)) {
        SavedIsReadBack(l.object_, k.provider(l.objectType));
      }
      MaskIsRead(logic, lines, k.provider);
    case MaskForm(id, root) =>
      SavedIsReadBack(root, k.root);
      FormIsRead(id, root, k.root);
    case Options(_, _, parts) =>
      forall i | 0 <= i < |parts| ensures Parse(k.slots[i].1, Save(parts[i].object_)) == Some(Shown(parts[i].object_)) {
        SavedIsReadBack(parts[i].object_, k.slots[i].1);
      }
      OptionsAreRead(c, k);
    case Guichet(categ, choice, inner) =>
      SavedIsReadBack(inner, k.inner);
      match choice {
        case None => OwnIsRead(categ, inner, k.inner);
        case Some(name) => FollowerIsRead(categ, name, inner, k.inner);
      }
  }
}
