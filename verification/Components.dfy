/** The tree of configurable components under a guichet: what it saves, which stored
    configurations that mentions, and which ones it declares as its dependencies. */
module Components {
  import opened Json
  import opened ConfigTable
  import DynamicTables

  /** A guichet lets its inner component either be set up by hand (choice None) or follow a
      stored configuration; a boolean mask is a table of components, one a line; a mask form
      wraps one such table; a set of options has settings of its own and parts, each saved under
      its label; anything else just has a configuration of its own. */
  datatype Component =
    | Plain(config: Value)
    | MaskBool(logic: string, lines: seq<Line>)
    | MaskForm(id: string, root: Component)
    | Options(id: string, settings: map<string, Value>, parts: seq<Part>)
    | Guichet(categ: Category, choice: Option<string>, inner: Component)

  datatype Line = Line(leftLabel: string, objectType: nat, object_: Component)

  /** A part is saved if it is selected; the class collects what it declares, or not; an
      alternative that is not selected is cleared when the options are saved, or not. */
  datatype Part = Part(key: string, selected: bool, declared: bool, forgets: bool, object_: Component)

  const GUICHET_ID := "guichet"
  const MODE_LABEL := "manual-mode"
  const CATEG_LABEL := "category"
  const CONFNAME_LABEL := "configname"
  const CONF_LABEL := "config"
  const MASK_BOOL_ID := "html_form_mask_bool"
  const LOGIC_LABEL := "logic"
  const COMPONENTS_LABEL := "components"
  const BOOL_CONFIG_LABEL := "bool-config"

  // ------------------------------------------------------------------ specification

  function Save(c: Component): Value
    decreases c
  {
    match c
    case Plain(config) => config
    case MaskBool(logic, lines) =>
      Wrap(1, MASK_BOOL_ID, Obj(map[LOGIC_LABEL := Str(logic), COMPONENTS_LABEL := SaveTable(c, lines)]))
    case MaskForm(id, root) => Wrap(1, id, Obj(map[BOOL_CONFIG_LABEL := Save(root)]))
    case Options(id, settings, parts) => Wrap(1, id, Obj(SaveParts(c, settings, parts)))
    case Guichet(categ, choice, inner) =>
      Wrap(1, GUICHET_ID,
        match choice
        case None => Obj(map[MODE_LABEL := Bool(true), CONF_LABEL := Save(inner)])
        case Some(name) =>
          Obj(map[MODE_LABEL := Bool(false), CATEG_LABEL := Str(CategoryToString(categ)), CONFNAME_LABEL := Str(name)]))
  }

  function LineJson(l: Line, saved: Value): Value {
    Obj(map[DynamicTables.LEFT_LABEL := Str(l.leftLabel), DynamicTables.TYPE_LABEL := Num(l.objectType),
      DynamicTables.OBJECT_LABEL := saved])
  }

  function SaveTable(owner: Component, lines: seq<Line>): Value
    requires forall l :: l in lines ==> l.object_ < owner
    decreases owner, |lines| + 1
  {
    Wrap(1, DynamicTables.CLASS_ID, Obj(map[DynamicTables.HAS_LEFT_LABEL := Bool(true),
      DynamicTables.CONTENTS_LABEL := SaveLines(owner, lines)]))
  }

  function SaveLines(owner: Component, lines: seq<Line>): (r: Value)
    requires forall l :: l in lines ==> l.object_ < owner
    ensures IsList(r)
    decreases owner, |lines|
  {
    if lines == [] then Null
    else PushBack(SaveLines(owner, lines[..|lines| - 1]), LineJson(Last(lines), Save(Last(lines).object_)))
  }

  function SaveParts(owner: Component, settings: map<string, Value>, parts: seq<Part>): map<string, Value>
    requires forall p :: p in parts ==> p.object_ < owner
    decreases owner, |parts|
  {
    if parts == [] then settings
    else
      var before, last := SaveParts(owner, settings, parts[..|parts| - 1]), Last(parts);
      if last.selected then before[last.key := Save(last.object_)] else before
  }

  function UsingSetOf(c: Component): UsingSet
    decreases c
  {
    match c
    case Plain(_) => {}
    case MaskBool(_, lines) => UsingSetOfLines(c, lines)
    case MaskForm(_, root) => UsingSetOf(root)
    case Options(_, _, parts) => UsingSetOfParts(c, parts)
    case Guichet(categ, choice, inner) =>
      (match choice case None => {} case Some(name) => {Coordinates(categ, name)}) + UsingSetOf(inner)
  }

  function UsingSetOfLines(owner: Component, lines: seq<Line>): UsingSet
    requires forall l :: l in lines ==> l.object_ < owner
    decreases owner, |lines|
  {
    if lines == [] then {}
    else UsingSetOfLines(owner, lines[..|lines| - 1]) + UsingSetOf(Last(lines).object_)
  }

  /** Selected or not. */
  function UsingSetOfParts(owner: Component, parts: seq<Part>): UsingSet
    requires forall p :: p in parts ==> p.object_ < owner
    decreases owner, |parts|
  {
    if parts == [] then {}
    else
      UsingSetOfParts(owner,
        parts[..|parts| - 1]) + if Last(parts).declared then UsingSetOf(Last(parts).object_) else {}
  }

  // ------------------------------------------------------------------ the mentions of a document

  /** The stored configuration that this very object refers to, if it is such a reference. */
  function Reference(j: Value): UsingSet {
    match (BoolAt(j, MODE_LABEL), StringAt(j, CATEG_LABEL), StringAt(j, CONFNAME_LABEL))
    case (Some(false), Some(cat), Some(name)) =>
      (match StringToCategory(cat) case Some(c) => {Coordinates(c, name)} case None => {})
    case _ => {}
  }

  /** Every configuration mentioned anywhere in a document. */
  function Mentions(j: Value): UsingSet {
    match j
    case Arr(items) => set i, x | 0 <= i < |items| && x in Mentions(items[i]) :: x
    case Obj(members) => Reference(j) + set k, x | k in members && x in Mentions(members[k]) :: x
    case _ => {}
  }

  // ------------------------------------------------------------------ saving, as the components do it

  method SaveJson(c: Component) returns (j: Value)
    ensures j == Save(c)
    decreases c
  {
    match c
    case Plain(config) => j := config;
    case MaskBool(logic, lines) =>
      var listing := Null;
      for i := 0 to |lines|
        invariant listing == SaveLines(c, lines[..i])
      {
        assert lines[..i + 1][..i] == lines[..i];
        var saved := SaveJson(lines[i].object_);
        listing := PushBack(listing, LineJson(lines[i], saved));
      }
      assert lines[..|lines|] == lines;
      var table := Wrap(1, DynamicTables.CLASS_ID,
        Obj(map[DynamicTables.HAS_LEFT_LABEL := Bool(true), DynamicTables.CONTENTS_LABEL := listing]));
      j := Wrap(1, MASK_BOOL_ID, Obj(map[LOGIC_LABEL := Str(logic), COMPONENTS_LABEL := table]));
    case MaskForm(id, root) =>
      var saved := SaveJson(root);
      j := Wrap(1, id, Obj(map[BOOL_CONFIG_LABEL := saved]));
    case Options(id, settings, parts) =>
      var config := settings;
      for i := 0 to |parts|
        invariant config == SaveParts(c, settings, parts[..i])
      {
        assert parts[..i + 1][..i] == parts[..i];
        if parts[i].selected {
          var saved := SaveJson(parts[i].object_);
          config := config[parts[i].key := saved];
        }
      }
      assert parts[..|parts|] == parts;
      j := Wrap(1, id, Obj(config));
    case Guichet(categ, choice, inner) =>
      var ret;
      if choice.None? {
        var saved := SaveJson(inner);
        ret := Obj(map[MODE_LABEL := Bool(true), CONF_LABEL := saved]);
      } else {
        ret := Obj(map[MODE_LABEL := Bool(false), CATEG_LABEL := Str(CategoryToString(categ)),
          CONFNAME_LABEL := Str(choice.value)]);
      }
      j := Wrap(1, GUICHET_ID, ret);
  }

  method GetUsingSet(c: Component) returns (r: UsingSet)
    ensures r == UsingSetOf(c)
    decreases c
  {
    r := {};
    match c
    case Plain(_) =>
    case MaskBool(_, lines) =>
      for i := 0 to |lines|
        invariant r == UsingSetOfLines(c, lines[..i])
      {
        assert lines[..i + 1][..i] == lines[..i];
        var sub := GetUsingSet(lines[i].object_);
        r := r + sub;
      }
      assert lines[..|lines|] == lines;
    case MaskForm(_, root) => r := GetUsingSet(root);
    case Options(_, _, parts) =>
      for i := 0 to |parts|
        invariant r == UsingSetOfParts(c, parts[..i])
      {
        assert parts[..i + 1][..i] == parts[..i];
        if parts[i].declared {
          var sub := GetUsingSet(parts[i].object_);
          r := r + sub;
        }
      }
      assert parts[..|parts|] == parts;
    case Guichet(categ, choice, inner) =>
      if choice.Some? {
        r := {Coordinates(categ, choice.value)};
      }
      var sub := GetUsingSet(inner);
      r := r + sub;
      assert r == UsingSetOf(c);
  }

  // ------------------------------------------------------------------ what is written

  /** No setting refers to anything, and each part has a label of its own. */
  ghost predicate Labelled(settings: map<string, Value>, parts: seq<Part>) {
    && MODE_LABEL !in settings && (forall k :: k in settings ==> Mentions(settings[k]) == {})
    && (forall i :: 0 <= i < |parts| ==> parts[i].key != MODE_LABEL && parts[i].key !in settings)
    && forall i, j :: 0 <= i < j < |parts| ==> parts[i].key != parts[j].key
  }

  /** What is not made of components holds no reference: only guichets write any. */
  ghost predicate Genuine(c: Component)
    decreases c
  {
    match c
    case Plain(config) => Mentions(config) == {}
    case MaskBool(_, lines) => forall l :: l in lines ==> Genuine(l.object_)
    case MaskForm(_, root) => Genuine(root)
    case Options(_, settings, parts) => Labelled(settings, parts) && forall p :: p in parts ==> Genuine(p.object_)
    case Guichet(_, _, inner) => Genuine(inner)
  }

  /** The references the components write, told from the components themselves: those of the
      guichets that follow a configuration and have none above them that does, nor an alternative
      that is not selected. */
  function Written(c: Component): UsingSet
    decreases c
  {
    match c
    case Plain(_) => {}
    case MaskBool(_, lines) => WrittenByLines(c, lines)
    case MaskForm(_, root) => Written(root)
    case Options(_, _, parts) => WrittenByParts(c, parts)
    case Guichet(categ, choice, inner) =>
      match choice case None => Written(inner) case Some(name) => {Coordinates(categ, name)}
  }

  function WrittenByLines(owner: Component, lines: seq<Line>): UsingSet
    requires forall l :: l in lines ==> l.object_ < owner
    decreases owner, |lines|
  {
    if lines == [] then {}
    else WrittenByLines(owner, lines[..|lines| - 1]) + Written(Last(lines).object_)
  }

  function WrittenByParts(owner: Component, parts: seq<Part>): UsingSet
    requires forall p :: p in parts ==> p.object_ < owner
    decreases owner, |parts|
  {
    if parts == [] then {}
    else WrittenByParts(owner, parts[..|parts| - 1]) + if Last(parts).selected then Written(Last(parts).object_) else {}
  }

  lemma MentionsWrap(version: nat, id: string, config: Value)
    ensures Mentions(Wrap(version, id, config)) == Mentions(config)
  {
    var j := Wrap(version, id, config);
    var m := j.members;
    assert MODE_LABEL[0] != VERSION_LABEL[0] && MODE_LABEL[0] != ID_LABEL[0] && MODE_LABEL[0] != CONFIG_LABEL[0];
    assert MODE_LABEL !in m;
    assert VERSION_LABEL[0] != CONFIG_LABEL[0] && ID_LABEL[1] != CONFIG_LABEL[1];
    assert m.Keys == {VERSION_LABEL, ID_LABEL, CONFIG_LABEL} && m[CONFIG_LABEL] == config;
    assert Mentions(m[VERSION_LABEL]) == {} && Mentions(m[ID_LABEL]) == {};
  }

  /** An object with no mode member refers to nothing itself. */
  lemma MentionsInside(m: map<string, Value>, only: string)
    requires MODE_LABEL !in m && only in m
    requires forall k :: k in m && k != only ==> Mentions(m[k]) == {}
    ensures Mentions(Obj(m)) == Mentions(m[only])
  {
  }

  lemma MentionsLine(l: Line, saved: Value)
    ensures Mentions(LineJson(l, saved)) == Mentions(saved)
  {
    var m := LineJson(l, saved).members;
    assert DynamicTables.OBJECT_LABEL[0] != DynamicTables.LEFT_LABEL[0] &&
      DynamicTables.OBJECT_LABEL[0] != DynamicTables.TYPE_LABEL[0];
    assert MODE_LABEL[0] != DynamicTables.LEFT_LABEL[0] && MODE_LABEL[0] != DynamicTables.TYPE_LABEL[0] &&
      MODE_LABEL[0] != DynamicTables.OBJECT_LABEL[0];
    MentionsInside(m, DynamicTables.OBJECT_LABEL);
  }

  lemma MentionsTable(contents: Value)
    ensures Mentions(Wrap(1, DynamicTables.CLASS_ID, Obj(map[DynamicTables.HAS_LEFT_LABEL := Bool(true),
      DynamicTables.CONTENTS_LABEL := contents]))) == Mentions(contents)
  {
    var m := map[DynamicTables.HAS_LEFT_LABEL := Bool(true), DynamicTables.CONTENTS_LABEL := contents];
    assert DynamicTables.HAS_LEFT_LABEL[0] != DynamicTables.CONTENTS_LABEL[0];
    assert MODE_LABEL[0] != DynamicTables.HAS_LEFT_LABEL[0] && MODE_LABEL[0] != DynamicTables.CONTENTS_LABEL[0];
    MentionsInside(m, DynamicTables.CONTENTS_LABEL);
    MentionsWrap(1, DynamicTables.CLASS_ID, Obj(m));
  }

  lemma MentionsMask(logic: string, table: Value)
    ensures Mentions(Wrap(1, MASK_BOOL_ID, Obj(map[LOGIC_LABEL := Str(logic), COMPONENTS_LABEL := table]))) ==
      Mentions(table)
  {
    var m := map[LOGIC_LABEL := Str(logic), COMPONENTS_LABEL := table];
    assert LOGIC_LABEL[0] != COMPONENTS_LABEL[0];
    assert MODE_LABEL[0] != LOGIC_LABEL[0] && MODE_LABEL[0] != COMPONENTS_LABEL[0];
    MentionsInside(m, COMPONENTS_LABEL);
    MentionsWrap(1, MASK_BOOL_ID, Obj(m));
  }

  lemma MentionsForm(id: string, root: Value)
    ensures Mentions(Wrap(1, id, Obj(map[BOOL_CONFIG_LABEL := root]))) == Mentions(root)
  {
    var m := map[BOOL_CONFIG_LABEL := root];
    assert MODE_LABEL[0] != BOOL_CONFIG_LABEL[0];
    MentionsInside(m, BOOL_CONFIG_LABEL);
    MentionsWrap(1, id, Obj(m));
  }

  lemma MentionsManual(inner: Value)
    ensures Mentions(Wrap(1, GUICHET_ID, Obj(map[MODE_LABEL := Bool(true), CONF_LABEL := inner]))) == Mentions(inner)
  {
    var m := map[MODE_LABEL := Bool(true), CONF_LABEL := inner];
    assert MODE_LABEL[0] != CONF_LABEL[0];
    assert m.Keys == {MODE_LABEL, CONF_LABEL} && Mentions(m[MODE_LABEL]) == {};
    assert BoolAt(Obj(m), MODE_LABEL) == Some(true);
    assert Reference(Obj(m)) == {};
    MentionsWrap(1, GUICHET_ID, Obj(m));
  }

  lemma MentionsFollower(categ: Category, name: string)
    ensures Mentions(Wrap(1, GUICHET_ID,
      Obj(map[MODE_LABEL := Bool(false), CATEG_LABEL := Str(CategoryToString(categ)), CONFNAME_LABEL := Str(name)])))
      == {Coordinates(categ, name)}
  {
    var m := map[MODE_LABEL := Bool(false), CATEG_LABEL := Str(CategoryToString(categ)), CONFNAME_LABEL := Str(name)];
    assert MODE_LABEL[0] != CATEG_LABEL[0] && MODE_LABEL[0] != CONFNAME_LABEL[0] && CATEG_LABEL[1] != CONFNAME_LABEL[1];
    assert BoolAt(Obj(m), MODE_LABEL) == Some(false);
    assert StringAt(Obj(m), CATEG_LABEL) == Some(CategoryToString(categ));
    assert StringAt(Obj(m), CONFNAME_LABEL) == Some(name);
    assert Reference(Obj(m)) == {Coordinates(categ, name)};
    assert forall k :: k in m ==> Mentions(m[k]) == {};
    MentionsWrap(1, GUICHET_ID, Obj(m));
  }

  lemma MentionsPushed(list: Value, item: Value)
    requires IsList(list)
    ensures Mentions(PushBack(list, item)) == Mentions(list) + Mentions(item)
  {
    var items := PushBack(list, item).items;
    var n := |items| - 1;
    assert items[..n] == Elements(list) && items[n] == item;
    assert forall i :: 0 <= i < n ==> items[i] == Elements(list)[i];
    forall x | x in Mentions(list) + Mentions(item) ensures x in Mentions(PushBack(list, item)) {
      if x in Mentions(item) {
        assert x in Mentions(items[n]);
      } else {
        var i :| 0 <= i < n && x in Mentions(Elements(list)[i]);
        assert x in Mentions(items[i]);
      }
    }
  }

  lemma {:induction false} MentionsLines(owner: Component, lines: seq<Line>)
    requires forall l :: l in lines ==> l.object_ < owner
    requires forall l :: l in lines ==> Mentions(Save(l.object_)) == Written(l.object_)
    ensures Mentions(SaveLines(owner, lines)) == WrittenByLines(owner, lines)
  {
    if lines != [] {
      var before, last := lines[..|lines| - 1], Last(lines);
      MentionsLines(owner, before);
      MentionsLine(last, Save(last.object_));
      MentionsPushed(SaveLines(owner, before), LineJson(last, Save(last.object_)));
    }
  }

  lemma MentionsOneMore(m: map<string, Value>, key: string, saved: Value)
    requires MODE_LABEL !in m && key != MODE_LABEL && key !in m
    ensures Mentions(Obj(m[key := saved])) == Mentions(Obj(m)) + Mentions(saved)
  {
    var m' := m[key := saved];
    assert forall k :: k in m ==> m'[k] == m[k];
    assert m'[key] == saved;
  }

  lemma {:induction false} MentionsParts(owner: Component, settings: map<string, Value>, parts: seq<Part>)
    requires forall p :: p in parts ==> p.object_ < owner
    requires Labelled(settings, parts)
    requires forall p :: p in parts ==> Mentions(Save(p.object_)) == Written(p.object_)
    ensures Mentions(Obj(SaveParts(owner, settings, parts))) == WrittenByParts(owner, parts)
    ensures forall k :: k in SaveParts(owner, settings, parts) ==>
      k in settings || exists i :: 0 <= i < |parts| && parts[i].key == k
  {
    if parts != [] {
      var n := |parts| - 1;
      MentionsParts(owner, settings, parts[..n]);
      if parts[n].selected {
        MentionsOneMore(SaveParts(owner, settings, parts[..n]), parts[n].key, Save(parts[n].object_));
      }
    }
  }

  /** What a component tree saves mentions exactly the references its guichets write. */
  lemma {:induction false} SavedMentions(c: Component)
    requires Genuine(c)
    ensures Mentions(Save(c)) == Written(c)
  {
    match c
    case Plain(_) =>
    case MaskBool(logic, lines) =>
      forall l | l in lines ensures Mentions(Save(l.object_)) == Written(l.object_) {
        SavedMentions(l.object_);
      }
      MentionsLines(c, lines);
      MentionsTable(SaveLines(c, lines));
      MentionsMask(logic, SaveTable(c, lines));
    case MaskForm(id, root) =>
      SavedMentions(root);
      MentionsForm(id, Save(root));
    case Options(id, settings, parts) =>
      forall p | p in parts ensures Mentions(Save(p.object_)) == Written(p.object_) {
        SavedMentions(p.object_);
      }
      MentionsParts(c, settings, parts);
      MentionsWrap(1, id, Obj(SaveParts(c, settings, parts)));
    case Guichet(categ, choice, inner) =>
      SavedMentions(inner);
      match choice {
        case None => MentionsManual(Save(inner));
        case Some(name) => MentionsFollower(categ, name);
      }
  }

  // ------------------------------------------------------------------ what is declared

  /** What a component declares once it has been saved, which clears some alternatives. */
  function DeclaredAfter(c: Component): UsingSet
    decreases c
  {
    match c
    case Plain(_) => {}
    case MaskBool(_, lines) => DeclaredAfterLines(c, lines)
    case MaskForm(_, root) => DeclaredAfter(root)
    case Options(_, _, parts) => DeclaredAfterParts(c, parts)
    case Guichet(categ, choice, inner) =>
      match choice case None => DeclaredAfter(inner) case Some(name) => {Coordinates(categ, name)} + UsingSetOf(inner)
  }

  function DeclaredAfterLines(owner: Component, lines: seq<Line>): UsingSet
    requires forall l :: l in lines ==> l.object_ < owner
    decreases owner, |lines|
  {
    if lines == [] then {}
    else DeclaredAfterLines(owner, lines[..|lines| - 1]) + DeclaredAfter(Last(lines).object_)
  }

  function DeclaredAfterParts(owner: Component, parts: seq<Part>): UsingSet
    requires forall p :: p in parts ==> p.object_ < owner
    decreases owner, |parts|
  {
    if parts == [] then {}
    else
      var last := Last(parts);
      DeclaredAfterParts(owner, parts[..|parts| - 1]) +
      if !last.declared then {}
      else if last.selected then DeclaredAfter(last.object_)
      else if last.forgets then {}
      else UsingSetOf(last.object_)
  }

  /** The references written by parts whose class forgets to declare them. */
  function Undeclared(c: Component): UsingSet
    decreases c
  {
    match c
    case Plain(_) => {}
    case MaskBool(_, lines) => UndeclaredByLines(c, lines)
    case MaskForm(_, root) => Undeclared(root)
    case Options(_, _, parts) => UndeclaredByParts(c, parts)
    case Guichet(_, choice, inner) => if choice.None? then Undeclared(inner) else {}
  }

  function UndeclaredByLines(owner: Component, lines: seq<Line>): UsingSet
    requires forall l :: l in lines ==> l.object_ < owner
    decreases owner, |lines|
  {
    if lines == [] then {}
    else UndeclaredByLines(owner, lines[..|lines| - 1]) + Undeclared(Last(lines).object_)
  }

  function UndeclaredByParts(owner: Component, parts: seq<Part>): UsingSet
    requires forall p :: p in parts ==> p.object_ < owner
    decreases owner, |parts|
  {
    if parts == [] then {}
    else
      var last := Last(parts);
      UndeclaredByParts(owner, parts[..|parts| - 1]) +
      if !last.selected then {} else if last.declared then Undeclared(last.object_) else Written(last.object_)
  }

  /** Between the two what is written lies, and saving makes a component declare nothing more. */
  ghost predicate Covered(written: UsingSet, declared: UsingSet, after: UsingSet, undeclared: UsingSet) {
    undeclared <= written <= after + undeclared && after <= declared
  }

  /** For any nesting, before and after saving, what is written is declared or written by a part
      that its class leaves out. */
  lemma {:induction false} WrittenIsCovered(c: Component)
    ensures Covered(Written(c), UsingSetOf(c), DeclaredAfter(c), Undeclared(c))
  {
    match c
    case Plain(_) =>
    case MaskBool(_, lines) =>
      forall l | l in lines
        ensures Covered(Written(l.object_), UsingSetOf(l.object_), DeclaredAfter(l.object_), Undeclared(l.object_))
      {
        WrittenIsCovered(l.object_);
      }
      LinesAreCovered(c, lines);
    case MaskForm(_, root) => WrittenIsCovered(root);
    case Options(_, _, parts) =>
      forall p | p in parts
        ensures Covered(Written(p.object_), UsingSetOf(p.object_), DeclaredAfter(p.object_), Undeclared(p.object_))
      {
        WrittenIsCovered(p.object_);
      }
      PartsAreCovered(c, parts);
    case Guichet(_, _, inner) => WrittenIsCovered(inner);
  }

  lemma {:induction false} LinesAreCovered(owner: Component, lines: seq<Line>)
    requires forall l :: l in lines ==> l.object_ < owner
    requires forall l :: l in lines ==>
      Covered(Written(l.object_), UsingSetOf(l.object_), DeclaredAfter(l.object_), Undeclared(l.object_))
    ensures Covered(WrittenByLines(owner, lines), UsingSetOfLines(owner, lines), DeclaredAfterLines(owner, lines),
                    UndeclaredByLines(owner, lines))
  {
    if lines != [] {
      LinesAreCovered(owner, lines[..|lines| - 1]);
    }
  }

  lemma {:induction false} PartsAreCovered(owner: Component, parts: seq<Part>)
    requires forall p :: p in parts ==> p.object_ < owner
    requires forall p :: p in parts ==>
      Covered(Written(p.object_), UsingSetOf(p.object_), DeclaredAfter(p.object_), Undeclared(p.object_))
    ensures Covered(WrittenByParts(owner, parts), UsingSetOfParts(owner, parts), DeclaredAfterParts(owner, parts),
                    UndeclaredByParts(owner, parts))
  {
    if parts != [] {
      PartsAreCovered(owner, parts[..|parts| - 1]);
    }
  }

  /** Each configuration that the saved document mentions is among those declared, be they asked
      for before saving or after it, if and only if the parts left out write only what other parts
      declare. */
  lemma MentionsAreDeclaredIff(c: Component)
    requires Genuine(c)
    ensures Mentions(Save(c)) <= UsingSetOf(c) <==> Undeclared(c) <= UsingSetOf(c)
    ensures Mentions(Save(c)) <= DeclaredAfter(c) <==> Undeclared(c) <= DeclaredAfter(c)
  {
    SavedMentions(c);
    WrittenIsCovered(c);
  }

  // ------------------------------------------------------------------ the classes of options

  /** A part that a class has: whether it collects what the part declares, and whether saving
      clears the part when it is not selected. */
  datatype Slot = Slot(key: string, declared: bool, forgets: bool)

  datatype OptionsClass = OptionsClass(id: string, slots: seq<Slot>)

  const CREATE := OptionsClass("html_form_options_create",
    [Slot("entrepot", true, false), Slot("file-mask", true, false), Slot("path-mask", true, false),
     Slot("ea-mask", true, false), Slot("reference", true, true), Slot("delta-sig-block-size", true, true),
     Slot("delta-mask", true, true), Slot("compress-params", true, false), Slot("compress-mask", true, false),
     Slot("slicing", true, false), Slot("ciphering", true, false)])

  const COMPARE := OptionsClass("html_options_compare",
    [Slot("file-mask", true, false), Slot("path-mask", true, false), Slot("fsa-scope", true, false)])

  const EXTRACT := OptionsClass("html_options_extract",
    [Slot("overwriting-policy", true, false), Slot("filename-mask", true, false), Slot("path-mask", true, false),
     Slot("ea-mask", true, false)])

  const ISOLATE := OptionsClass("html_options_isolate",
    [Slot("delta-sig-block-size", true, true), Slot("delta-mask", true, true), Slot("entrepot", true, false),
     Slot("compr-params", true, false), Slot("slicing", true, false), Slot("ciphering", true, false)])

  /** The class that saves its compression parameters and does not declare them. */
  const MERGE := OptionsClass("html_options_merge",
    [Slot("entrepot", true, false), Slot("auxiliary", true, true), Slot("delta-sig-block-size", true, true),
     Slot("delta-mask", true, true), Slot("filename-mask", true, false), Slot("path-mask", true, false),
     Slot("ea-mask", true, false), Slot("overwriting-policy", true, false), Slot("compression-params", false, false),
     Slot("compression-mask", true, false), Slot("slicing", true, false), Slot("ciphering", true, false)])

  const READ := OptionsClass("html_options_read", [Slot("entrepot", true, false), Slot("ref-entrepot", true, false)])

  const REPAIR := OptionsClass("html_options_repair",
    [Slot("entrepot", true, false), Slot("slicing", true, false), Slot("ciphering", true, false)])

  const TEST := OptionsClass("html_options_test", [Slot("file-mask", true, false), Slot("path-mask", true, false)])

  const ARCHIVE_READ := OptionsClass("html_archive_read", [Slot("read-options", true, false)])

  const CLASSES: seq<OptionsClass> := [CREATE, COMPARE, EXTRACT, ISOLATE, MERGE, READ, REPAIR, TEST, ARCHIVE_READ]

  /** The options are those of the class. */
  ghost predicate IsOf(c: Component, kind: OptionsClass)
    requires c.Options?
  {
    && c.id == kind.id && |c.parts| == |kind.slots|
    && forall i :: 0 <= i < |c.parts| ==>
        var p, s := c.parts[i], kind.slots[i]; p.key == s.key && p.declared == s.declared && p.forgets == s.forgets
  }

  /** Of the classes there are, all but one declare all their parts. */
  lemma OneClassLeavesOut(kind: OptionsClass)
    requires kind in CLASSES
    ensures (forall i :: 0 <= i < |kind.slots| ==> kind.slots[i].declared) <==> kind != MERGE
  {
    assert !MERGE.slots[8].declared;
  }

  /** All options in the tree are of the classes there are, but for the one that leaves something
      out. */
  ghost predicate WithoutMerge(c: Component)
    decreases c
  {
    match c
    case Plain(_) => true
    case MaskBool(_, lines) => forall l :: l in lines ==> WithoutMerge(l.object_)
    case MaskForm(_, root) => WithoutMerge(root)
    case Options(_, _, parts) =>
      && (exists kind :: kind in CLASSES && kind != MERGE && IsOf(c, kind))
      && forall p :: p in parts ==> WithoutMerge(p.object_)
    case Guichet(_, _, inner) => WithoutMerge(inner)
  }

  lemma {:induction false} NothingUndeclared(c: Component)
    requires WithoutMerge(c)
    ensures Undeclared(c) == {}
  {
    match c
    case Plain(_) =>
    case MaskBool(_, lines) =>
      forall l | l in lines ensures Undeclared(l.object_) == {} {
        NothingUndeclared(l.object_);
      }
      NoLineUndeclared(c, lines);
    case MaskForm(_, root) => NothingUndeclared(root);
    case Options(_, _, parts) =>
      var kind :| kind in CLASSES && kind != MERGE && IsOf(c, kind);
      OneClassLeavesOut(kind);
      forall p | p in parts ensures p.declared && Undeclared(p.object_) == {} {
        NothingUndeclared(p.object_);
      }
      NoPartUndeclared(c, parts);
    case Guichet(_, _, inner) => NothingUndeclared(inner);
  }

  lemma {:induction false} NoLineUndeclared(owner: Component, lines: seq<Line>)
    requires forall l :: l in lines ==> l.object_ < owner && Undeclared(l.object_) == {}
    ensures UndeclaredByLines(owner, lines) == {}
  {
    if lines != [] {
      NoLineUndeclared(owner, lines[..|lines| - 1]);
    }
  }

  lemma {:induction false} NoPartUndeclared(owner: Component, parts: seq<Part>)
    requires forall p :: p in parts ==> p.object_ < owner && p.declared && Undeclared(p.object_) == {}
    ensures UndeclaredByParts(owner, parts) == {}
  {
    if parts != [] {
      NoPartUndeclared(owner, parts[..|parts| - 1]);
    }
  }

  /** So every component without the options of a merging declares all it mentions. */
  lemma MentionsAreDeclared(c: Component)
    requires Genuine(c) && WithoutMerge(c)
    ensures Mentions(Save(c)) <= UsingSetOf(c) && Mentions(Save(c)) <= DeclaredAfter(c)
  {
    MentionsAreDeclaredIff(c);
    NothingUndeclared(c);
  }

  /** Where the compression parameters are among the parts of a merging. */
  const COMPRESSION: nat := 8

  /** The options of a merging whose other parts declare what they write. */
  ghost predicate Merging(c: Component) {
    && c.Options? && IsOf(c, MERGE) && c.parts[COMPRESSION].selected
    && c.parts[COMPRESSION].object_.Guichet? && c.parts[COMPRESSION].object_.categ == Compress
    && c.parts[COMPRESSION].object_.inner.Plain?
    && forall i :: 0 <= i < |c.parts| && i != COMPRESSION ==> WithoutMerge(c.parts[i].object_)
  }

  /** They leave out what their compression parameters write, and nothing else. */
  lemma MergeLeavesOut(c: Component)
    requires Merging(c)
    ensures Undeclared(c) == Written(c.parts[COMPRESSION].object_)
  {
    forall i | 0 <= i < |c.parts| && i != COMPRESSION ensures Undeclared(c.parts[i].object_) == {} {
      NothingUndeclared(c.parts[i].object_);
    }
    OnlyOneUndeclared(c, c.parts, COMPRESSION);
  }

  lemma {:induction false} OnlyOneUndeclared(owner: Component, parts: seq<Part>, k: nat)
    requires forall p :: p in parts ==> p.object_ < owner
    requires k < |parts| && parts[k].selected && !parts[k].declared
    requires forall i :: 0 <= i < |parts| && i != k ==> parts[i].declared && Undeclared(parts[i].object_) == {}
    ensures UndeclaredByParts(owner, parts) == Written(parts[k].object_)
  {
    var n := |parts| - 1;
    if k < n {
      OnlyOneUndeclared(owner, parts[..n], k);
    } else {
      NoPartUndeclared(owner, parts[..n]);
    }
  }

  /** The options of a merging declare all they mention if and only if their compression parameters
      are set up by hand, or another of their parts declares the configuration these follow. */
  lemma MergeDeclaresIff(c: Component)
    requires Genuine(c) && Merging(c)
    ensures Mentions(Save(c)) <= UsingSetOf(c) <==>
      match c.parts[COMPRESSION].object_.choice
      case None => true
      case Some(name) => Coordinates(Compress, name) in UsingSetOf(c)
  {
    MentionsAreDeclaredIff(c);
    MergeLeavesOut(c);
  }

  /** The options of a merging with all their other parts blank. */
  function MergeFollowing(name: string): Component {
    Options(MERGE.id, map[], seq(|MERGE.slots|, i requires 0 <= i < |MERGE.slots| =>
      var s := MERGE.slots[i];
      Part(s.key, true, s.declared, s.forgets,
           if i == COMPRESSION then Guichet(Compress, Some(name), Plain(Null)) else Plain(Null))))
  }

  /** Such options mention what their compression follows, and declare nothing. */
  lemma MergeFollowingLeavesOut(name: string)
    ensures var c := MergeFollowing(name);
      Genuine(c) && Mentions(Save(c)) == {Coordinates(Compress, name)} && UsingSetOf(c) == {}
  {
    var c := MergeFollowing(name);
    MergeKeysDiffer();
    SavedMentions(c);
    BlankParts(c, c.parts, name);
  }

  lemma {:induction false} BlankParts(owner: Component, parts: seq<Part>, name: string)
    requires forall p :: p in parts ==> p.object_ < owner && p.selected
    requires forall i :: 0 <= i < |parts| ==>
      if i == COMPRESSION then !parts[i].declared && parts[i].object_ == Guichet(Compress, Some(name), Plain(Null))
      else parts[i].object_ == Plain(Null)
    ensures UsingSetOfParts(owner, parts) == {}
    ensures WrittenByParts(owner, parts) == if |parts| > COMPRESSION then {Coordinates(Compress, name)} else {}
  {
    if parts != [] {
      BlankParts(owner, parts[..|parts| - 1], name);
    }
  }

  lemma MergeKeysDiffer()
    ensures forall i :: 0 <= i < |MERGE.slots| ==> MERGE.slots[i].key != MODE_LABEL
    ensures forall i, j :: 0 <= i < j < |MERGE.slots| ==> MERGE.slots[i].key != MERGE.slots[j].key
  {
  }
}
