/** Which configurations components declare, told by the guichets that can be reached in them. */
module UsingSets {
  import opened Json
  import opened ConfigTable
  import opened Components

  /** The component that a path leads to, going through what each class collects. */
  function Collected(c: Component, path: seq<nat>): Option<Component>
    decreases |path|
  {
    if path == [] then Some(c)
    else
      match c
      case Plain(_) => None
      case MaskBool(_, lines) => if path[0] < |lines| then Collected(lines[path[0]].object_, path[1..]) else None
      case MaskForm(_, root) => if path[0] == 0 then Collected(root, path[1..]) else None
      case Options(_, _, parts) =>
        if path[0] < |parts| && parts[path[0]].declared then Collected(parts[path[0]].object_, path[1..]) else None
      case Guichet(_, _, inner) => if path[0] == 0 then Collected(inner, path[1..]) else None
  }

  /** The path leads to a guichet that follows d. */
  ghost predicate Reaches(c: Component, path: seq<nat>, d: Coordinates) {
    match Collected(c, path)
    case Some(Guichet(categ, choice, _)) => categ == d.cat && choice == Some(d.confname)
    case _ => false
  }

  ghost predicate Reached(c: Component, d: Coordinates) {
    exists path :: Reaches(c, path, d)
  }

  lemma {:induction false} LinesDeclare(owner: Component, lines: seq<Line>, d: Coordinates)
    requires forall l :: l in lines ==> l.object_ < owner
    ensures d in UsingSetOfLines(owner, lines) <==>
      exists i :: 0 <= i < |lines| && d in UsingSetOf(lines[i].object_)
    decreases |lines|
  {
    if lines != [] {
      LinesDeclare(owner, lines[..|lines| - 1], d);
      assert lines == lines[..|lines| - 1] + [Last(lines)];
    }
  }

  lemma {:induction false} PartsDeclare(owner: Component, parts: seq<Part>, d: Coordinates)
    requires forall p :: p in parts ==> p.object_ < owner
    ensures d in UsingSetOfParts(owner, parts) <==>
      exists i :: 0 <= i < |parts| && parts[i].declared && d in UsingSetOf(parts[i].object_)
    decreases |parts|
  {
    if parts != [] {
      PartsDeclare(owner, parts[..|parts| - 1], d);
      assert parts == parts[..|parts| - 1] + [Last(parts)];
    }
  }

  /** A first step, then a path on from there. */
  lemma StepOn(c: Component, k: nat, inner: Component, path: seq<nat>, d: Coordinates)
    requires Collected(c, [k]) == Some(inner)
    ensures Reaches(c, [k] + path, d) <==> Reaches(inner, path, d)
  {
    assert ([k] + path)[1..] == path && [k][1..] == [];
  }

  lemma ReachedFrom(c: Component, k: nat, inner: Component, d: Coordinates)
    requires Collected(c, [k]) == Some(inner) && Reached(inner, d)
    ensures Reached(c, d)
  {
    var path :| Reaches(inner, path, d);
    StepOn(c, k, inner, path, d);
  }

  lemma ReachedBy(c: Component, d: Coordinates) returns (k: nat, inner: Component)
    requires Reached(c, d) && !Reaches(c, [], d)
    ensures Collected(c, [k]) == Some(inner) && Reached(inner, d)
  {
    var path :| Reaches(c, path, d);
    k := path[0];
    assert path == [k] + path[1..] && [k][1..] == [];
    assert Collected(c, [k]).Some?;
    inner := Collected(c, [k]).value;
    StepOn(c, k, inner, path[1..], d);
  }

  /** A component declares a configuration if and only if a guichet that follows it can be reached in it,
      whether or not what holds that guichet is selected or itself follows another. */
  lemma {:induction false} UsingSetIff(c: Component, d: Coordinates)
    ensures d in UsingSetOf(c) <==> Reached(c, d)
    decreases c
  {
    var direct := c.Guichet? && c.categ == d.cat && c.choice == Some(d.confname);
    assert Reaches(c, [], d) <==> direct;
    if d in UsingSetOf(c) && !direct {
      var k, inner := Declaring(c, d);
      UsingSetIff(inner, d);
      ReachedFrom(c, k, inner, d);
    }
    if Reached(c, d) && !direct {
      var k, inner := ReachedBy(c, d);
      Below(c, k, inner);
      UsingSetIff(inner, d);
      DeclaredFrom(c, k, inner, d);
    }
  }

  lemma Below(c: Component, k: nat, inner: Component)
    requires Collected(c, [k]) == Some(inner)
    ensures inner < c
  {
    assert [k][1..] == [];
  }

  lemma Declaring(c: Component, d: Coordinates) returns (k: nat, inner: Component)
    requires d in UsingSetOf(c) && !(c.Guichet? && c.categ == d.cat && c.choice == Some(d.confname))
    ensures inner < c && Collected(c, [k]) == Some(inner) && d in UsingSetOf(inner)
  {
    k := 0;
    match c {
      case MaskBool(_, lines) =>
        LinesDeclare(c, lines, d);
        k :| k < |lines| && d in UsingSetOf(lines[k].object_);
        inner := lines[k].object_;
      case MaskForm(_, root) => inner := root;
      case Options(_, _, parts) =>
        PartsDeclare(c, parts, d);
        k :| k < |parts| && parts[k].declared && d in UsingSetOf(parts[k].object_);
        inner := parts[k].object_;
      case Guichet(_, _, i) => inner := i;
    }
    assert [k][1..] == [];
  }

  lemma DeclaredFrom(c: Component, k: nat, inner: Component, d: Coordinates)
    requires Collected(c, [k]) == Some(inner) && d in UsingSetOf(inner)
    ensures d in UsingSetOf(c)
  {
    assert [k][1..] == [];
    match c
    case MaskBool(_, lines) => LinesDeclare(c, lines, d);
    case Options(_, _, parts) => PartsDeclare(c, parts, d);
    case _ =>
  }

  // ------------------------------------------------------------------ what saving changes

  /** The component once it has been saved: an alternative that is not selected may be cleared, whatever it
      was. What is not saved, as what is under a guichet that follows a configuration, stays as it is. */
  function OnceSaved(c: Component): Component
    decreases c, 2
  {
    match c
    case Plain(_) => c
    case MaskBool(logic, lines) => MaskBool(logic, LinesOnceSaved(c, lines))
    case MaskForm(id, root) => MaskForm(id, OnceSaved(root))
    case Options(id, settings, parts) => Options(id, settings, PartsOnceSaved(c, parts))
    case Guichet(categ, choice, inner) => Guichet(categ, choice, if choice == None then OnceSaved(inner) else inner)
  }

  function LinesOnceSaved(owner: Component, lines: seq<Line>): (r: seq<Line>)
    requires forall l :: l in lines ==> l.object_ < owner
    ensures |r| == |lines| && forall i :: 0 <= i < |r| ==> r[i] == lines[i].(object_ := OnceSaved(lines[i].object_))
    decreases owner, 0
  {
    seq(|lines|, i requires 0 <= i < |lines| => lines[i].(object_ := OnceSaved(lines[i].object_)))
  }

  function PartOnceSaved(owner: Component, part: Part): Part
    requires part.object_ < owner
    decreases owner, 0
  {
    if part.selected then part.(object_ := OnceSaved(part.object_))
    else if part.forgets then part.(object_ := Plain(Null))
    else part
  }

  function PartsOnceSaved(owner: Component, parts: seq<Part>): (r: seq<Part>)
    requires forall p :: p in parts ==> p.object_ < owner
    ensures |r| == |parts| && forall i :: 0 <= i < |r| ==>
      parts[i].object_ < owner && r[i] == PartOnceSaved(owner, parts[i])
    decreases owner, 1
  {
    seq(|parts|, i requires 0 <= i < |parts| => PartOnceSaved(owner, parts[i]))
  }

  lemma {:induction false} LinesOnceSavedDeclare(owner: Component, lines: seq<Line>, owner': Component,
                                                 lines': seq<Line>)
    requires (forall l :: l in lines ==> l.object_ < owner) && (forall l :: l in lines' ==> l.object_ < owner')
    requires |lines| == |lines'|
    requires forall i :: 0 <= i < |lines| ==> DeclaredAfter(lines[i].object_) == UsingSetOf(lines'[i].object_)
    ensures DeclaredAfterLines(owner, lines) == UsingSetOfLines(owner', lines')
    decreases |lines|
  {
    if lines != [] {
      var n := |lines| - 1;
      LinesOnceSavedDeclare(owner, lines[..n], owner', lines'[..n]);
    }
  }

  /** The part declares afterwards just what it declares once saved. */
  ghost predicate DeclaresSame(part: Part, part': Part) {
    && part'.declared == part.declared
    && UsingSetOf(part'.object_) ==
       if part.selected then DeclaredAfter(part.object_) else if part.forgets then {} else UsingSetOf(part.object_)
  }

  lemma {:induction false} PartsOnceSavedDeclare(owner: Component, parts: seq<Part>, owner': Component,
                                                 parts': seq<Part>)
    requires (forall p :: p in parts ==> p.object_ < owner) && (forall p :: p in parts' ==> p.object_ < owner')
    requires |parts| == |parts'| && forall i :: 0 <= i < |parts| ==> DeclaresSame(parts[i], parts'[i])
    ensures DeclaredAfterParts(owner, parts) == UsingSetOfParts(owner', parts')
    decreases |parts|
  {
    if parts != [] {
      var n := |parts| - 1;
      PartsOnceSavedDeclare(owner, parts[..n], owner', parts'[..n]);
      assert DeclaresSame(parts[n], parts'[n]);
    }
  }

  /** What is declared after saving is what the component declares then. */
  lemma {:induction false} DeclaredOnceSaved(c: Component)
    ensures DeclaredAfter(c) == UsingSetOf(OnceSaved(c))
    decreases c
  {
    match c
    case Plain(_) =>
    case MaskBool(logic, lines) =>
      forall l | l in lines ensures DeclaredAfter(l.object_) == UsingSetOf(OnceSaved(l.object_)) {
        DeclaredOnceSaved(l.object_);
      }
      LinesOnceSavedDeclare(c, lines, OnceSaved(c), LinesOnceSaved(c, lines));
    case MaskForm(_, root) => DeclaredOnceSaved(root);
    case Options(_, _, parts) =>
      forall i | 0 <= i < |parts| ensures DeclaresSame(parts[i], PartsOnceSaved(c, parts)[i]) {
        DeclaredOnceSaved(parts[i].object_);
      }
      PartsOnceSavedDeclare(c, parts, OnceSaved(c), PartsOnceSaved(c, parts));
    case Guichet(_, choice, inner) => if choice == None { DeclaredOnceSaved(inner); }
  }

  lemma {:induction false} LinesSavedAgain(owner: Component, lines: seq<Line>, owner': Component, lines': seq<Line>)
    requires (forall l :: l in lines ==> l.object_ < owner) && (forall l :: l in lines' ==> l.object_ < owner')
    requires |lines| == |lines'| && forall i :: 0 <= i < |lines| ==>
      lines'[i] == lines[i].(object_ := lines'[i].object_) && Save(lines'[i].object_) == Save(lines[i].object_)
    ensures SaveLines(owner', lines') == SaveLines(owner, lines)
    decreases |lines|
  {
    if lines != [] {
      var n := |lines| - 1;
      LinesSavedAgain(owner, lines[..n], owner', lines'[..n]);
    }
  }

  lemma {:induction false} PartsSavedAgain(owner: Component, settings: map<string, Value>, parts: seq<Part>,
                                           owner': Component, parts': seq<Part>)
    requires (forall p :: p in parts ==> p.object_ < owner) && (forall p :: p in parts' ==> p.object_ < owner')
    requires |parts| == |parts'| && forall i :: 0 <= i < |parts| ==>
      && parts'[i] == parts[i].(object_ := parts'[i].object_)
      && (parts[i].selected ==> Save(parts'[i].object_) == Save(parts[i].object_))
    ensures SaveParts(owner', settings, parts') == SaveParts(owner, settings, parts)
    decreases |parts|
  {
    if parts != [] {
      var n := |parts| - 1;
      PartsSavedAgain(owner, settings, parts[..n], owner', parts'[..n]);
    }
  }

  /** Nothing that is saved is lost by saving: saved again it gives the same document. */
  lemma {:induction false} SavedAgain(c: Component)
    ensures Save(OnceSaved(c)) == Save(c)
    decreases c
  {
    match c
    case Plain(_) =>
    case MaskBool(logic, lines) =>
      forall l | l in lines ensures Save(OnceSaved(l.object_)) == Save(l.object_) {
        SavedAgain(l.object_);
      }
      LinesSavedAgain(c, lines, OnceSaved(c), LinesOnceSaved(c, lines));
    case MaskForm(_, root) => SavedAgain(root);
    case Options(_, settings, parts) =>
      forall i | 0 <= i < |parts| && parts[i].selected
        ensures Save(OnceSaved(parts[i].object_)) == Save(parts[i].object_) {
        SavedAgain(parts[i].object_);
      }
      PartsSavedAgain(c, settings, parts, OnceSaved(c), PartsOnceSaved(c, parts));
    case Guichet(_, choice, inner) => if choice == None { SavedAgain(inner); }
  }
}
