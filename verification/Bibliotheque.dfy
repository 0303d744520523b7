/** The configuration store: named JSON configurations split by category, the dependencies
    between them, and the locks that user interface objects hold on them. */
module ConfigStore {
  import opened Json
  import opened ConfigTable
  import opened StoreJson

  /** The address of a user interface object that locks a configuration. */
  type Owner = nat

  type LockMap = map<Coordinates, set<Owner>>

  datatype State = State(content: Table, outside: LockMap, saved: bool, autosave: bool)

  /** How a call ends: normally, or by an exception shown to the user, or by an internal error. */
  datatype Outcome = Done | Refused | Bug

  // ------------------------------------------------------------------ what each call does

  /** The state after a call, and whether the call returned normally. */
  type Effect = (State, bool)

  function Stored(t: Table, c: Coordinates, l: LinkedConfig): Table
    requires c.cat in t
  {
    t[c.cat := t[c.cat][c.confname := l]]
  }

  function Removed(t: Table, c: Coordinates): Table
    requires c.cat in t
  {
    t[c.cat := t[c.cat] - {c.confname}]
  }

  ghost predicate AllStored(t: Table, refs: UsingSet) {
    forall c :: c in refs ==> Has(t, c)
  }

  ghost function AfterAdd(s: State, c: Coordinates, config: Value, refs: UsingSet): Effect {
    if c.cat !in s.content || Has(s.content, c) then (s, false)
    else
      var linked := WithUser(s.content, c, refs);
      if AllStored(s.content, refs) && !FindsCycle(linked, c, {}) then
        (s.(content := Stored(linked, c, LinkedConfig(config, {})), saved := false), true)
      else (s.(content := WithoutUser(s.content, c)), false)
  }

  ghost function AfterUpdate(s: State, c: Coordinates, config: Value, refs: UsingSet): Effect {
    if !Has(s.content, c) then (s, false)
    else
      var unlinked := WithoutUser(s.content, c);
      var linked := WithUser(unlinked, c, refs);
      if AllStored(s.content, refs) && !FindsCycle(linked, c, {}) then
        (s.(content := Stored(linked, c, Entry(linked, c).(config := config)), saved := false), true)
      else (s.(content := unlinked), false)
  }

  ghost function AfterDelete(s: State, c: Coordinates): Effect {
    if !Has(s.content, c) || Entry(s.content, c).dependency != {} || c in s.outside then (s, false)
    else (s.(content := Removed(WithoutUser(s.content, c), c), saved := false), true)
  }

  function Locked(outside: LockMap, c: Coordinates, o: Owner): bool {
    c in outside && o in outside[c]
  }

  function AfterLock(s: State, c: Coordinates, o: Owner): Effect {
    if !Has(s.content, c) || Locked(s.outside, c, o) then (s, false)
    else (s.(outside := s.outside[c := (if c in s.outside then s.outside[c] else {}) + {o}]), true)
  }

  function AfterUnlock(s: State, c: Coordinates, o: Owner): Effect {
    if !Locked(s.outside, c, o) then (s, false)
    else if s.outside[c] == {o} then (s.(outside := s.outside - {c}), true)
    else (s.(outside := s.outside[c := s.outside[c] - {o}]), true)
  }

  function EmptyTable(): Table {
    Filled(map[])
  }

  function AfterClear(s: State): State {
    s.(content := EmptyTable(), saved := true, autosave := true)
  }

  const INITIAL: State := State(EmptyTable(), map[], true, true)

  datatype LoadStep = LoadStep(state: State, ok: bool, fired: set<Category>)

  /** Loading forgets the table as soon as the header could be read, announces the categories
      that received something, then complains if some were missing. */
  function AfterLoad(s: State, doc: Value): LoadStep {
    match Unwrap(doc)
    case None => LoadStep(s, false, {})
    case Some(Header(version, id, config)) =>
      var emptied := s.(content := map[], saved := true);
      if id != CLASS_ID || version > FORMAT_VERSION then LoadStep(emptied, false, {})
      else
        (match (At(config, GLOBALPROP_LABEL), At(config, CATEGPROP_LABEL))
         case (Some(global), Some(categories)) =>
           (match BoolAt(global, AUTOSAVE_LABEL)
            case None => LoadStep(emptied, false, {})
            case Some(auto) =>
              var s' := emptied.(autosave := auto);
              if !categories.Arr? then LoadStep(s', false, {})
              else
                var l := LoadTable(categories.items);
                if !l.ok then LoadStep(s'.(content := l.content), false, {})
                else LoadStep(s'.(content := Filled(l.content)), Complete(l.content), l.fired))
         case _ => LoadStep(emptied, false, {}))
  }

  // ------------------------------------------------------------------ the store itself

  class Bibliotheque {
    var content: Table
    var outside: LockMap
    var saved: bool
    var autosave: bool

    ghost function View(): State
      reads this
    {
      State(content, outside, saved, autosave)
    }

    constructor ()
      ensures View() == INITIAL
    {
      content := EmptyTable();
      outside := map[];
      saved := true;
      autosave := true;
    }

    /** Records user at each of refs; stops at the first that is not stored. */
    method AddDependencyFor(user: Coordinates, refs: UsingSet) returns (r: Outcome, ghost reached: UsingSet)
      modifies this`content
      ensures r.Done? <==> AllStored(old(content), refs)
      ensures Complete(old(content)) ==> !r.Bug?
      ensures content == WithUser(old(content), user, reached)
      ensures r.Done? ==> reached == refs
    {
      reached := {};
      var todo := refs;
      WithNobody(content, user);
      while todo != {}
        invariant reached <= refs && todo == refs - reached
        invariant AllStored(old(content), reached)
        invariant content == WithUser(old(content), user, reached)
        decreases todo
      {
        var c :| c in todo;
        todo := todo - {c};
        if c.cat !in content {
          return Bug, reached;
        }
        if c.confname !in content[c.cat] {
          return Refused, reached;
        }
        RecordOne(old(content), user, reached, c);
        var l := Entry(content, c);
        content := Stored(content, c, l.(dependency := l.dependency + {user}));
        reached := reached + {c};
      }
      r := Done;
    }

    /** Takes user out of every set of users. */
    method RemoveDependencyIn(cat: Category, user: Coordinates)
      requires cat in content
      modifies this`content
      ensures content == old(content)[cat := AssoWithoutUser(old(content)[cat], user)]
    {
      var names := content[cat].Keys;
      ghost var asso := content[cat];
      while names != {}
        invariant cat in content && content == old(content)[cat := content[cat]]
        invariant names <= asso.Keys && content[cat].Keys == asso.Keys
        invariant forall name :: name in asso ==>
          content[cat][name] == if name in names then asso[name] else AssoWithoutUser(asso, user)[name]
        decreases names
      {
        var name :| name in names;
        var l := content[cat][name];
        content := Stored(content, Coordinates(cat, name), l.(dependency := l.dependency - {user}));
        names := names - {name};
      }
      assert content[cat] == AssoWithoutUser(asso, user);
    }

    method RemoveDependencyFor(user: Coordinates)
      modifies this`content
      ensures content == WithoutUser(old(content), user)
    {
      var cats := content.Keys;
      while cats != {}
        invariant cats <= old(content).Keys && content.Keys == old(content).Keys
        invariant forall cat :: cat in content ==>
          content[cat] == if cat in cats then old(content)[cat] else AssoWithoutUser(old(content)[cat], user)
        decreases cats
      {
        var cat :| cat in cats;
        RemoveDependencyIn(cat, user);
        cats := cats - {cat};
      }
    }

    method GetDirectDependenciesOf(user: Coordinates) returns (r: UsingSet)
      ensures r == DirectDependencies(content, user)
    {
      r := {};
      var cats := content.Keys;
      while cats != {}
        invariant cats <= content.Keys
        invariant forall c :: c in r <==> Uses(content, user, c) && c.cat !in cats
        decreases cats
      {
        var cat :| cat in cats;
        var names := content[cat].Keys;
        while names != {}
          invariant names <= content[cat].Keys
          invariant forall c :: c in r <==>
            Uses(content, user, c) && (c.cat !in cats || (c.cat == cat && c.confname !in names))
          decreases names
        {
          var name :| name in names;
          if user in content[cat][name].dependency {
            r := r + {Coordinates(cat, name)};
          }
          names := names - {name};
        }
        cats := cats - {cat};
      }
    }

    /** Follows the dependencies down from source; fails on meeting one of seen, to which each
        step adds itself. It ends because only stored configurations are stepped on. */
    method CheckAgainstCyclicDependencies(source: Coordinates, seen: UsingSet) returns (r: Outcome)
      ensures r.Refused? <==> FindsCycle(content, source, seen)
      ensures !r.Bug?
      decreases Known(content) + {source} - seen
    {
      var next := seen;
      var children := GetDirectDependenciesOf(source);
      if source in seen {
        SeenIsBad(content, source, seen);
        return Refused;
      }
      next := next + {source};
      var todo := children;
      while todo != {}
        invariant todo <= children
        invariant forall child :: child in children && child !in todo ==> !FindsCycle(content, child, next)
        decreases todo
      {
        var child :| child in todo;
        assert Known(content) + {child} - next < Known(content) + {source} - seen by {
          assert source !in Known(content) + {child} - next;
          assert source in Known(content) + {source} - seen;
        }
        var below := CheckAgainstCyclicDependencies(child, next);
        if below.Refused? {
          BadChild(content, source, child, seen);
          return Refused;
        }
        todo := todo - {child};
      }
      NoBadChild(content, source, seen);
      r := Done;
    }

    method AddConfig(c: Coordinates, config: Value, refs: UsingSet) returns (r: Outcome)
      modifies this
      ensures (View(), r.Done?) == AfterAdd(old(View()), c, config, refs)
      ensures Complete(old(content)) ==> !r.Bug?
    {
      if c.cat !in content {
        return Bug;
      }
      if c.confname in content[c.cat] {
        return Refused;
      }
      ghost var reached;
      r, reached := AddDependencyFor(c, refs);
      if r.Done? {
        r := CheckAgainstCyclicDependencies(c, {});
      }
      if !r.Done? {
        WithoutWithUser(old(content), c, reached);
        RemoveDependencyFor(c);
        return;
      }
      content := Stored(content, c, LinkedConfig(config, {}));
      saved := false;
    }

    method UpdateConfig(c: Coordinates, config: Value, refs: UsingSet) returns (r: Outcome)
      modifies this
      ensures (View(), r.Done?) == AfterUpdate(old(View()), c, config, refs)
      ensures Complete(old(content)) ==> !r.Bug?
    {
      if c.cat !in content {
        return Bug;
      }
      if c.confname !in content[c.cat] {
        return Refused;
      }
      RemoveDependencyFor(c);
      ghost var unlinked := content;
      WithoutUserEdges(old(content), c);
      ghost var reached;
      r, reached := AddDependencyFor(c, refs);
      if r.Done? {
        r := CheckAgainstCyclicDependencies(c, {});
      }
      if !r.Done? {
        WithoutWithUser(unlinked, c, reached);
        WithoutStranger(unlinked, c);
        RemoveDependencyFor(c);
        return;
      }
      content := Stored(content, c, Entry(content, c).(config := config));
      saved := false;
    }

    method DeleteConfig(c: Coordinates) returns (r: Outcome)
      modifies this
      ensures (View(), r.Done?) == AfterDelete(old(View()), c)
      ensures Complete(old(content)) ==> !r.Bug?
    {
      if c.cat !in content {
        return Bug;
      }
      if c.confname !in content[c.cat] || Entry(content, c).dependency != {} || c in outside {
        return Refused;
      }
      RemoveDependencyFor(c);
      content := Removed(content, c);
      saved := false;
      r := Done;
    }

    method AddExternalRefTo(c: Coordinates, o: Owner) returns (r: Outcome)
      modifies this`outside
      ensures (View(), r.Done?) == AfterLock(old(View()), c, o)
      ensures !r.Refused?
    {
      if c.cat !in content || c.confname !in content[c.cat] {
        return Bug;
      }
      if c in outside {
        if o in outside[c] {
          return Bug;
        }
        outside := outside[c := outside[c] + {o}];
      } else {
        assert {} + {o} == {o};
        outside := outside[c := {o}];
      }
      r := Done;
    }

    method DeleteExternalRefTo(c: Coordinates, o: Owner) returns (r: Outcome)
      modifies this`outside
      ensures (View(), r.Done?) == AfterUnlock(old(View()), c, o)
      ensures !r.Refused?
    {
      if c !in outside || o !in outside[c] {
        return Bug;
      }
      var left := outside[c] - {o};
      assert left == {} <==> outside[c] == {o} by { assert outside[c] == left + {o}; }
      outside := outside[c := left];
      if left == {} {
        assert outside - {c} == old(outside) - {c};
        outside := outside - {c};
      }
      r := Done;
    }

    /** An internal error if the category is missing, as it may be after a load that failed. */
    method HasConfig(c: Coordinates) returns (r: Outcome, yes: bool)
      ensures r == if c.cat in content then Done else Bug
      ensures yes == Has(content, c)
    {
      if c.cat !in content {
        return Bug, false;
      }
      r, yes := Done, c.confname in content[c.cat];
    }

    method FetchConfig(c: Coordinates) returns (r: Outcome, config: Value)
      ensures r == if c.cat !in content then Bug else if !Has(content, c) then Refused else Done
      ensures r.Done? ==> config == Entry(content, c).config
    {
      var yes;
      r, yes := HasConfig(c);
      config := Null;
      if r.Done? {
        if !yes {
          return Refused, Null;
        }
        config := content[c.cat][c.confname].config;
      }
    }

    /** The names of a category, each once. */
    method Listing(cat: Category) returns (r: Outcome, names: seq<string>)
      ensures r == if cat in content then Done else Bug
      ensures r.Done? ==> Enumerates(names, content[cat].Keys)
    {
      names := [];
      if cat !in content {
        return Bug, [];
      }
      var todo := content[cat].Keys;
      while todo != {}
        invariant Enumerates(names, content[cat].Keys - todo) && todo <= content[cat].Keys
        decreases todo
      {
        var name :| name in todo;
        names := names + [name];
        todo := todo - {name};
      }
      r := Done;
    }

    method Clear()
      modifies this
      ensures View() == AfterClear(old(View()))
    {
      content := EmptyTable();
      saved := true;
      autosave := true;
    }

    /** The list of the users of a configuration; a list already used for another one is
        emptied first, which leaves a null only where nothing was ever listed. */
    static method SaveUsers(used: Value, users: UsingSet) returns (usedBy: Value, ghost order: seq<Coordinates>)
      requires IsList(used)
      ensures WritesUsers(usedBy, users, order)
    {
      usedBy, order := Cleared(used), [];
      var todo := users;
      while todo != {}
        invariant todo <= users && WritesUsers(usedBy, users - todo, order)
        decreases todo
      {
        var c :| c in todo;
        usedBy := PushBack(usedBy, CoordinatesJson(c));
        order := order + [c];
        todo := todo - {c};
      }
    }

    static method SaveAsso(used: Value, a: Asso) returns (list: Value, ghost order: seq<string>)
      requires IsList(used)
      ensures WritesAsso(list, a, order)
    {
      list, order := Cleared(used), [];
      var usedBy := Null;
      var todo := a.Keys;
      while todo != {}
        invariant todo <= a.Keys && IsList(usedBy) && IsList(list)
        invariant Enumerates(order, a.Keys - todo) && |Elements(list)| == |order|
        invariant forall i :: 0 <= i < |order| ==>
          order[i] in a && WritesConfig(Elements(list)[i], order[i], a[order[i]])
        decreases todo
      {
        var name :| name in todo;
        ghost var users;
        usedBy, users := SaveUsers(usedBy, a[name].dependency);
        var item := Obj(map[NAME_LABEL := Str(name), DEF_LABEL := a[name].config, DEPEND_LABEL := usedBy]);
        assert WritesConfig(item, name, a[name]);
        list := PushBack(list, item);
        order := order + [name];
        todo := todo - {name};
      }
    }

    method SaveJson() returns (doc: Value)
      modifies this`saved
      ensures Writes(doc, content, autosave)
      ensures saved
    {
      var categories, list := Null, Null;
      ghost var order := [];
      var todo := content.Keys;
      while todo != {}
        invariant todo <= content.Keys && IsList(categories) && IsList(list)
        invariant Enumerates(order, content.Keys - todo) && |Elements(categories)| == |order|
        invariant forall i :: 0 <= i < |order| ==>
            order[i] in content && WritesCategory(Elements(categories)[i], order[i], content[order[i]])
        decreases todo
      {
        var cat :| cat in todo;
        ghost var names;
        list, names := SaveAsso(list, content[cat]);
        var item := Obj(map[CATEGORY_LABEL := Str(CategoryToString(cat)), ASSO_LABEL := list]);
        assert WritesCategory(item, cat, content[cat]);
        categories := PushBack(categories, item);
        order := order + [cat];
        todo := todo - {cat};
      }
      assert WritesTable(categories, content, order);
      doc := Document(categories, autosave);
      saved := true;
    }

    static method LoadUsers(items: seq<Value>) returns (r: Option<UsingSet>)
      ensures r == ParseUsers(items)
    {
      var users := {};
      ghost var read: seq<Coordinates> := [];
      for i := 0 to |items|
        invariant UsersAs(items, read, i) && users == set c | c in read
      {
        var user := ParseCoordinates(items[i]);
        if user.None? {
          return None;
        }
        MoreUsers(items, read, i, user.value);
        users := users + {user.value};
        read := read + [user.value];
      }
      ListReadBack(items, ParseCoordinates, read);
      r := Some(users);
    }

    static method LoadConfig(item: Value) returns (r: Option<Named>)
      ensures r == ParseConfig(item)
    {
      var name, config, usedBy := StringAt(item, NAME_LABEL), At(item, DEF_LABEL), At(item, DEPEND_LABEL);
      if name.None? || config.None? || usedBy.None? || !config.value.Obj? || !IsList(usedBy.value) {
        return None;
      }
      var users := LoadUsers(Elements(usedBy.value));
      r := if users.None? then None else Some((name.value, LinkedConfig(config.value, users.value)));
    }

    static method LoadAsso(items: seq<Value>) returns (r: Option<Asso>)
      ensures r == match ParseList(items, ParseConfig) case Some(list) => Some(AssoOf(list)) case None => None
    {
      var a: Asso := map[];
      ghost var read: seq<Named> := [];
      for i := 0 to |items|
        invariant ReadAs(items, read, i) && a == AssoOf(read)
      {
        var named := LoadConfig(items[i]);
        if named.None? {
          return None;
        }
        ReadMore(items, read, i, named.value);
        a := a[named.value.0 := named.value.1];
        read := read + [named.value];
      }
      ListReadBack(items, ParseConfig, read);
      r := Some(a);
    }

    /** Loads one section of the document into the table. */
    method LoadOneSection(item: Value, ghost sofar: Loaded) returns (ok: bool, added: set<Category>)
      requires sofar.ok && sofar.content == content
      modifies this`content
      ensures LoadSection(sofar, ParseSection(item)) == Loaded(content, sofar.fired + added, ok)
    {
      var name, list := StringAt(item, CATEGORY_LABEL), At(item, ASSO_LABEL);
      if name.None? || list.None? || !IsList(list.value) {
        return false, {};
      }
      var a := LoadAsso(Elements(list.value));
      var cat := StringToCategory(name.value);
      if a.None? || cat.None? {
        return false, {};
      }
      content := content[cat.value := a.value];
      ok, added := true, if Elements(list.value) != [] then {cat.value} else {};
    }

    method LoadJson(doc: Value) returns (r: Outcome, fired: set<Category>)
      modifies this
      ensures LoadStep(View(), r.Done?, fired) == AfterLoad(old(View()), doc)
      ensures !r.Bug?
    {
      fired := {};
      var header := Unwrap(doc);
      if header.None? {
        return Refused, {};
      }
      content := map[];
      saved := true;
      if header.value.id != CLASS_ID || header.value.version > FORMAT_VERSION {
        return Refused, {};
      }
      var global, categories := At(header.value.config, GLOBALPROP_LABEL), At(header.value.config, CATEGPROP_LABEL);
      if global.None? || categories.None? {
        return Refused, {};
      }
      var auto := BoolAt(global.value, AUTOSAVE_LABEL);
      if auto.None? {
        return Refused, {};
      }
      autosave := auto.value;
      if !categories.value.Arr? {
        return Refused, {};
      }
      r, fired := LoadSectionsOf(categories.value.items);
      if !r.Done? {
        return Refused, {};
      }
      var complete := Complete(content);
      content := Filled(content);
      r := if complete then Done else Refused;
    }

    method LoadSectionsOf(items: seq<Value>) returns (r: Outcome, fired: set<Category>)
      requires content == map[]
      modifies this`content
      ensures Loaded(content, fired, r.Done?) == LoadTable(items)
      ensures !r.Bug?
    {
      fired := {};
      ghost var sections := seq(|items|, i requires 0 <= i < |items| => ParseSection(items[i]));
      for i := 0 to |items|
        invariant LoadSections(sections[..i]) == Loaded(content, fired, true)
      {
        assert sections[..i + 1][..i] == sections[..i] && Last(sections[..i + 1]) == ParseSection(items[i]);
        var ok, added := LoadOneSection(items[i], Loaded(content, fired, true));
        fired := fired + added;
        if !ok {
          LoadStops(sections, i + 1);
          return Refused, fired;
        }
      }
      assert sections[..|items|] == sections;
      r := Done;
    }
  }

  lemma RecordOne(t: Table, user: Coordinates, reached: UsingSet, c: Coordinates)
    requires Has(t, c) && c !in reached
    ensures var w: Table := WithUser(t, user, reached);
      && Has(w, c)
      && var l: LinkedConfig := Entry(w, c);
         WithUser(t, user, reached + {c}) == Stored(w, c, l.(dependency := l.dependency + {user}))
  {
    var w: Table := WithUser(t, user, reached);
    var a: Table := WithUser(t, user, reached + {c});
    var l: LinkedConfig := Entry(w, c);
    var b: Table := Stored(w, c, l.(dependency := l.dependency + {user}));
    forall cat | cat in t ensures a[cat] == b[cat] {
      forall name | name in t[cat] ensures a[cat][name] == b[cat][name] {
      }
    }
  }
}
