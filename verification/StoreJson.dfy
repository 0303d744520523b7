/** The JSON form of the store: what saving writes, what loading makes of any document, and
    that loading undoes saving exactly for stores whose configurations are JSON objects. */
module StoreJson {
  import opened Json
  import opened ConfigTable

  const FORMAT_VERSION: nat := 1
  const CLASS_ID := "bibliotheque"
  const CATEGORY_LABEL := "category"
  const ASSO_LABEL := "list"
  const NAME_LABEL := "name"
  const DEF_LABEL := "config"
  const DEPEND_LABEL := "used-by"
  const CATEGPROP_LABEL := "categories"
  const GLOBALPROP_LABEL := "global"
  const AUTOSAVE_LABEL := "auto-save"

  // ------------------------------------------------------------------ what saving writes

  /** s lists the elements of a set, each once, in whatever order the set is walked. */
  ghost predicate Enumerates<T(!new)>(s: seq<T>, elements: set<T>) {
    && (forall x :: x in s <==> x in elements)
    && (forall i, j :: 0 <= i < j < |s| ==> s[i] != s[j])
  }

  function CoordinatesJson(c: Coordinates): Value {
    Obj(map[CATEGORY_LABEL := Str(CategoryToString(c.cat)), NAME_LABEL := Str(c.confname)])
  }

  ghost predicate WritesUsers(j: Value, users: UsingSet, order: seq<Coordinates>) {
    && Enumerates(order, users)
    && IsList(j) && |Elements(j)| == |order|
    && (forall i :: 0 <= i < |order| ==> Elements(j)[i] == CoordinatesJson(order[i]))
  }

  ghost predicate WritesConfig(j: Value, name: string, l: LinkedConfig) {
    exists usedBy, order ::
      && WritesUsers(usedBy, l.dependency, order)
      && j == Obj(map[NAME_LABEL := Str(name), DEF_LABEL := l.config, DEPEND_LABEL := usedBy])
  }

  ghost predicate WritesAsso(j: Value, a: Asso, order: seq<string>) {
    && Enumerates(order, a.Keys)
    && IsList(j) && |Elements(j)| == |order|
    && (forall i :: 0 <= i < |order| ==> WritesConfig(Elements(j)[i], order[i], a[order[i]]))
  }

  ghost predicate WritesCategory(j: Value, cat: Category, a: Asso) {
    exists list, order ::
      && WritesAsso(list, a, order)
      && j == Obj(map[CATEGORY_LABEL := Str(CategoryToString(cat)), ASSO_LABEL := list])
  }

  ghost predicate WritesTable(j: Value, t: Table, order: seq<Category>) {
    && Enumerates(order, t.Keys)
    && IsList(j) && |Elements(j)| == |order|
    && (forall i :: 0 <= i < |order| ==> WritesCategory(Elements(j)[i], order[i], t[order[i]]))
  }

  function Document(categories: Value, autosave: bool): Value {
    Wrap(FORMAT_VERSION, CLASS_ID,
      Obj(map[CATEGPROP_LABEL := categories, GLOBALPROP_LABEL := Obj(map[AUTOSAVE_LABEL := Bool(autosave)])]))
  }

  ghost predicate Writes(j: Value, t: Table, autosave: bool) {
    exists categories, order :: WritesTable(categories, t, order) && j == Document(categories, autosave)
  }

  // ------------------------------------------------------------------ what loading makes of a document

  function ParseCoordinates(j: Value): Option<Coordinates> {
    match (StringAt(j, CATEGORY_LABEL), StringAt(j, NAME_LABEL))
    case (Some(cat), Some(name)) =>
      (match StringToCategory(cat)
       case Some(c) => Some(Coordinates(c, name))
       case None => None)
    case _ => None
  }

  /** All of a list read with f, when each of its items can be. */
  function ParseList<T(!new)>(items: seq<Value>, f: Value -> Option<T>): (r: Option<seq<T>>)
    ensures r.Some? <==> forall i :: 0 <= i < |items| ==> f(items[i]).Some?
    ensures r.Some? ==> |r.value| == |items| && forall i :: 0 <= i < |items| ==> f(items[i]) == Some(r.value[i])
  {
    if items == [] then Some([])
    else
      match (ParseList(items[..|items| - 1], f), f(items[|items| - 1]))
      case (Some(xs), Some(x)) => Some(xs + [x])
      case _ => None
  }

  function ParseUsers(items: seq<Value>): Option<UsingSet> {
    match ParseList(items, ParseCoordinates)
    case Some(cs) => Some(set c | c in cs)
    case None => None
  }

  type Named = (string, LinkedConfig)

  /** One named configuration; its definition has to be a JSON object. */
  function ParseConfig(j: Value): Option<Named> {
    match (StringAt(j, NAME_LABEL), At(j, DEF_LABEL), At(j, DEPEND_LABEL))
    case (Some(name), Some(config), Some(usedBy)) =>
      if !config.Obj? || !IsList(usedBy) then None
      else
        (match ParseUsers(Elements(usedBy))
         case Some(users) => Some((name, LinkedConfig(config, users)))
         case None => None)
    case _ => None
  }

  /** A name met twice keeps its last definition. */
  function AssoOf(list: seq<Named>): Asso {
    if list == [] then map[] else AssoOf(list[..|list| - 1])[Last(list).0 := Last(list).1]
  }

  /** The first n items are read as coordinates. */
  ghost predicate UsersAs(items: seq<Value>, read: seq<Coordinates>, n: nat) {
    |read| == n <= |items| && forall k :: 0 <= k < n ==> ParseCoordinates(items[k]) == Some(read[k])
  }

  lemma MoreUsers(items: seq<Value>, read: seq<Coordinates>, n: nat, user: Coordinates)
    requires UsersAs(items, read, n) && n < |items| && ParseCoordinates(items[n]) == Some(user)
    ensures UsersAs(items, read + [user], n + 1)
    ensures (set c | c in read + [user]) == (set c | c in read) + {user}
  {
  }

  /** The first n items are read. */
  ghost predicate ReadAs(items: seq<Value>, read: seq<Named>, n: nat) {
    |read| == n <= |items| && forall k :: 0 <= k < n ==> ParseConfig(items[k]) == Some(read[k])
  }

  lemma ReadMore(items: seq<Value>, read: seq<Named>, n: nat, named: Named)
    requires ReadAs(items, read, n) && n < |items| && ParseConfig(items[n]) == Some(named)
    ensures ReadAs(items, read + [named], n + 1)
    ensures AssoOf(read + [named]) == AssoOf(read)[named.0 := named.1]
  {
    assert (read + [named])[..n] == read;
  }

  datatype Section = Section(cat: Category, list: seq<Named>)

  function ParseSection(j: Value): Option<Section> {
    match (StringAt(j, CATEGORY_LABEL), At(j, ASSO_LABEL))
    case (Some(name), Some(list)) =>
      if !IsList(list) then None
      else
        (match (ParseList(Elements(list), ParseConfig), StringToCategory(name))
         case (Some(named), Some(cat)) => Some(Section(cat, named))
         case _ => None)
    case _ => None
  }

  /** The table read so far, the categories to announce, and whether reading went through:
      a faulty section stops the reading and what precedes it stays. */
  datatype Loaded = Loaded(content: Table, fired: set<Category>, ok: bool)

  function LoadSection(sofar: Loaded, section: Option<Section>): Loaded {
    match section
    case Some(Section(cat, list)) =>
      Loaded(sofar.content[cat := AssoOf(list)], if list != [] then sofar.fired + {cat} else sofar.fired, true)
    case None => sofar.(ok := false)
  }

  function LoadSections(sections: seq<Option<Section>>): Loaded {
    if sections == [] then Loaded(map[], {}, true)
    else
      var sofar := LoadSections(sections[..|sections| - 1]);
      if sofar.ok then LoadSection(sofar, Last(sections)) else sofar
  }

  function LoadTable(items: seq<Value>): Loaded {
    LoadSections(seq(|items|, i requires 0 <= i < |items| => ParseSection(items[i])))
  }

  ghost predicate Announced(l: Loaded) {
    forall cat: Category :: cat in l.content && l.content[cat] != map[] ==> cat in l.fired
  }

  /** Every category that received something is announced. */
  lemma {:induction false} ReceivedIsAnnounced(sections: seq<Option<Section>>)
    ensures Announced(LoadSections(sections))
  {
    if sections != [] {
      var sofar, last := LoadSections(sections[..|sections| - 1]), Last(sections);
      ReceivedIsAnnounced(sections[..|sections| - 1]);
      assert last.Some? && last.value.list == [] ==> AssoOf(last.value.list) == map[];
      assert LoadSections(sections) == if sofar.ok then LoadSection(sofar, last) else sofar;
    }
  }

  /** What follows a faulty section is not looked at. */
  lemma {:induction false} LoadStops(sections: seq<Option<Section>>, n: nat)
    requires n <= |sections| && !LoadSections(sections[..n]).ok
    ensures LoadSections(sections) == LoadSections(sections[..n])
  {
    if n < |sections| {
      var m := |sections| - 1;
      assert sections[..m][..n] == sections[..n];
      LoadStops(sections[..m], n);
    } else {
      assert sections[..n] == sections;
    }
  }

  /** The table with an empty entry for each missing category. */
  function Filled(t: Table): (r: Table)
    ensures Complete(r)
  {
    map cat: Category | true :: if cat in t then t[cat] else map[]
  }

  // ------------------------------------------------------------------ loading undoes saving

  lemma CoordinatesReadBack(c: Coordinates)
    ensures ParseCoordinates(CoordinatesJson(c)) == Some(c)
  {
    assert StringAt(CoordinatesJson(c), CATEGORY_LABEL) == Some(CategoryToString(c.cat));
    assert StringAt(CoordinatesJson(c), NAME_LABEL) == Some(c.confname);
  }

  lemma ListReadBack<T(!new)>(items: seq<Value>, f: Value -> Option<T>, xs: seq<T>)
    requires |items| == |xs| && forall i :: 0 <= i < |xs| ==> f(items[i]) == Some(xs[i])
    ensures ParseList(items, f) == Some(xs)
  {
    assert ParseList(items, f).value == xs;
  }

  lemma UsersReadBack(j: Value, users: UsingSet, order: seq<Coordinates>)
    requires WritesUsers(j, users, order)
    ensures ParseUsers(Elements(j)) == Some(users)
  {
    forall i | 0 <= i < |order| ensures ParseCoordinates(Elements(j)[i]) == Some(order[i]) {
      CoordinatesReadBack(order[i]);
    }
    ListReadBack(Elements(j), ParseCoordinates, order);
    assert (set c | c in order) == users;
  }

  /** A stored configuration is read back just when its definition is a JSON object. */
  lemma ConfigReadBack(j: Value, name: string, l: LinkedConfig)
    requires WritesConfig(j, name, l)
    ensures ParseConfig(j) == if l.config.Obj? then Some((name, l)) else None
  {
    var usedBy, order :|
      && WritesUsers(usedBy, l.dependency, order)
      && j == Obj(map[NAME_LABEL := Str(name), DEF_LABEL := l.config, DEPEND_LABEL := usedBy]);
    ConfigOfUsers(j, name, l, usedBy, order);
  }

  lemma ConfigOfUsers(j: Value, name: string, l: LinkedConfig, usedBy: Value, order: seq<Coordinates>)
    requires WritesUsers(usedBy, l.dependency, order)
    requires j == Obj(map[NAME_LABEL := Str(name), DEF_LABEL := l.config, DEPEND_LABEL := usedBy])
    ensures ParseConfig(j) == if l.config.Obj? then Some((name, l)) else None
  {
    assert ParseUsers(Elements(usedBy)) == Some(l.dependency) by {
      UsersReadBack(usedBy, l.dependency, order);
    }
    assert StringAt(j, NAME_LABEL) == Some(name) && At(j, DEF_LABEL) == Some(l.config) &&
      At(j, DEPEND_LABEL) == Some(usedBy);
  }

  predicate ObjectsOnly(a: Asso) {
    forall name :: name in a ==> a[name].config.Obj?
  }

  predicate AllObjects(t: Table) {
    forall cat :: cat in t ==> ObjectsOnly(t[cat])
  }

  function NamedList(a: Asso, order: seq<string>): seq<Named>
    requires forall name :: name in order ==> name in a
  {
    seq(|order|, i requires 0 <= i < |order| => (order[i], a[order[i]]))
  }

  lemma {:induction false} AssoOfNamed(a: Asso, order: seq<string>)
    requires forall name :: name in order ==> name in a
    ensures AssoOf(NamedList(a, order)) == map name | name in order :: a[name]
  {
    if order != [] {
      var n := |order| - 1;
      AssoOfNamed(a, order[..n]);
      assert NamedList(a, order)[..n] == NamedList(a, order[..n]);
      assert order == order[..n] + [order[n]];
    }
  }

  lemma NamedReadBack(items: seq<Value>, f: Value -> Option<Named>, a: Asso, order: seq<string>)
    requires |items| == |order| && Enumerates(order, a.Keys)
    requires forall i :: 0 <= i < |order| ==>
      f(items[i]) == if a[order[i]].config.Obj? then Some((order[i], a[order[i]])) else None
    ensures ParseList(items, f) == if ObjectsOnly(a) then Some(NamedList(a, order)) else None
  {
    if ObjectsOnly(a) {
      ListReadBack(items, f, NamedList(a, order));
    } else {
      var name :| name in a && !a[name].config.Obj?;
      var i :| 0 <= i < |order| && order[i] == name;
      assert f(items[i]) == None;
    }
  }

  lemma AssoReadBack(j: Value, a: Asso, order: seq<string>)
    requires WritesAsso(j, a, order)
    ensures ParseList(Elements(j), ParseConfig) == if ObjectsOnly(a) then Some(NamedList(a, order)) else None
  {
    forall i | 0 <= i < |order|
      ensures ParseConfig(Elements(j)[i]) == if a[order[i]].config.Obj? then Some((order[i], a[order[i]])) else None
    {
      ConfigReadBack(Elements(j)[i], order[i], a[order[i]]);
    }
    NamedReadBack(Elements(j), ParseConfig, a, order);
  }

  lemma NamedListIsAsso(a: Asso, order: seq<string>)
    requires Enumerates(order, a.Keys)
    ensures AssoOf(NamedList(a, order)) == a
    ensures NamedList(a, order) != [] <==> a != map[]
  {
    AssoOfNamed(a, order);
    assert (map name | name in order :: a[name]) == a;
    assert order != [] ==> order[0] in a;
  }

  /** What the section of a category that was written is read back as. */
  ghost predicate ReadsAs(section: Option<Section>, cat: Category, a: Asso) {
    if ObjectsOnly(a) then
      section.Some? && section.value.cat == cat && AssoOf(section.value.list) == a
      && (section.value.list != [] <==> a != map[])
    else section == None
  }

  lemma SectionReadBack(j: Value, cat: Category, a: Asso)
    requires WritesCategory(j, cat, a)
    ensures ReadsAs(ParseSection(j), cat, a)
  {
    var list, order :|
      && WritesAsso(list, a, order)
      && j == Obj(map[CATEGORY_LABEL := Str(CategoryToString(cat)), ASSO_LABEL := list]);
    SectionOfList(j, cat, a, list, order);
  }

  lemma SectionOfList(j: Value, cat: Category, a: Asso, list: Value, order: seq<string>)
    requires WritesAsso(list, a, order)
    requires j == Obj(map[CATEGORY_LABEL := Str(CategoryToString(cat)), ASSO_LABEL := list])
    ensures ReadsAs(ParseSection(j), cat, a)
  {
    assert StringAt(j, CATEGORY_LABEL) == Some(CategoryToString(cat)) && At(j, ASSO_LABEL) == Some(list) by {
      assert CATEGORY_LABEL[0] != ASSO_LABEL[0];
    }
    AssoReadBack(list, a, order);
    NamedListIsAsso(a, order);
    assert StringToCategory(CategoryToString(cat)) == Some(cat);
    SectionParsed(j, cat, list, if ObjectsOnly(a) then Some(NamedList(a, order)) else None);
  }

  lemma SectionParsed(j: Value, cat: Category, list: Value, read: Option<seq<Named>>)
    requires StringAt(j, CATEGORY_LABEL) == Some(CategoryToString(cat)) && At(j, ASSO_LABEL) == Some(list)
    requires IsList(list) && ParseList(Elements(list), ParseConfig) == read
    ensures ParseSection(j) == match read case Some(named) => Some(Section(cat, named)) case None => None
  {
  }

  lemma {:induction false} SectionsReadBack(sections: seq<Option<Section>>, t: Table, order: seq<Category>)
    requires |sections| == |order| && forall i :: 0 <= i < |order| ==>
      order[i] in t && ReadsAs(sections[i], order[i], t[order[i]])
    ensures var l := LoadSections(sections);
      && (l.ok <==> forall cat :: cat in order ==> ObjectsOnly(t[cat]))
      && (l.ok ==> l.content.Keys == (set cat | cat in order) && forall cat :: cat in order ==>
         l.content[cat] == t[cat])
      && (l.ok ==> forall cat :: cat in l.fired <==> cat in order && t[cat] != map[])
  {
    if sections != [] {
      var n := |sections| - 1;
      var sofar := LoadSections(sections[..n]);
      SectionsReadBack(sections[..n], t, order[..n]);
      assert forall cat :: cat in order <==> cat in order[..n] || cat == order[n];
      assert ReadsAs(sections[n], order[n], t[order[n]]);
      assert LoadSections(sections) == if sofar.ok then LoadSection(sofar, sections[n]) else sofar;
    }
  }

  lemma AllSectionsReadBack(sections: seq<Option<Section>>, t: Table, order: seq<Category>)
    requires |sections| == |order| && Enumerates(order, t.Keys)
    requires forall i :: 0 <= i < |order| ==> ReadsAs(sections[i], order[i], t[order[i]])
    ensures LoadSections(sections).ok <==> AllObjects(t)
    ensures AllObjects(t) ==> LoadSections(sections) == Loaded(t, set cat | cat in t && t[cat] != map[], true)
  {
    SectionsReadBack(sections, t, order);
  }

  /** Reading back what was written gives the same table, and announces the categories that
      hold something, if and only if every stored configuration is a JSON object. */
  lemma TableReadBack(j: Value, t: Table, order: seq<Category>)
    requires WritesTable(j, t, order)
    ensures LoadTable(Elements(j)).ok <==> AllObjects(t)
    ensures AllObjects(t) ==> LoadTable(Elements(j)) == Loaded(t, set cat | cat in t && t[cat] != map[], true)
  {
    var items := Elements(j);
    forall i | 0 <= i < |order| ensures ReadsAs(ParseSection(items[i]), order[i], t[order[i]]) {
      SectionReadBack(items[i], order[i], t[order[i]]);
    }
    AllSectionsReadBack(seq(|items|, i requires 0 <= i < |items| => ParseSection(items[i])), t, order);
  }
}
