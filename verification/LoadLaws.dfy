/** What loading makes of any document, and what the store remembers of being saved, over whole runs
    of calls, savings and loadings. */
module LoadLaws {
  import opened Json
  import opened ConfigTable
  import opened StoreJson
  import opened ConfigStore
  import opened StoreLaws

  // ------------------------------------------------------------------ the sections of a document

  /** The section at i can be read, and is for cat. */
  ghost predicate IsFor(sections: seq<Option<Section>>, i: int, cat: Category)
    requires 0 <= i < |sections|
  {
    sections[i].Some? && sections[i].value.cat == cat
  }

  /** The one at i is the last for cat. */
  ghost predicate LastFor(sections: seq<Option<Section>>, i: int, cat: Category) {
    0 <= i < |sections| && IsFor(sections, i, cat) && forall j :: i < j < |sections| ==> !IsFor(sections, j, cat)
  }

  ghost predicate Told(sections: seq<Option<Section>>, cat: Category) {
    exists i :: 0 <= i < |sections| && IsFor(sections, i, cat)
  }

  /** A section for cat lists something. */
  ghost predicate Filling(sections: seq<Option<Section>>, cat: Category) {
    exists i :: 0 <= i < |sections| && IsFor(sections, i, cat) && sections[i].value.list != []
  }

  ghost predicate Names(list: seq<Named>, name: string) {
    exists i :: 0 <= i < |list| && list[i].0 == name
  }

  /** The definition at i is the last that its name has. */
  ghost predicate LastNamed(list: seq<Named>, i: int) {
    0 <= i < |list| && forall j :: i < j < |list| ==> list[j].0 != list[i].0
  }

  /** Each name has the last definition that the list gives it. */
  ghost predicate Lists(a: Asso, list: seq<Named>) {
    && (forall name :: name in a <==> Names(list, name))
    && forall i {:trigger LastNamed(list, i)} :: LastNamed(list, i) ==> list[i].0 in a && a[list[i].0] == list[i].1
  }

  lemma ListsOneMore(a: Asso, first: seq<Named>, last: Named, all: seq<Named>)
    requires Lists(a, first) && all == first + [last]
    ensures Lists(a[last.0 := last.1], all)
  {
    var n := |first|;
    assert all[n] == last;
    forall i | 0 <= i < n ensures all[i] == first[i] {
    }
    forall name ensures Names(all, name) <==> Names(first, name) || name == last.0 {
    }
    forall i | LastNamed(all, i) && i < n ensures LastNamed(first, i) && all[i].0 != last.0 {
      assert all[n].0 != all[i].0;
    }
  }

  lemma {:induction false} AssoIsListed(list: seq<Named>)
    ensures Lists(AssoOf(list), list)
  {
    if list != [] {
      var n := |list| - 1;
      AssoIsListed(list[..n]);
      ListsOneMore(AssoOf(list[..n]), list[..n], list[n], list);
    }
  }

  /** What sections that can all be read leave: for each category what its last section lists, and
      announced if any of its sections lists something. */
  ghost predicate Gathers(l: Loaded, sections: seq<Option<Section>>) {
    && (forall cat :: cat in l.content <==> Told(sections, cat))
    && (forall cat, i {:trigger LastFor(sections, i, cat)} :: LastFor(sections, i, cat) ==>
          cat in l.content && Lists(l.content[cat], sections[i].value.list))
    && forall cat :: cat in l.fired <==> Filling(sections, cat)
  }

  lemma {:induction false} SectionsGather(sections: seq<Option<Section>>)
    requires forall i :: 0 <= i < |sections| ==> sections[i].Some?
    ensures LoadSections(sections).ok && Gathers(LoadSections(sections), sections)
  {
    if sections != [] {
      var n := |sections| - 1;
      SectionsGather(sections[..n]);
      GatherOneMore(LoadSections(sections[..n]), sections[..n], sections[n].value, sections);
    }
  }

  lemma OneMoreSection(first: seq<Option<Section>>, last: Section, all: seq<Option<Section>>, cat: Category)
    requires all == first + [Some(last)]
    ensures Told(all, cat) <==> Told(first, cat) || cat == last.cat
    ensures Filling(all, cat) <==> Filling(first, cat) || (cat == last.cat && last.list != [])
  {
    var n := |first|;
    assert IsFor(all, n, cat) <==> cat == last.cat;
    assert all[n].value.list == last.list;
    forall i | 0 <= i < n ensures IsFor(all, i, cat) <==> IsFor(first, i, cat) {
    }
    forall i | 0 <= i < n && IsFor(first, i, cat) ensures all[i].value.list == first[i].value.list {
    }
  }

  lemma LastOfMore(first: seq<Option<Section>>, last: Section, all: seq<Option<Section>>, i: int, cat: Category)
    requires all == first + [Some(last)] && LastFor(all, i, cat)
    ensures if cat == last.cat then i == |first| else LastFor(first, i, cat)
  {
    assert IsFor(all, |first|, cat) <==> cat == last.cat;
    if cat != last.cat {
      assert IsFor(first, i, cat);
      forall j | i < j < |first| ensures !IsFor(first, j, cat) {
        assert !IsFor(all, j, cat);
      }
    }
  }

  lemma GatherOneMore(before: Loaded, first: seq<Option<Section>>, last: Section, all: seq<Option<Section>>)
    requires Gathers(before, first) && all == first + [Some(last)]
    ensures Gathers(LoadSection(before, Some(last)), all)
  {
    var l := LoadSection(before, Some(last));
    AssoIsListed(last.list);
    forall cat ensures (cat in l.content <==> Told(all, cat)) && (cat in l.fired <==> Filling(all, cat)) {
      OneMoreSection(first, last, all, cat);
    }
    forall cat, i | LastFor(all, i, cat) ensures cat in l.content && Lists(l.content[cat], all[i].value.list) {
      LastOfMore(first, last, all, i, cat);
    }
  }

  /** What documents call the categories. */
  lemma CategoriesAreNamed()
    ensures CategoryToString(FileFilter) == "filefilter" && CategoryToString(PathFilter) == "pathfilter"
    ensures CategoryToString(Command) == "command" && CategoryToString(Repo) == "repo"
    ensures CategoryToString(Compress) == "compress" && CategoryToString(ConfSave) == "confsave"
    ensures CategoryToString(ConfTest) == "conftest" && CategoryToString(ConfDiff) == "confdiff"
    ensures CategoryToString(ConfList) == "conflist" && CategoryToString(ConfRest) == "confrest"
    ensures CategoryToString(ConfMerge) == "confmerge" && CategoryToString(ConfRepair) == "confrepair"
    ensures CategoryToString(ConfCommon) == "confcommon" && CategoryToString(Slicing) == "slicing"
    ensures CategoryToString(Ciphering) == "ciphering" && CategoryToString(DeltaSig) == "delta-sig"
    ensures CategoryToString(OverPolicy) == "over-policy" && CategoryToString(ConfRead) == "confread"
    ensures CategoryToString(ConfIsolate) == "confisolate"
  {
  }

  /** A section is read if and only if it tells one of the categories and a list of which every item can
      be read. */
  lemma SectionIs(j: Value, cat: Category, list: seq<Named>)
    ensures ParseSection(j) == Some(Section(cat, list)) <==>
      && StringAt(j, "category") == Some(CategoryToString(cat)) && At(j, "list").Some? && IsList(At(j, "list").value)
      && var items := Elements(At(j, "list").value);
         |items| == |list| && forall i :: 0 <= i < |items| ==> ParseConfig(items[i]) == Some(list[i])
  {
    if At(j, "list").Some? && IsList(At(j, "list").value) {
      var items := Elements(At(j, "list").value);
      if |items| == |list| && forall i :: 0 <= i < |items| ==> ParseConfig(items[i]) == Some(list[i]) {
        ListReadBack(items, ParseConfig, list);
      }
    }
  }

  /** An item is read if and only if it tells a name, a definition that is an object, and a list of users
      each told by its category and its name. */
  lemma ConfigIs(j: Value, name: string, l: LinkedConfig)
    ensures ParseConfig(j) == Some((name, l)) <==>
      && StringAt(j, "name") == Some(name) && At(j, "config") == Some(l.config) && l.config.Obj?
      && At(j, "used-by").Some? && IsList(At(j, "used-by").value)
      && UsersAre(Elements(At(j, "used-by").value), l.dependency)
  {
    if At(j, "used-by").Some? && IsList(At(j, "used-by").value) {
      ReadUsers(Elements(At(j, "used-by").value), l.dependency);
    }
  }

  ghost predicate UserAt(item: Value, user: Coordinates) {
    StringAt(item, "category") == Some(CategoryToString(user.cat)) && StringAt(item, "name") == Some(user.confname)
  }

  /** Every item tells a user, and no other user is told. */
  ghost predicate UsersAre(items: seq<Value>, users: UsingSet) {
    && (forall i :: 0 <= i < |items| ==> exists user :: user in users && UserAt(items[i], user))
    && forall user :: user in users ==> exists i :: 0 <= i < |items| && UserAt(items[i], user)
  }

  lemma UserIs(item: Value, user: Coordinates)
    ensures ParseCoordinates(item) == Some(user) <==> UserAt(item, user)
  {
  }

  lemma ReadUsers(items: seq<Value>, users: UsingSet)
    ensures ParseUsers(items) == Some(users) <==> UsersAre(items, users)
  {
    var all := ParseList(items, ParseCoordinates);
    if all.Some? {
      forall i | 0 <= i < |items| ensures UserAt(items[i], all.value[i]) {
        UserIs(items[i], all.value[i]);
      }
      ListedUsers(items, all.value, users);
    } else {
      var i :| 0 <= i < |items| && ParseCoordinates(items[i]).None?;
      forall user ensures !UserAt(items[i], user) {
        UserIs(items[i], user);
      }
    }
  }

  lemma ListedUsers(items: seq<Value>, read: seq<Coordinates>, users: UsingSet)
    requires |read| == |items| && forall i :: 0 <= i < |items| ==> UserAt(items[i], read[i])
    ensures (set c | c in read) == users <==> UsersAre(items, users)
  {
    forall i, user | 0 <= i < |items| ensures UserAt(items[i], user) <==> user == read[i] {
      UserIs(items[i], user);
      UserIs(items[i], read[i]);
    }
    if UsersAre(items, users) {
      forall user | user in users ensures user in read {
        var i :| 0 <= i < |items| && UserAt(items[i], user);
        assert read[i] == user;
      }
      forall i | 0 <= i < |read| ensures read[i] in users {
        assert UserAt(items[i], read[i]);
        var user :| user in users && UserAt(items[i], user);
      }
    }
    if (set c | c in read) == users {
      forall i | 0 <= i < |items| ensures exists user :: user in users && UserAt(items[i], user) {
        assert read[i] in users;
      }
      forall user | user in users ensures exists i :: 0 <= i < |items| && UserAt(items[i], user) {
        var i :| 0 <= i < |read| && read[i] == user;
        assert UserAt(items[i], user);
      }
    }
  }

  // ------------------------------------------------------------------ any document

  /** How many sections can be read before the first that cannot. */
  function ReadFirst(sections: seq<Option<Section>>): (k: nat)
    ensures k <= |sections| && (forall i :: 0 <= i < k ==> sections[i].Some?)
    ensures k < |sections| ==> sections[k].None?
  {
    if sections == [] || sections[0].None? then 0 else 1 + ReadFirst(sections[1..])
  }

  function SectionsOf(items: seq<Value>): (sections: seq<Option<Section>>)
    ensures |sections| == |items|
  {
    seq(|items|, i requires 0 <= i < |items| => ParseSection(items[i]))
  }

  lemma LoadedSections(items: seq<Value>)
    ensures var sections := SectionsOf(items); var k := ReadFirst(sections);
      (LoadTable(items).ok <==> k == |items|) && Gathers(LoadTable(items), sections[..k])
  {
    var sections := SectionsOf(items);
    assert LoadTable(items) == LoadSections(sections);
    ReadUpTo(sections, ReadFirst(sections));
    SectionsGather(sections[..ReadFirst(sections)]);
  }

  /** What precedes a section that cannot be read is kept. */
  lemma ReadUpTo(sections: seq<Option<Section>>, k: nat)
    requires k <= |sections| && (forall i :: 0 <= i < k ==> sections[i].Some?) && (k < |sections| ==> sections[k].None?)
    ensures LoadSections(sections) == LoadSections(sections[..k]).(ok := k == |sections|)
  {
    SectionsGather(sections[..k]);
    if k < |sections| {
      StopsThere(sections, sections[..k + 1], k);
    } else {
      assert sections[..k] == sections;
    }
  }

  lemma StopsThere(sections: seq<Option<Section>>, first: seq<Option<Section>>, k: nat)
    requires k < |sections| && first == sections[..k + 1] && sections[k].None? && LoadSections(sections[..k]).ok
    ensures LoadSections(sections) == LoadSections(sections[..k]).(ok := false)
  {
    assert first[..k] == sections[..k] && Last(first) == None;
    assert LoadSections(first) == LoadSections(sections[..k]).(ok := false);
    LoadStops(sections, k + 1);
  }

  /** What the document tells of the automatic saving, if it is a store at all. */
  function AutosaveTold(h: Header): Option<bool> {
    if h.id != "bibliotheque" || h.version > 1 then None
    else
      match (At(h.config, "global"), At(h.config, "categories"))
      case (Some(global), Some(_)) => BoolAt(global, "auto-save")
      case _ => None
  }

  /** The sections of the document, if it lists any. */
  function ItemsTold(h: Header): Option<seq<Value>> {
    match (AutosaveTold(h), At(h.config, "categories"))
    case (Some(_), Some(Arr(items))) => Some(items)
    case _ => None
  }

  /** What is left once the sections were looked at. */
  ghost predicate LeavesSections(l: LoadStep, sections: seq<Option<Section>>) {
    var read := sections[..ReadFirst(sections)];
    && (forall cat, i {:trigger LastFor(read, i, cat)} :: LastFor(read, i, cat) ==>
          cat in l.state.content && Lists(l.state.content[cat], read[i].value.list))
    && if |read| < |sections| then
         !l.ok && l.fired == {} && forall cat :: cat in l.state.content <==> Told(read, cat)
       else
         && (l.ok <==> forall cat: Category :: Told(read, cat)) && Complete(l.state.content)
         && (forall cat :: !Told(read, cat) ==> l.state.content[cat] == map[])
         && forall cat :: cat in l.fired <==> Filling(read, cat)
  }

  /** Loading any document. Without a header nothing happens. With one the locks stay, the rest is
      forgotten and there is nothing to save; what the document then tells is taken up to the first
      section that cannot be read, in which case nothing is announced. */
  lemma LoadLaw(s: State, doc: Value)
    ensures var l := AfterLoad(s, doc);
      match Unwrap(doc)
      case None => l == LoadStep(s, false, {})
      case Some(h) =>
        && l.state.outside == s.outside && l.state.saved
        && l.state.autosave == (match AutosaveTold(h) case None => s.autosave case Some(auto) => auto)
        && match ItemsTold(h)
           case None => !l.ok && l.fired == {} && l.state.content == map[]
           case Some(items) => LeavesSections(l, SectionsOf(items))
  {
    if Unwrap(doc).Some? && ItemsTold(Unwrap(doc).value).Some? {
      var items := ItemsTold(Unwrap(doc).value).value;
      LoadedSections(items);
      SectionsLeft(AfterLoad(s, doc), items);
    }
  }

  lemma SectionsLeft(l: LoadStep, items: seq<Value>)
    requires var t := LoadTable(items); if t.ok then
      l.state.content == Filled(t.content) && l.ok == Complete(t.content) && l.fired == t.fired
      else l.state.content == t.content && !l.ok && l.fired == {}
    ensures LeavesSections(l, SectionsOf(items))
  {
    LoadedSections(items);
  }

  // ------------------------------------------------------------------ what is left to save

  datatype Call = Change(op: Op) | Save | Load(doc: Value)

  ghost function AfterCall(s: State, call: Call): State {
    match call
    case Change(op) => After(s, op).0
    case Save => s.(saved := true)
    case Load(doc) => AfterLoad(s, doc).state
  }

  ghost function RunCalls(calls: seq<Call>): State {
    if calls == [] then INITIAL else AfterCall(RunCalls(calls[..|calls| - 1]), calls[|calls| - 1])
  }

  /** An addition, an update or a deletion that is accepted. */
  ghost predicate Accepted(s: State, call: Call) {
    call.Change? && (call.op.Add? || call.op.Update? || call.op.Delete?) && After(s, call.op).1
  }

  /** A saving, a clearing, or the loading of a document with a header. */
  predicate Settles(call: Call) {
    match call
    case Change(op) => op.Clear?
    case Save => true
    case Load(doc) => Unwrap(doc).Some?
  }

  /** Each call: what it leaves to save, and of the automatic saving. */
  lemma CallFlags(s: State, call: Call)
    ensures AfterCall(s, call).saved <==> Settles(call) || (s.saved && !Accepted(s, call))
    ensures AfterCall(s, call).autosave ==
      match call
      case Load(doc) => (if Unwrap(doc).None? then s.autosave
                         else match AutosaveTold(Unwrap(doc).value) case None => s.autosave case Some(auto) => auto)
      case Change(Clear) => true
      case _ => s.autosave
  {
    match call
    case Change(op) =>
    case Save =>
    case Load(doc) => LoadLaw(s, doc);
  }

  /** The call at i is a change that was accepted. */
  ghost predicate AcceptedAt(calls: seq<Call>, i: int)
    requires 0 <= i < |calls|
  {
    Accepted(RunCalls(calls[..i]), calls[i])
  }

  /** Nothing has been saved, cleared or loaded since. */
  ghost predicate Unsettled(calls: seq<Call>, i: int)
    requires 0 <= i < |calls|
  {
    forall j :: i < j < |calls| ==> !Settles(calls[j])
  }

  /** After any run from an empty store, there is something to save just when a change was accepted
      since the last saving, clearing or loading. */
  lemma {:induction false} SavedIff(calls: seq<Call>)
    ensures !RunCalls(calls).saved <==> exists i :: 0 <= i < |calls| && AcceptedAt(calls, i) && Unsettled(calls, i)
  {
    if calls != [] {
      var n := |calls| - 1;
      var before, last := calls[..n], calls[n];
      SavedIff(before);
      CallFlags(RunCalls(before), last);
      forall i | 0 <= i < n
        ensures AcceptedAt(calls, i) && Unsettled(calls, i) <==>
          AcceptedAt(before, i) && Unsettled(before, i) && !Settles(last)
      {
        EarlierCall(calls, before, i);
      }
      assert AcceptedAt(calls, n) <==> Accepted(RunCalls(before), last);
      assert Unsettled(calls, n);
      if !RunCalls(before).saved {
        var i :| 0 <= i < n && AcceptedAt(before, i) && Unsettled(before, i);
        assert !Settles(last) ==> AcceptedAt(calls, i) && Unsettled(calls, i);
      }
    }
  }

  lemma EarlierCall(calls: seq<Call>, before: seq<Call>, i: int)
    requires calls != [] && before == calls[..|calls| - 1] && 0 <= i < |before|
    ensures AcceptedAt(calls, i) <==> AcceptedAt(before, i)
    ensures Unsettled(calls, i) <==> Unsettled(before, i) && !Settles(calls[|calls| - 1])
  {
    assert calls[..i] == before[..i];
    forall j | i < j < |before| ensures before[j] == calls[j] {
    }
    if Unsettled(calls, i) {
      forall j | i < j < |before| ensures !Settles(before[j]) {
        assert !Settles(calls[j]);
      }
    } else {
      var j :| i < j < |calls| && Settles(calls[j]);
      assert j < |before| ==> Settles(before[j]);
    }
  }
}
