/** A store and the guichets registered on it: each accepted change of the store is delivered
    to the guichets of its category, in the order of registration, until one of them fails. */
module SessionProtocol {
  import opened Json
  import opened ConfigTable
  import opened ConfigStore
  import opened StoreJson
  import opened StoreLaws
  import opened GuichetProtocol

  datatype World = World(store: State, wickets: seq<Wicket>)

  /** What a call leaves, how it ended, and whether all the guichets it had to tell were told. */
  datatype Ended = Ended(world: World, r: Outcome, delivered: bool)

  function Replace(w: World, i: nat, t: Turn): World
    requires i < |w.wickets|
  {
    World(t.store, w.wickets[i := t.w])
  }

  function Deliver(w: World, cat: Category, i: nat): Ended
    decreases |w.wickets| - i
  {
    if i >= |w.wickets| then Ended(w, Done, true)
    else if w.wickets[i].categ != cat then Deliver(w, cat, i + 1)
    else
      var t := UpdateSelected(w.store, w.wickets[i]);
      if t.r.Done? then Deliver(Replace(w, i, t), cat, i + 1) else Ended(Replace(w, i, t), t.r, false)
  }

  /** The categories in the order of their numbers. */
  const CATEGORIES: seq<Category> :=
    [FileFilter, PathFilter, Command, Repo, Compress, ConfSave, ConfTest, ConfDiff, ConfList, ConfRest, ConfMerge,
     ConfRepair, ConfCommon, Slicing, Ciphering, DeltaSig, OverPolicy, ConfRead, ConfIsolate]

  function NumberOf(cat: Category): (i: nat)
    ensures i < 19
  {
    match cat
    case FileFilter => 0 case PathFilter => 1 case Command => 2 case Repo => 3 case Compress => 4
    case ConfSave => 5 case ConfTest => 6 case ConfDiff => 7 case ConfList => 8 case ConfRest => 9
    case ConfMerge => 10 case ConfRepair => 11 case ConfCommon => 12 case Slicing => 13 case Ciphering => 14
    case DeltaSig => 15 case OverPolicy => 16 case ConfRead => 17 case ConfIsolate => 18
  }

  ghost predicate DistinctCategories(cats: seq<Category>) {
    forall i, j :: 0 <= i < j < |cats| ==> cats[i] != cats[j]
  }

  lemma Numbered(cats: seq<Category>, i: nat)
    requires cats == CATEGORIES && i < 19
    ensures |cats| == 19 && NumberOf(cats[i]) == i
  {
  }

  lemma NumberedBack(cats: seq<Category>, cat: Category)
    requires cats == CATEGORIES
    ensures |cats| == 19 && cats[NumberOf(cat)] == cat
  {
  }

  /** They are all there, each once. */
  lemma AllCategories(cats: seq<Category>)
    requires cats == CATEGORIES
    ensures (forall cat: Category :: cat in cats) && DistinctCategories(cats)
  {
    forall cat: Category ensures cat in cats {
      NumberedBack(cats, cat);
    }
    forall i | 0 <= i < |cats| ensures NumberOf(cats[i]) == i {
      Numbered(cats, i);
    }
  }

  /** Tells of several categories in turn. */
  function DeliverEach(w: World, cats: seq<Category>, fired: set<Category>): Ended
    decreases |cats|, fired
  {
    if cats == [] then Ended(w, Done, true)
    else if cats[0] !in fired then DeliverEach(w, cats[1..], fired)
    else
      var e := Deliver(w, cats[0], 0);
      if e.r.Done? then DeliverEach(e.world, cats[1..], fired) else e
  }

  /** Tells of all the categories. */
  function DeliverAll(w: World): Ended {
    DeliverEach(w, CATEGORIES, set cat | cat in CATEGORIES)
  }

  /** Loading a document into the store, then telling the categories that received something. */
  ghost function AfterReload(w: World, doc: Value): Ended {
    var l := AfterLoad(w.store, doc);
    DeliverEach(w.(store := l.state), CATEGORIES, l.fired)
  }

  /** After a change of the store: told to the guichets if it was accepted. */
  function Announce(w: World, s: State, ok: bool, cat: Category): Ended {
    var w' := w.(store := s);
    if ok then Deliver(w', cat, 0) else Ended(w', Refused, true)
  }

  datatype Event =
    | StoreAdd(c: Coordinates, config: Value, refs: UsingSet)
    | StoreUpdate(c: Coordinates, config: Value, refs: UsingSet)
    | StoreDelete(c: Coordinates)
    | StoreClear
    | StoreLoad(doc: Value)
    | Create(w: Wicket)
    | Select(i: nat, name: string)
    | Edit(i: nat)
    | Blank(i: nat)
    | Modify(i: nat, config: Value)
    | Rendered(i: nat)
    | SaveAs(i: nat, name: string, refs: UsingSet)
    | LoadInto(i: nat, doc: Value)
    | ClearInto(i: nat)
    | Destroy(i: nat)

  /** The event concerns one guichet and the locks, nothing else. */
  predicate ForOne(e: Event) {
    e.Select? || e.Edit? || e.Blank? || e.Modify? || e.Rendered? || e.LoadInto? || e.ClearInto?
  }

  function TurnOf(w: World, e: Event): Turn
    requires ForOne(e) && e.i < |w.wickets|
  {
    var s, k := w.store, w.wickets[e.i];
    match e
    case Select(_, name) => ChooseId(s, k, name, Done)
    case Edit(_) => OnEdit(s, k)
    case Blank(_) => OnClear(s, k)
    case Modify(_, config) => Turn(s, if k.choice.None? then k.(adopted := config) else k, Done)
    case Rendered(_) => Turn(s, k.(clearAdopted := true), Done)
    case LoadInto(_, doc) => LoadJson(s, k, doc)
    case ClearInto(_) => ClearJson(s, k)
  }

  ghost function AddAndAnnounce(w: World, c: Coordinates, config: Value, refs: UsingSet): Ended {
    var (s, ok) := AfterAdd(w.store, c, config, refs);
    Announce(w, s, ok, c.cat)
  }

  /** Whatever goes wrong while the new name is selected counts as an internal error. */
  function FollowNew(s: State, k: Wicket, name: string): Turn {
    var t := UpdateSelected(s, k);
    if !t.r.Done? then t
    else
      var u := ChooseId(t.store, t.w, name, Bug);
      if u.r.Done? then u else u.(r := Bug)
  }

  /** Saving what the component holds under a new name, then following that name. */
  ghost function AfterSaveAs(w: World, i: nat, name: string, refs: UsingSet): Ended
    requires i < |w.wickets|
  {
    if name == "" then Ended(w, Refused, true)
    else
      var k := w.wickets[i];
      var e := AddAndAnnounce(w, Coordinates(k.categ, name), k.adopted, refs);
      if !e.r.Done? || i >= |e.world.wickets| then e
      else
        var t := FollowNew(e.world.store, e.world.wickets[i], name);
        Ended(Replace(e.world, i, t), t.r, true)
  }

  function Without(w: World, i: nat, s: State): World
    requires i < |w.wickets|
  {
    World(s, w.wickets[..i] + w.wickets[i + 1..])
  }

  function AfterDestroy(w: World, i: nat): World
    requires i < |w.wickets|
  {
    Without(w, i, Release(w.store, w.wickets[i]).store)
  }

  /** The event is a call of the store. */
  predicate ToStore(e: Event) {
    e.StoreAdd? || e.StoreUpdate? || e.StoreDelete? || e.StoreClear? || e.StoreLoad?
  }

  ghost function StoreStep(w: World, e: Event): Ended
    requires ToStore(e)
  {
    match e
    case StoreAdd(c, config, refs) => AddAndAnnounce(w, c, config, refs)
    case StoreUpdate(c, config, refs) =>
      var (s, ok) := AfterUpdate(w.store, c, config, refs); Announce(w, s, ok, c.cat)
    case StoreDelete(c) =>
      var (s, ok) := AfterDelete(w.store, c); Announce(w, s, ok, c.cat)
    case StoreClear => DeliverAll(w.(store := AfterClear(w.store)))
    case StoreLoad(doc) => AfterReload(w, doc)
  }

  ghost function Step(w: World, e: Event): Ended {
    match e
    case StoreAdd(_, _, _) => StoreStep(w, e)
    case StoreUpdate(_, _, _) => StoreStep(w, e)
    case StoreDelete(_) => StoreStep(w, e)
    case StoreClear => StoreStep(w, e)
    case StoreLoad(_) => StoreStep(w, e)
    case Create(k) =>
      var t := UpdateSelected(w.store, k);
      Ended(World(t.store, w.wickets + [t.w]), t.r, true)
    case SaveAs(i, name, refs) =>
      if i < |w.wickets| then AfterSaveAs(w, i, name, refs) else Ended(w, Done, true)
    case Destroy(i) =>
      if i < |w.wickets| then Ended(AfterDestroy(w, i), Done, true) else Ended(w, Done, true)
    case _ =>
      if e.i < |w.wickets| then Ended(Replace(w, e.i, TurnOf(w, e)), TurnOf(w, e).r, true) else Ended(w, Done, true)
  }

  // ------------------------------------------------------------------ invariants

  /** Each guichet knows of all its locks, and every lock is that of some living guichet. */
  ghost predicate LocksSafe(w: World) {
    && Complete(w.store.content)
    && (forall i, j :: 0 <= i < j < |w.wickets| ==> w.wickets[i].id != w.wickets[j].id)
    && (forall i :: 0 <= i < |w.wickets| ==>
          LockExact(w.store, w.wickets[i]) && Tidy(w.wickets[i]))
    && (forall c, o :: Locked(w.store.outside, c, o) ==> exists i :: 0 <= i < |w.wickets| && w.wickets[i].id == o)
  }

  predicate Settled(w: World) {
    forall i :: 0 <= i < |w.wickets| ==> InOrder(w.store, w.wickets[i])
  }

  /** Events after which all is told apart: no guichet takes a configuration that has an empty name,
      a new guichet has an address of its own and starts in manual mode with no lock, and a document
      loaded into the store leaves it sound. */
  ghost predicate Admissible(w: World, e: Event) {
    match e
    case Select(i, name) =>
      i < |w.wickets| && name in w.wickets[i].offered ==> Lockable(w.store, w.wickets[i].(choice := Some(name)))
    case LoadInto(i, doc) =>
      i < |w.wickets| ==> Lockable(w.store, w.wickets[i].(choice := NameToFollow(w.wickets[i], doc)))
    case StoreLoad(doc) => Sound(AfterLoad(w.store, doc).state)
    case Create(k) =>
      && k.choice == None && k.locked == ""
      && forall i :: 0 <= i < |w.wickets| ==> w.wickets[i].id != k.id
    case _ => true
  }

  // ------------------------------------------------------------------ one guichet moves

  /** A turn of one guichet leaves the others exactly as they were. */
  lemma ReplaceSafe(w: World, i: nat, t: Turn)
    requires LocksSafe(w) && i < |w.wickets| && Proper(w.store, w.wickets[i], t)
    requires Tidy(t.w)
    ensures LocksSafe(Replace(w, i, t))
    ensures forall j :: 0 <= j < |w.wickets| && j != i ==>
      (InOrder(w.store, w.wickets[j]) <==> InOrder(t.store, Replace(w, i, t).wickets[j]))
  {
    var w' := Replace(w, i, t);
    forall j | 0 <= j < |w.wickets| ensures LockExact(w'.store, w'.wickets[j]) {
      if j != i {
        assert LockExact(w.store, w.wickets[j]) && w.wickets[j].id != t.w.id;
      }
    }
    forall c, o | Locked(w'.store.outside, c, o) ensures exists j :: 0 <= j < |w'.wickets| && w'.wickets[j].id == o {
      if o == t.w.id {
        assert w'.wickets[i].id == o;
      } else {
        assert Locked(w.store.outside, c, o);
        var j :| 0 <= j < |w.wickets| && w.wickets[j].id == o;
        assert w'.wickets[j].id == o;
      }
    }
  }

  /** What delivering to the guichets from i on guarantees. */
  ghost predicate Delivered(w: World, cat: Category, i: nat, e: Ended) {
    && LocksSafe(e.world) && e.world.store.content == w.store.content && !e.r.Bug? && (e.delivered <==> e.r.Done?)
    && |e.world.wickets| == |w.wickets|
    && (forall j :: 0 <= j < |w.wickets| ==>
          e.world.wickets[j].categ == w.wickets[j].categ && e.world.wickets[j].fit == w.wickets[j].fit)
    && (forall j :: 0 <= j < |w.wickets| && (j < i || w.wickets[j].categ != cat) ==>
          e.world.wickets[j] == w.wickets[j])
    && (e.r.Done? ==> forall j :: i <= j < |w.wickets| && w.wickets[j].categ == cat ==>
          InOrder(w.store, e.world.wickets[j]) && Takes(w.store.content, e.world.wickets[j]))
  }

  lemma DeliveredFrom(w: World, cat: Category, i: nat, t: Turn, e: Ended)
    requires i < |w.wickets| && w.wickets[i].categ == cat == t.w.categ && t.w.fit == w.wickets[i].fit
    requires t.store.content == w.store.content && InOrder(w.store, t.w) && Takes(w.store.content, t.w)
    requires Delivered(Replace(w, i, t), cat, i + 1, e)
    ensures Delivered(w, cat, i, e)
  {
    var w' := Replace(w, i, t);
    assert e.world.wickets[i] == w'.wickets[i] == t.w;
    forall j | 0 <= j < |w.wickets| && j != i ensures w'.wickets[j] == w.wickets[j] {
    }
  }

  lemma DeliveryStops(w: World, cat: Category, i: nat, t: Turn)
    requires i < |w.wickets| && w.wickets[i].categ == cat == t.w.categ && t.w.fit == w.wickets[i].fit
    requires t.store.content == w.store.content && LocksSafe(Replace(w, i, t)) && t.r.Refused?
    ensures Delivered(w, cat, i, Ended(Replace(w, i, t), t.r, false))
  {
  }

  lemma DeliverySkips(w: World, cat: Category, i: nat, e: Ended)
    requires i < |w.wickets| && w.wickets[i].categ != cat && Delivered(w, cat, i + 1, e)
    ensures Delivered(w, cat, i, e)
  {
  }

  lemma DeliverOne(w: World, i: nat)
    requires LocksSafe(w) && i < |w.wickets|
    ensures var t := UpdateSelected(w.store, w.wickets[i]);
      && LocksSafe(Replace(w, i, t)) && t.store.content == w.store.content
      && t.w.categ == w.wickets[i].categ && t.w.fit == w.wickets[i].fit
      && InOrder(w.store, t.w) && !t.r.Bug? && (t.r.Done? <==> Takes(w.store.content, w.wickets[i]))
      && (t.r.Done? ==> Takes(w.store.content, t.w))
  {
    UpdateProper(w.store, w.wickets[i]);
    UpdateTakes(w.store, w.wickets[i]);
    ReplaceSafe(w, i, UpdateSelected(w.store, w.wickets[i]));
  }

  lemma {:induction false} DeliverSafe(w: World, cat: Category, i: nat)
    requires LocksSafe(w)
    ensures Delivered(w, cat, i, Deliver(w, cat, i))
    decreases |w.wickets| - i
  {
    if i < |w.wickets| {
      if w.wickets[i].categ != cat {
        DeliverSafe(w, cat, i + 1);
        DeliverySkips(w, cat, i, Deliver(w, cat, i + 1));
      } else {
        DeliverOne(w, i);
        var t := UpdateSelected(w.store, w.wickets[i]);
        if t.r.Done? {
          DeliverSafe(Replace(w, i, t), cat, i + 1);
          DeliveredFrom(w, cat, i, t, Deliver(Replace(w, i, t), cat, i + 1));
        } else {
          DeliveryStops(w, cat, i, t);
        }
      }
    }
  }

  /** All the guichets of a category, from i on, take what the store has for them. */
  predicate AllTake(t: Table, wickets: seq<Wicket>, cat: Category, i: nat)
    requires Complete(t)
  {
    forall j :: i <= j < |wickets| ==> !RefusedHere(t, wickets, cat, j)
  }

  predicate RefusedHere(t: Table, wickets: seq<Wicket>, cat: Category, k: nat)
    requires Complete(t) && k < |wickets|
  {
    wickets[k].categ == cat && !Takes(t, wickets[k])
  }

  /** All the guichets of a category are told if and only if they all take what the store has. */
  lemma {:induction false} DeliverIff(w: World, cat: Category, i: nat)
    requires LocksSafe(w)
    ensures Deliver(w, cat, i).delivered <==> AllTake(w.store.content, w.wickets, cat, i)
    decreases |w.wickets| - i
  {
    if i < |w.wickets| {
      if w.wickets[i].categ != cat {
        DeliverIff(w, cat, i + 1);
        AllTakeSkip(w.store.content, w.wickets, cat, i);
      } else {
        DeliverOne(w, i);
        var t := UpdateSelected(w.store, w.wickets[i]);
        AllTakeFrom(w.store.content, w.wickets, Replace(w, i, t).wickets, cat, i);
        if t.r.Done? {
          DeliverIff(Replace(w, i, t), cat, i + 1);
        }
      }
    }
  }

  lemma AllTakeSkip(t: Table, wickets: seq<Wicket>, cat: Category, i: nat)
    requires Complete(t) && i < |wickets| && wickets[i].categ != cat
    ensures AllTake(t, wickets, cat, i) <==> AllTake(t, wickets, cat, i + 1)
  {
    assert !RefusedHere(t, wickets, cat, i);
  }

  lemma AllTakeFrom(t: Table, wickets: seq<Wicket>, wickets': seq<Wicket>, cat: Category, i: nat)
    requires Complete(t) && i < |wickets| == |wickets'| && wickets[i].categ == cat
    requires forall j :: i < j < |wickets| ==> wickets'[j] == wickets[j]
    ensures AllTake(t, wickets, cat, i) <==> Takes(t, wickets[i]) && AllTake(t, wickets', cat, i + 1)
  {
    assert RefusedHere(t, wickets, cat, i) <==> !Takes(t, wickets[i]);
    assert forall j :: i < j < |wickets| ==> (RefusedHere(t, wickets', cat, j) <==> RefusedHere(t, wickets, cat, j));
  }

  /** A guichet of the category, from i on and before j, refuses what the store has for it. */
  predicate RefusedBefore(t: Table, wickets: seq<Wicket>, cat: Category, i: nat, j: nat)
    requires Complete(t) && j < |wickets|
  {
    exists k :: i <= k < j && RefusedHere(t, wickets, cat, k)
  }

  /** A guichet that comes after one that refuses is left as it was; the others end in order. */
  lemma {:induction false} DeliverAt(w: World, cat: Category, i: nat, j: nat)
    requires LocksSafe(w) && i <= j < |w.wickets| && w.wickets[j].categ == cat
    ensures var after := Deliver(w, cat, i).world.wickets;
      |after| == |w.wickets| &&
      if RefusedBefore(w.store.content, w.wickets, cat, i, j) then after[j] == w.wickets[j]
        else InOrder(w.store, after[j])
    decreases |w.wickets| - i
  {
    var content := w.store.content;
    if w.wickets[i].categ != cat {
      DeliverAt(w, cat, i + 1, j);
      SameRefusals(content, w.wickets, w.wickets, cat, i, j);
    } else {
      DeliverOne(w, i);
      var t := UpdateSelected(w.store, w.wickets[i]);
      var w' := Replace(w, i, t);
      if !t.r.Done? {
        assert i < j ==> RefusedHere(content, w.wickets, cat, i);
      } else if i < j {
        DeliverAt(w', cat, i + 1, j);
        SameRefusals(content, w.wickets, w'.wickets, cat, i, j);
      } else {
        DeliverSafe(w', cat, i + 1);
      }
    }
  }

  /** What happens from i on is the same from i + 1 on, if the guichet at i does not refuse. */
  lemma SameRefusals(t: Table, wickets: seq<Wicket>, wickets': seq<Wicket>, cat: Category, i: nat, j: nat)
    requires Complete(t) && i < j < |wickets| == |wickets'| && !RefusedHere(t, wickets, cat, i)
    requires forall k :: i < k < |wickets| ==> wickets'[k] == wickets[k]
    ensures RefusedBefore(t, wickets', cat, i + 1, j) <==> RefusedBefore(t, wickets, cat, i, j)
  {
    assert forall k :: i < k < |wickets| ==> (RefusedHere(t, wickets', cat, k) <==> RefusedHere(t, wickets, cat, k));
  }

  // ------------------------------------------------------------------ the store moves

  lemma StoreSafe(w: World, s: State)
    requires LocksSafe(w) && s.outside == w.store.outside && Complete(s.content)
    ensures LocksSafe(w.(store := s))
  {
  }

  /** A guichet sees nothing of what happens in other categories. */
  lemma OtherCategory(s: State, s': State, k: Wicket)
    requires Complete(s.content) && Complete(s'.content) && InOrder(s, k)
    requires forall d: Coordinates :: d.cat == k.categ ==> ConfigOf(s'.content, d) == ConfigOf(s.content, d)
    ensures InOrder(s', k)
  {
    forall name ensures name in s'.content[k.categ] <==> name in s.content[k.categ] {
      var d := Coordinates(k.categ, name);
      assert ConfigOf(s'.content, d) == ConfigOf(s.content, d);
    }
    if k.choice.Some? {
      var d := Coordinates(k.categ, k.choice.value);
      assert ConfigOf(s'.content, d) == ConfigOf(s.content, d);
    }
  }

  lemma AnnounceSafe(w: World, s: State, ok: bool, cat: Category)
    requires LocksSafe(w) && s.outside == w.store.outside && Complete(s.content)
    requires forall d: Coordinates :: !ok || d.cat != cat ==> ConfigOf(s.content, d) == ConfigOf(w.store.content, d)
    ensures var e := Announce(w, s, ok, cat);
      && LocksSafe(e.world) && !e.r.Bug? && e.world.store.content == s.content && |e.world.wickets| == |w.wickets|
      && (Settled(w) && e.delivered ==> Settled(e.world))
      && (forall j :: 0 <= j < |w.wickets| ==> e.world.wickets[j].categ == w.wickets[j].categ)
  {
    StoreSafe(w, s);
    var w' := w.(store := s);
    DeliverSafe(w', cat, 0);
    var e := Announce(w, s, ok, cat);
    if Settled(w) && e.delivered {
      forall j | 0 <= j < |w.wickets| ensures InOrder(e.world.store, e.world.wickets[j]) {
        if !ok || w.wickets[j].categ != cat {
          OtherCategory(w.store, s, w.wickets[j]);
        }
      }
    }
  }

  lemma AnnounceIff(w: World, s: State, ok: bool, cat: Category)
    requires LocksSafe(w) && s.outside == w.store.outside && Complete(s.content)
    ensures Announce(w, s, ok, cat).delivered <==> (ok ==> AllTake(s.content, w.wickets, cat, 0))
  {
    StoreSafe(w, s);
    DeliverIff(w.(store := s), cat, 0);
  }

  /** Of guichets in order before an accepted change, those of its category that come after one that
      refuses it are left with what they had; all others are in order. */
  lemma AnnounceOrder(w: World, s: State, cat: Category, j: nat)
    requires LocksSafe(w) && s.outside == w.store.outside && Complete(s.content)
    requires forall d: Coordinates :: d.cat != cat ==> ConfigOf(s.content, d) == ConfigOf(w.store.content, d)
    requires Settled(w) && j < |w.wickets|
    ensures var after := Announce(w, s, true, cat).world;
      && |after.wickets| == |w.wickets| && after.store.content == s.content
      && if w.wickets[j].categ == cat && RefusedBefore(s.content, w.wickets, cat, 0, j) then after.wickets[j] ==
         w.wickets[j]
         else InOrder(after.store, after.wickets[j])
  {
    StoreSafe(w, s);
    var w' := w.(store := s);
    DeliverSafe(w', cat, 0);
    if w.wickets[j].categ == cat {
      DeliverAt(w', cat, 0, j);
    } else {
      OtherCategory(w.store, s, w.wickets[j]);
    }
  }

  /** So all are in order afterwards if and only if those left with what they had still are. */
  lemma AnnounceSettledIff(w: World, s: State, cat: Category)
    requires LocksSafe(w) && s.outside == w.store.outside && Complete(s.content)
    requires forall d: Coordinates :: d.cat != cat ==> ConfigOf(s.content, d) == ConfigOf(w.store.content, d)
    requires Settled(w)
    ensures Settled(Announce(w, s, true, cat).world) <==>
      forall j {:trigger RefusedBefore(s.content, w.wickets, cat, 0, j)} :: 0 <= j < |w.wickets| ==>
        w.wickets[j].categ == cat && RefusedBefore(s.content, w.wickets, cat, 0, j) ==> InOrder(s, w.wickets[j])
  {
    var after := Announce(w, s, true, cat).world;
    StoreSafe(w, s);
    DeliverSafe(w.(store := s), cat, 0);
    forall j | 0 <= j < |w.wickets|
      ensures InOrder(after.store, after.wickets[j]) <==>
        (w.wickets[j].categ == cat && RefusedBefore(s.content, w.wickets, cat, 0, j) ==> InOrder(s, w.wickets[j]))
    {
      AnnounceOrder(w, s, cat, j);
      SameContentInOrder(s, after.store, w.wickets[j]);
    }
  }

  ghost predicate DeliveredEach(w: World, cats: seq<Category>, fired: set<Category>, e: Ended) {
    && LocksSafe(e.world) && e.world.store.content == w.store.content && !e.r.Bug? && (e.delivered <==> e.r.Done?)
    && |e.world.wickets| == |w.wickets|
    && (forall j :: 0 <= j < |w.wickets| ==> e.world.wickets[j].categ == w.wickets[j].categ)
    && (forall j :: 0 <= j < |w.wickets| && !(w.wickets[j].categ in cats && w.wickets[j].categ in fired) ==>
          e.world.wickets[j] == w.wickets[j])
    && (e.r.Done? ==> forall j :: 0 <= j < |w.wickets| && w.wickets[j].categ in cats && w.wickets[j].categ in fired ==>
          InOrder(w.store, e.world.wickets[j]))
  }

  ghost predicate SameHere(t: Table, wickets: seq<Wicket>, wickets': seq<Wicket>, cat: Category)
    requires Complete(t) && |wickets| == |wickets'|
  {
    forall k :: 0 <= k < |wickets| ==> (RefusedHere(t, wickets', cat, k) <==> RefusedHere(t, wickets, cat, k))
  }

  lemma HereIsSame(t: Table, wickets: seq<Wicket>, wickets': seq<Wicket>, cat: Category)
    requires Complete(t) && |wickets| == |wickets'|
    requires forall k :: 0 <= k < |wickets| ==> wickets'[k].categ == wickets[k].categ
    requires forall k :: 0 <= k < |wickets| && wickets[k].categ == cat ==> wickets'[k] == wickets[k]
    ensures SameHere(t, wickets, wickets', cat)
  {
  }

  lemma SameTakes(t: Table, wickets: seq<Wicket>, wickets': seq<Wicket>, cat: Category)
    requires Complete(t) && |wickets| == |wickets'| && SameHere(t, wickets, wickets', cat)
    ensures AllTake(t, wickets', cat, 0) <==> AllTake(t, wickets, cat, 0)
    ensures forall j :: 0 <= j < |wickets| ==>
      (RefusedBefore(t, wickets', cat, 0, j) <==> RefusedBefore(t, wickets, cat, 0, j))
  {
    forall j | 0 <= j < |wickets|
      ensures RefusedBefore(t, wickets', cat, 0, j) <==> RefusedBefore(t, wickets, cat, 0, j)
    {
      assert forall k :: 0 <= k < j ==> (RefusedHere(t, wickets', cat, k) <==> RefusedHere(t, wickets, cat, k));
    }
  }

  /** All the guichets told when these categories are take what the store has for them. */
  predicate AllTakeEach(t: Table, wickets: seq<Wicket>, cats: seq<Category>, fired: set<Category>)
    requires Complete(t)
  {
    forall cat :: cat in cats && cat in fired ==> AllTake(t, wickets, cat, 0)
  }

  lemma {:induction false} DeliverEachIff(w: World, cats: seq<Category>, fired: set<Category>)
    requires LocksSafe(w)
    ensures DeliverEach(w, cats, fired).delivered <==> AllTakeEach(w.store.content, w.wickets, cats, fired)
    decreases |cats|
  {
    if cats != [] {
      assert forall cat :: cat in cats <==> cat == cats[0] || cat in cats[1..];
      if cats[0] !in fired {
        DeliverEachIff(w, cats[1..], fired);
      } else {
        DeliverIff(w, cats[0], 0);
        DeliverSafe(w, cats[0], 0);
        var e := Deliver(w, cats[0], 0);
        if e.r.Done? {
          DeliverEachIff(e.world, cats[1..], fired);
          forall cat | cat in cats[1..] && cat in fired
            ensures AllTake(w.store.content, e.world.wickets, cat, 0) <==> AllTake(w.store.content, w.wickets, cat, 0)
          {
            ToldTakeOn(w, cats[0], e, cat);
          }
        } else {
          assert !e.delivered;
        }
      }
    }
  }

  /** Once a category is told, the guichets take what they took before. */
  lemma ToldTakeOn(w: World, told: Category, e: Ended, cat: Category)
    requires LocksSafe(w) && Delivered(w, told, 0, e) && e.r.Done?
    requires AllTake(w.store.content, w.wickets, told, 0)
    ensures AllTake(w.store.content, e.world.wickets, cat, 0) <==> AllTake(w.store.content, w.wickets, cat, 0)
  {
    if cat != told {
      HereIsSame(w.store.content, w.wickets, e.world.wickets, cat);
      SameTakes(w.store.content, w.wickets, e.world.wickets, cat);
    } else {
      assert forall j :: 0 <= j < |w.wickets| ==> !RefusedHere(w.store.content, e.world.wickets, cat, j);
    }
  }

  lemma SameContentInOrder(s: State, s': State, k: Wicket)
    requires s.content == s'.content
    ensures InOrder(s, k) <==> InOrder(s', k)
  {
  }

  lemma {:induction false} DeliverEachSafe(w: World, cats: seq<Category>, fired: set<Category>)
    requires LocksSafe(w)
    ensures DeliveredEach(w, cats, fired, DeliverEach(w, cats, fired))
    decreases |cats|
  {
    if cats != [] {
      assert forall cat :: cat in cats <==> cat == cats[0] || cat in cats[1..];
      if cats[0] !in fired {
        DeliverEachSafe(w, cats[1..], fired);
      } else {
        DeliverSafe(w, cats[0], 0);
        var e := Deliver(w, cats[0], 0);
        if e.r.Done? {
          DeliverEachSafe(e.world, cats[1..], fired);
          var e' := DeliverEach(e.world, cats[1..], fired);
          forall j | e'.r.Done? && 0 <= j < |w.wickets| && w.wickets[j].categ in cats && w.wickets[j].categ in fired
            ensures InOrder(w.store, e'.world.wickets[j])
          {
            SameContentInOrder(w.store, e.world.store, e'.world.wickets[j]);
            if w.wickets[j].categ !in cats[1..] {
              assert e'.world.wickets[j] == e.world.wickets[j];
            }
          }
        }
      }
    }
  }

  /** The guichet at j is not told when these categories are, because its own is not among them or
      because a guichet told earlier refuses. */
  predicate Untold(t: Table, wickets: seq<Wicket>, cats: seq<Category>, fired: set<Category>, j: nat)
    requires Complete(t) && j < |wickets|
    decreases |cats|
  {
    cats == [] ||
    if cats[0] !in fired then Untold(t, wickets, cats[1..], fired, j)
    else if wickets[j].categ == cats[0] then RefusedBefore(t, wickets, cats[0], 0, j)
    else !AllTake(t, wickets, cats[0], 0) || Untold(t, wickets, cats[1..], fired, j)
  }

  lemma {:induction false} SameUntold(t: Table, wickets: seq<Wicket>, wickets': seq<Wicket>, cats: seq<Category>,
                                      fired: set<Category>, j: nat)
    requires Complete(t) && j < |wickets| == |wickets'|
    requires forall k :: 0 <= k < |wickets| ==> wickets'[k].categ == wickets[k].categ
    requires forall k :: 0 <= k < |wickets| && wickets[k].categ in cats ==> wickets'[k] == wickets[k]
    ensures Untold(t, wickets', cats, fired, j) <==> Untold(t, wickets, cats, fired, j)
    decreases |cats|
  {
    if cats != [] {
      SameUntold(t, wickets, wickets', cats[1..], fired, j);
      assert cats[0] in cats;
      HereIsSame(t, wickets, wickets', cats[0]);
      SameTakes(t, wickets, wickets', cats[0]);
    }
  }

  /** A guichet that is not told is left as it was; the others end in order. */
  lemma {:induction false} DeliverEachAt(w: World, cats: seq<Category>, fired: set<Category>, j: nat)
    requires LocksSafe(w) && j < |w.wickets| && DistinctCategories(cats)
    ensures var after := DeliverEach(w, cats, fired).world.wickets;
      |after| == |w.wickets| &&
      if Untold(w.store.content, w.wickets, cats, fired, j) then after[j] == w.wickets[j]
      else InOrder(w.store, after[j])
    decreases |cats|
  {
    if cats != [] {
      if cats[0] !in fired {
        DeliverEachAt(w, cats[1..], fired, j);
      } else {
        var e := Deliver(w, cats[0], 0);
        DeliverSafe(w, cats[0], 0);
        DeliverIff(w, cats[0], 0);
        if w.wickets[j].categ == cats[0] {
          DeliverAt(w, cats[0], 0, j);
        }
        if e.r.Done? {
          assert forall cat :: cat in cats[1..] ==> cat != cats[0];
          DeliverEachAt(e.world, cats[1..], fired, j);
          DeliverEachSafe(e.world, cats[1..], fired);
          SameUntold(w.store.content, w.wickets, e.world.wickets, cats[1..], fired, j);
          SameContentInOrder(w.store, e.world.store, DeliverEach(e.world, cats[1..], fired).world.wickets[j]);
        }
      }
    }
  }

  // ------------------------------------------------------------------ one event

  /** The store is sound and the locks are safe. */
  ghost predicate Good(w: World) {
    Sound(w.store) && LocksSafe(w)
  }

  ghost predicate GoodStep(w: World, e: Ended) {
    Good(e.world) && (Settled(w) && e.delivered ==> Settled(e.world))
  }

  lemma OutsideOfSound(s: State, s': State)
    requires s.content == s'.content && Sound(s)
    ensures Sound(s')
  {
  }

  lemma AddGood(w: World, c: Coordinates, config: Value, refs: UsingSet)
    requires Good(w)
    ensures var e := AddAndAnnounce(w, c, config, refs);
      && GoodStep(w, e) && !e.r.Bug? && (e.r.Done? ==> e.delivered && Has(e.world.store.content, c))
      && |e.world.wickets| == |w.wickets|
      && (forall j :: 0 <= j < |w.wickets| ==> e.world.wickets[j].categ == w.wickets[j].categ)
  {
    var (s', ok) := AfterAdd(w.store, c, config, refs);
    AddLaw(w.store, c, config, refs);
    StoreSafe(w, s');
    DeliverSafe(w.(store := s'), c.cat, 0);
    AnnounceSafe(w, s', ok, c.cat);
    OutsideOfSound(s', AddAndAnnounce(w, c, config, refs).world.store);
    assert ok ==> ConfigOf(s'.content, c) == Some(config);
  }

  lemma StoreEventGood(w: World, e: Event)
    requires Good(w) && Admissible(w, e) && (e.StoreAdd? || e.StoreUpdate? || e.StoreDelete?)
    ensures GoodStep(w, Step(w, e)) && !Step(w, e).r.Bug?
  {
    var s := w.store;
    match e
    case StoreAdd(c, config, refs) => AddGood(w, c, config, refs);
    case StoreUpdate(c, config, refs) =>
      var (s', ok) := AfterUpdate(s, c, config, refs);
      UpdateLaw(s, c, config, refs);
      AnnounceSafe(w, s', ok, c.cat);
      OutsideOfSound(s', Step(w, e).world.store);
    case StoreDelete(c) =>
      var (s', ok) := AfterDelete(s, c);
      DeleteLaw(s, c);
      AnnounceSafe(w, s', ok, c.cat);
      OutsideOfSound(s', Step(w, e).world.store);
  }

  lemma StoreClearGood(w: World)
    requires Good(w)
    ensures GoodStep(w, Step(w, StoreClear)) && !Step(w, StoreClear).r.Bug?
  {
    ClearedGood(w);
    EveryoneTold(w.(store := AfterClear(w.store)));
  }

  lemma ClearedGood(w: World)
    requires Good(w)
    ensures Good(w.(store := AfterClear(w.store)))
  {
    InitialSound();
    OutsideOfSound(INITIAL, AfterClear(w.store));
    StoreSafe(w, AfterClear(w.store));
  }

  /** A change told to the guichets of every category. */
  lemma EveryoneTold(w: World)
    requires Good(w)
    ensures var e := DeliverAll(w); Good(e.world) && !e.r.Bug? && (e.delivered ==> Settled(e.world))
  {
    AllCategories(CATEGORIES);
    DeliverEachSafe(w, CATEGORIES, set cat | cat in CATEGORIES);
    var e := DeliverEach(w, CATEGORIES, set cat | cat in CATEGORIES);
    OutsideOfSound(w.store, e.world.store);
    if e.delivered {
      forall j | 0 <= j < |w.wickets| ensures InOrder(e.world.store, e.world.wickets[j]) {
        SameContentInOrder(w.store, e.world.store, e.world.wickets[j]);
      }
    }
  }

  lemma TurnKept(w: World, e: Event)
    requires Good(w) && ForOne(e) && e.i < |w.wickets| && Admissible(w, e)
    ensures Kept(w.store, w.wickets[e.i], TurnOf(w, e))
    ensures TurnOf(w, e).r.Bug? ==> TurnOf(w, e) == Turn(w.store, w.wickets[e.i], Bug)
  {
    var s, k := w.store, w.wickets[e.i];
    match e
    case Select(_, name) => ChooseIdKept(s, k, name, Done);
    case Edit(_) => ChooseKept(s, k.(clearAdopted := false), None);
    case Blank(_) =>
    case Modify(_, config) =>
    case Rendered(_) =>
    case LoadInto(_, doc) => LoadJsonKept(s, k, doc);
    case ClearInto(_) => ChooseKept(s, k.(clearAdopted := true), None);
  }

  lemma ReplaceGood(w: World, i: nat, t: Turn)
    requires Good(w) && i < |w.wickets| && Kept(w.store, w.wickets[i], t)
    ensures Good(Replace(w, i, t)) && (Settled(w) ==> Settled(Replace(w, i, t)))
  {
    ReplaceSafe(w, i, t);
    OutsideOfSound(w.store, t.store);
  }

  lemma FollowNewKept(s: State, k: Wicket, name: string)
    requires LockExact(s, k) && Tidy(k) && k.categ in s.content && name != ""
    ensures Kept(s, k, FollowNew(s, k, name))
  {
    UpdateProper(s, k);
    var t := UpdateSelected(s, k);
    assert Kept(s, k, t);
    if t.r.Done? {
      ChooseIdKept(t.store, t.w, name, Bug);
      KeptOn(s, k, t, ChooseId(t.store, t.w, name, Bug));
    }
  }

  /** Following a stored name selects it if and only if the component takes its configuration and the
      name is not that of the manual mode, which no configuration can thus be followed under. */
  lemma FollowNewIff(s: State, k: Wicket, name: string)
    requires LockExact(s, k) && Tidy(k) && Has(s.content, Coordinates(k.categ, name)) && name != ""
    requires Takes(s.content, k)
    ensures var t, taken := FollowNew(s, k, name), k.fit.accepts(Entry(s.content, Coordinates(k.categ, name)).config);
      && (t.w.choice == Some(name) <==> taken && name != MANUAL_ID) && (t.w.choice != Some(name) ==> t.w.choice == None)
      && t.r == if name != MANUAL_ID && !taken then Bug else Done
  {
    UpdateProper(s, k);
    UpdateTakes(s, k);
    var t := UpdateSelected(s, k);
    ChooseKept(t.store, t.w, None);
    if name != MANUAL_ID && t.w.choice != Some(name) {
      OnSelectProper(t.store, t.w.(choice := Some(name)));
    }
  }

  lemma SaveAsGood(w: World, i: nat, name: string, refs: UsingSet)
    requires Good(w) && i < |w.wickets|
    ensures GoodStep(w, AfterSaveAs(w, i, name, refs))
  {
    if name != "" {
      var k := w.wickets[i];
      AddGood(w, Coordinates(k.categ, name), k.adopted, refs);
      var e := AddAndAnnounce(w, Coordinates(k.categ, name), k.adopted, refs);
      if e.r.Done? {
        FollowNewKept(e.world.store, e.world.wickets[i], name);
        ReplaceGood(e.world, i, FollowNew(e.world.store, e.world.wickets[i], name));
      }
    }
  }

  /** Saving under a name that is not empty nor taken, once all guichets took the change, ends with
      that name selected, but for two cases: the component refuses what it saved itself, an internal
      error, or the name is that of the manual mode, in which case nothing is selected. */
  lemma SaveAsIff(w: World, i: nat, name: string, refs: UsingSet)
    requires Good(w) && i < |w.wickets| && name != ""
    requires AddAndAnnounce(w, Coordinates(w.wickets[i].categ, name), w.wickets[i].adopted, refs).r.Done?
    ensures var e, k := AfterSaveAs(w, i, name, refs), w.wickets[i];
      && |e.world.wickets| == |w.wickets|
      && (e.world.wickets[i].choice == Some(name) <==> k.fit.accepts(k.adopted) && name != MANUAL_ID)
      && (e.world.wickets[i].choice != Some(name) ==> e.world.wickets[i].choice == None)
      && e.r == if name != MANUAL_ID && !k.fit.accepts(k.adopted) then Bug else Done
  {
    var k := w.wickets[i];
    var c := Coordinates(k.categ, name);
    AddGood(w, c, k.adopted, refs);
    AddedTakes(w, c, k.adopted, refs, i);
    var e := AddAndAnnounce(w, c, k.adopted, refs);
    FollowNewIff(e.world.store, e.world.wickets[i], name);
  }

  lemma AddedTakes(w: World, c: Coordinates, config: Value, refs: UsingSet, i: nat)
    requires Good(w) && i < |w.wickets| && w.wickets[i].categ == c.cat
    requires AddAndAnnounce(w, c, config, refs).r.Done?
    ensures var e := AddAndAnnounce(w, c, config, refs);
      && Complete(e.world.store.content) && i < |e.world.wickets| && e.world.wickets[i].categ == c.cat
      && Takes(e.world.store.content, e.world.wickets[i])
      && ConfigOf(e.world.store.content, c) == Some(config) && e.world.wickets[i].fit == w.wickets[i].fit
  {
    var (s', ok) := AfterAdd(w.store, c, config, refs);
    AddLaw(w.store, c, config, refs);
    StoreSafe(w, s');
    DeliverSafe(w.(store := s'), c.cat, 0);
  }

  lemma CreateGood(w: World, k: Wicket)
    requires Good(w) && Admissible(w, Create(k))
    ensures GoodStep(w, Step(w, Create(k))) && !Step(w, Create(k)).r.Bug?
  {
    NewWicketGood(w, Relisted(k, w.store.content[k.categ].Keys));
  }

  lemma NewWicketGood(w: World, k: Wicket)
    requires Good(w) && k.choice == None && k.locked == "" && k.offered == w.store.content[k.categ].Keys
    requires forall i :: 0 <= i < |w.wickets| ==> w.wickets[i].id != k.id
    ensures Good(w.(wickets := w.wickets + [k])) && (Settled(w) ==> Settled(w.(wickets := w.wickets + [k])))
  {
    var w' := w.(wickets := w.wickets + [k]);
    forall c, o | Locked(w.store.outside, c, o)
      ensures o != k.id && exists i :: 0 <= i < |w'.wickets| && w'.wickets[i].id == o
    {
      var i :| 0 <= i < |w.wickets| && w.wickets[i].id == o;
      assert w'.wickets[i].id == o;
    }
    assert LockExact(w.store, k);
  }

  lemma WithoutSafe(w: World, i: nat, s: State)
    requires LocksSafe(w) && i < |w.wickets| && s.content == w.store.content
    requires forall c, o :: Locked(s.outside, c, o) <==> Locked(w.store.outside, c, o) && o != w.wickets[i].id
    ensures LocksSafe(Without(w, i, s))
  {
    var w' := Without(w, i, s);
    forall j | 0 <= j < |w'.wickets| ensures w'.wickets[j] == w.wickets[if j < i then j else j + 1] {
    }
    forall j | 0 <= j < |w'.wickets| ensures LockExact(s, w'.wickets[j]) {
      assert LockExact(w.store, w.wickets[if j < i then j else j + 1]);
    }
    forall c, o | Locked(s.outside, c, o) ensures exists j :: 0 <= j < |w'.wickets| && w'.wickets[j].id == o {
      var j :| 0 <= j < |w.wickets| && w.wickets[j].id == o;
      assert w'.wickets[if j < i then j else j - 1].id == o;
    }
  }

  /** Once destroyed, a guichet holds no lock any more, and the other guichets keep theirs. */
  lemma DestroyGood(w: World, i: nat)
    requires Good(w) && i < |w.wickets|
    ensures Good(AfterDestroy(w, i)) && (Settled(w) ==> Settled(AfterDestroy(w, i)))
    ensures forall c, o :: Locked(AfterDestroy(w, i).store.outside, c, o) <==>
      Locked(w.store.outside, c, o) && o != w.wickets[i].id
  {
    var k := w.wickets[i];
    ReleaseProper(w.store, k);
    var s := Release(w.store, k).store;
    OutsideOfSound(w.store, s);
    WithoutSafe(w, i, s);
    forall j | 0 <= j < |w.wickets| - 1 && Settled(w) ensures InOrder(s, Without(w, i, s).wickets[j]) {
      assert InOrder(w.store, w.wickets[if j < i then j else j + 1]);
    }
  }

  lemma LoadKeepsLocks(s: State, doc: Value)
    ensures AfterLoad(s, doc).state.outside == s.outside
  {
  }

  lemma StoreLoadGood(w: World, doc: Value)
    requires Good(w) && Sound(AfterLoad(w.store, doc).state)
    ensures Good(AfterReload(w, doc).world)
  {
    LoadKeepsLocks(w.store, doc);
    EachGood(w, AfterLoad(w.store, doc).state, CATEGORIES, AfterLoad(w.store, doc).fired);
  }

  lemma EachGood(w: World, s: State, cats: seq<Category>, fired: set<Category>)
    requires LocksSafe(w) && s.outside == w.store.outside && Sound(s)
    ensures Good(DeliverEach(w.(store := s), cats, fired).world)
  {
    StoreSafe(w, s);
    DeliverEachSafe(w.(store := s), cats, fired);
    OutsideOfSound(s, DeliverEach(w.(store := s), cats, fired).world.store);
  }

  /** Every event keeps the store sound and the locks safe, and keeps all the guichets in
      order unless the telling of a change was cut short by a guichet that refused it, or the store
      was loaded anew. */
  lemma StepGood(w: World, e: Event)
    requires Good(w) && Admissible(w, e)
    ensures Good(Step(w, e).world) && (!e.StoreLoad? ==> GoodStep(w, Step(w, e)))
  {
    match e
    case StoreLoad(doc) => StoreLoadGood(w, doc);
    case StoreAdd(_, _, _) => StoreEventGood(w, e);
    case StoreUpdate(_, _, _) => StoreEventGood(w, e);
    case StoreDelete(_) => StoreEventGood(w, e);
    case StoreClear => StoreClearGood(w);
    case Create(k) => CreateGood(w, k);
    case SaveAs(i, name, refs) =>
      if i < |w.wickets| {
        SaveAsGood(w, i, name, refs);
      }
    case Destroy(i) =>
      if i < |w.wickets| {
        DestroyGood(w, i);
      }
    case _ => TurnGood(w, e);
  }

  lemma TurnGood(w: World, e: Event)
    requires Good(w) && ForOne(e) && Admissible(w, e)
    ensures GoodStep(w, Step(w, e))
  {
    if e.i < |w.wickets| {
      TurnKept(w, e);
      ReplaceGood(w, e.i, TurnOf(w, e));
    }
  }

  // ------------------------------------------------------------------ when everyone is told

  predicate TakenBy(w: World, s: State, ok: bool, cat: Category) {
    ok ==> Complete(s.content) && AllTake(s.content, w.wickets, cat, 0)
  }

  /** The guichets told of the change that an event makes, if it makes one, all take the
      configurations that the change leaves selected. */
  ghost predicate Taken(w: World, e: Event) {
    match e
    case StoreAdd(c, config, refs) => var (s, ok) := AfterAdd(w.store, c, config, refs); TakenBy(w, s, ok, c.cat)
    case StoreUpdate(c, config, refs) => var (s, ok) := AfterUpdate(w.store, c, config, refs); TakenBy(w, s, ok, c.cat)
    case StoreDelete(c) => var (s, ok) := AfterDelete(w.store, c); TakenBy(w, s, ok, c.cat)
    case SaveAs(i, name, refs) =>
      i < |w.wickets| && name != "" ==>
        var k := w.wickets[i];
        var (s, ok) := AfterAdd(w.store, Coordinates(k.categ, name), k.adopted, refs);
        TakenBy(w, s, ok, k.categ)
    case StoreLoad(doc) =>
      var l := AfterLoad(w.store, doc);
      Complete(l.state.content) && AllTakeEach(l.state.content, w.wickets, CATEGORIES, l.fired)
    case _ => true
  }

  lemma AddedIff(w: World, c: Coordinates, config: Value, refs: UsingSet)
    requires Good(w)
    ensures var (s, ok) := AfterAdd(w.store, c, config, refs);
      AddAndAnnounce(w, c, config, refs).delivered <==> TakenBy(w, s, ok, c.cat)
  {
    var (s, ok) := AfterAdd(w.store, c, config, refs);
    AddLaw(w.store, c, config, refs);
    AnnounceIff(w, s, ok, c.cat);
  }

  lemma UpdatedIff(w: World, c: Coordinates, config: Value, refs: UsingSet)
    requires Good(w)
    ensures var (s, ok) := AfterUpdate(w.store, c, config, refs);
      Announce(w, s, ok, c.cat).delivered <==> TakenBy(w, s, ok, c.cat)
  {
    var (s, ok) := AfterUpdate(w.store, c, config, refs);
    UpdateLaw(w.store, c, config, refs);
    AnnounceIff(w, s, ok, c.cat);
  }

  lemma DeletedIff(w: World, c: Coordinates)
    requires Good(w)
    ensures var (s, ok) := AfterDelete(w.store, c); Announce(w, s, ok, c.cat).delivered <==> TakenBy(w, s, ok, c.cat)
  {
    var (s, ok) := AfterDelete(w.store, c);
    DeleteLaw(w.store, c);
    AnnounceIff(w, s, ok, c.cat);
  }

  lemma SavedAsIff(w: World, i: nat, name: string, refs: UsingSet)
    requires Good(w) && i < |w.wickets| && name != ""
    ensures var k := w.wickets[i];
      var (s, ok) := AfterAdd(w.store, Coordinates(k.categ, name), k.adopted, refs);
      AfterSaveAs(w, i, name, refs).delivered <==> TakenBy(w, s, ok, k.categ)
  {
    var k := w.wickets[i];
    AddedIff(w, Coordinates(k.categ, name), k.adopted, refs);
    AddGood(w, Coordinates(k.categ, name), k.adopted, refs);
  }

  /** An emptied store refuses itself to nobody. */
  lemma ClearedIsTold(w: World)
    requires Good(w)
    ensures Step(w, StoreClear).delivered
  {
    ClearedGood(w);
    NothingRefused(w.(store := AfterClear(w.store)), CATEGORIES, set cat | cat in CATEGORIES);
  }

  lemma NothingRefused(w: World, cats: seq<Category>, fired: set<Category>)
    requires LocksSafe(w) && forall cat: Category :: w.store.content[cat] == map[]
    ensures DeliverEach(w, cats, fired).delivered
  {
    DeliverEachIff(w, cats, fired);
    forall cat, j | 0 <= j < |w.wickets| ensures !RefusedHere(w.store.content, w.wickets, cat, j) {
    }
  }

  lemma LoadedIff(w: World, doc: Value)
    requires LocksSafe(w) && Complete(AfterLoad(w.store, doc).state.content)
    ensures var l := AfterLoad(w.store, doc);
      AfterReload(w, doc).delivered <==> AllTakeEach(l.state.content, w.wickets, CATEGORIES, l.fired)
  {
    LoadKeepsLocks(w.store, doc);
    EachTold(w, AfterLoad(w.store, doc).state, CATEGORIES, AfterLoad(w.store, doc).fired);
  }

  lemma EachTold(w: World, s: State, cats: seq<Category>, fired: set<Category>)
    requires LocksSafe(w) && s.outside == w.store.outside && Complete(s.content)
    ensures DeliverEach(w.(store := s), cats, fired).delivered <==> AllTakeEach(s.content, w.wickets, cats, fired)
  {
    StoreSafe(w, s);
    DeliverEachIff(w.(store := s), cats, fired);
  }

  /** Everyone is told of a change if and only if they all take what it leaves them. */
  lemma StepDeliveredIff(w: World, e: Event)
    requires Good(w) && Admissible(w, e)
    ensures Step(w, e).delivered <==> Taken(w, e)
  {
    match e
    case StoreAdd(c, config, refs) => AddedIff(w, c, config, refs);
    case StoreUpdate(c, config, refs) => UpdatedIff(w, c, config, refs);
    case StoreDelete(c) => DeletedIff(w, c);
    case StoreClear => ClearedIsTold(w);
    case StoreLoad(doc) => LoadedIff(w, doc);
    case SaveAs(i, name, refs) =>
      if i < |w.wickets| && name != "" {
        SavedAsIff(w, i, name, refs);
      }
    case _ =>
  }

  // ------------------------------------------------------------------ when all stay in order

  /** The guichets that are not told of a change, because one before them refuses it, agree with the
      store all the same. */
  ghost predicate KeptBy(w: World, s: State, ok: bool, cat: Category) {
    ok ==>
      && Complete(s.content)
      && forall j {:trigger RefusedBefore(s.content, w.wickets, cat, 0, j)} :: 0 <= j < |w.wickets| ==>
          w.wickets[j].categ == cat && RefusedBefore(s.content, w.wickets, cat, 0, j) ==> InOrder(s, w.wickets[j])
  }

  /** So do those that are not told of a store loaded anew. */
  ghost predicate KeptByLoad(w: World, s: State, cats: seq<Category>, fired: set<Category>) {
    && Complete(s.content)
    && forall j {:trigger Untold(s.content, w.wickets, cats, fired, j)} :: 0 <= j < |w.wickets| ==>
        Untold(s.content, w.wickets, cats, fired, j) ==> InOrder(s, w.wickets[j])
  }

  /** The guichets that an event does not tell of the change it makes, if it makes one, agree with the
      store all the same. */
  ghost predicate Keeps(w: World, e: Event) {
    match e
    case StoreAdd(c, config, refs) => var (s, ok) := AfterAdd(w.store, c, config, refs); KeptBy(w, s, ok, c.cat)
    case StoreUpdate(c, config, refs) => var (s, ok) := AfterUpdate(w.store, c, config, refs); KeptBy(w, s, ok, c.cat)
    case StoreDelete(c) => var (s, ok) := AfterDelete(w.store, c); KeptBy(w, s, ok, c.cat)
    case SaveAs(i, name, refs) =>
      i < |w.wickets| && name != "" ==>
        var k := w.wickets[i];
        var (s, ok) := AfterAdd(w.store, Coordinates(k.categ, name), k.adopted, refs);
        KeptBy(w, s, ok, k.categ)
    case StoreLoad(doc) => KeptByLoad(w, AfterLoad(w.store, doc).state, CATEGORIES, AfterLoad(w.store, doc).fired)
    case _ => true
  }

  lemma AnnouncedKeeps(w: World, s: State, ok: bool, cat: Category)
    requires LocksSafe(w) && s.outside == w.store.outside && Complete(s.content) && Settled(w)
    requires forall d: Coordinates :: !ok || d.cat != cat ==> ConfigOf(s.content, d) == ConfigOf(w.store.content, d)
    ensures Settled(Announce(w, s, ok, cat).world) <==> KeptBy(w, s, ok, cat)
  {
    if ok {
      AnnounceSettledIff(w, s, cat);
    } else {
      AnnounceSafe(w, s, ok, cat);
    }
  }

  lemma AddedKeeps(w: World, c: Coordinates, config: Value, refs: UsingSet)
    requires Good(w) && Settled(w)
    ensures var (s, ok) := AfterAdd(w.store, c, config, refs);
      Settled(AddAndAnnounce(w, c, config, refs).world) <==> KeptBy(w, s, ok, c.cat)
  {
    AddLaw(w.store, c, config, refs);
    var (s, ok) := AfterAdd(w.store, c, config, refs);
    AnnouncedKeeps(w, s, ok, c.cat);
  }

  lemma UpdatedKeeps(w: World, c: Coordinates, config: Value, refs: UsingSet)
    requires Good(w) && Settled(w)
    ensures Settled(Step(w, StoreUpdate(c, config, refs)).world) <==> Keeps(w, StoreUpdate(c, config, refs))
  {
    UpdateLaw(w.store, c, config, refs);
    var (s, ok) := AfterUpdate(w.store, c, config, refs);
    AnnouncedKeeps(w, s, ok, c.cat);
  }

  lemma DeletedKeeps(w: World, c: Coordinates)
    requires Good(w) && Settled(w)
    ensures Settled(Step(w, StoreDelete(c)).world) <==> Keeps(w, StoreDelete(c))
  {
    DeleteLaw(w.store, c);
    var (s, ok) := AfterDelete(w.store, c);
    AnnouncedKeeps(w, s, ok, c.cat);
  }

  lemma SavedAsKeeps(w: World, i: nat, name: string, refs: UsingSet)
    requires Good(w) && Settled(w) && i < |w.wickets| && name != ""
    ensures Settled(Step(w, SaveAs(i, name, refs)).world) <==> Keeps(w, SaveAs(i, name, refs))
  {
    var k := w.wickets[i];
    var c := Coordinates(k.categ, name);
    AddedKeeps(w, c, k.adopted, refs);
    AddGood(w, c, k.adopted, refs);
    SaveAsGood(w, i, name, refs);
    AddedIff(w, c, k.adopted, refs);
    if AddAndAnnounce(w, c, k.adopted, refs).r.Done? {
      NobodyRefuses(w, AfterAdd(w.store, c, k.adopted, refs).0, k.categ);
    }
  }

  lemma NobodyRefuses(w: World, s: State, cat: Category)
    requires Complete(s.content) && AllTake(s.content, w.wickets, cat, 0)
    ensures KeptBy(w, s, true, cat)
  {
  }

  lemma LoadedKeeps(w: World, doc: Value)
    requires LocksSafe(w) && Complete(AfterLoad(w.store, doc).state.content)
    ensures var l := AfterLoad(w.store, doc);
      Settled(AfterReload(w, doc).world) <==> KeptByLoad(w, l.state, CATEGORIES, l.fired)
  {
    LoadKeepsLocks(w.store, doc);
    AllCategories(CATEGORIES);
    EachKeeps(w, AfterLoad(w.store, doc).state, CATEGORIES, AfterLoad(w.store, doc).fired);
  }

  lemma EachKeeps(w: World, s: State, cats: seq<Category>, fired: set<Category>)
    requires LocksSafe(w) && s.outside == w.store.outside && Complete(s.content) && DistinctCategories(cats)
    ensures Settled(DeliverEach(w.(store := s), cats, fired).world) <==> KeptByLoad(w, s, cats, fired)
  {
    var after := DeliverEach(w.(store := s), cats, fired).world;
    StoreSafe(w, s);
    DeliverEachSafe(w.(store := s), cats, fired);
    forall j | 0 <= j < |w.wickets|
      ensures InOrder(after.store, after.wickets[j]) <==>
        (Untold(s.content, w.wickets, cats, fired, j) ==> InOrder(s, w.wickets[j]))
    {
      DeliverEachAt(w.(store := s), cats, fired, j);
      SameContentInOrder(s, after.store, after.wickets[j]);
    }
  }

  /** Guichets in order stay so over an event if and only if those it leaves alone agree with the store
      it leaves. */
  lemma StepSettledIff(w: World, e: Event)
    requires Good(w) && Settled(w) && Admissible(w, e)
    ensures Settled(Step(w, e).world) <==> Keeps(w, e)
  {
    match e
    case StoreAdd(c, config, refs) => AddedKeeps(w, c, config, refs);
    case StoreUpdate(c, config, refs) => UpdatedKeeps(w, c, config, refs);
    case StoreDelete(c) => DeletedKeeps(w, c);
    case StoreClear => ClearedIsTold(w); StepGood(w, e);
    case StoreLoad(doc) => LoadedKeeps(w, doc);
    case SaveAs(i, name, refs) =>
      if i < |w.wickets| && name != "" {
        SavedAsKeeps(w, i, name, refs);
      }
    case _ => StepGood(w, e);
  }

  // ------------------------------------------------------------------ when someone is not

  /** An accepted update that a guichet refuses leaves a later one, which follows the configuration
      too, selecting it and holding its former definition. */
  lemma UpdateCutShort(w: World, c: Coordinates, config: Value, refs: UsingSet, i: nat, j: nat)
    requires Good(w) && Settled(w) && i < j < |w.wickets| && w.wickets[i].categ == c.cat && w.wickets[j].categ == c.cat
    requires w.wickets[i].choice == w.wickets[j].choice == Some(c.confname) && c.confname != MANUAL_ID
    requires AfterUpdate(w.store, c, config, refs).1 && !w.wickets[i].fit.accepts(config)
    requires config != Entry(w.store.content, c).config
    ensures var after := Step(w, StoreUpdate(c, config, refs)).world;
      && |after.wickets| == |w.wickets| && after.wickets[j] == w.wickets[j] && !InOrder(after.store, after.wickets[j])
      && ConfigOf(after.store.content, c) == Some(config) &&
         after.wickets[j].adopted == Entry(w.store.content, c).config
  {
    var (s, ok) := AfterUpdate(w.store, c, config, refs);
    UpdateLaw(w.store, c, config, refs);
    assert ConfigOf(s.content, c) == Some(config);
    assert RefusedHere(s.content, w.wickets, c.cat, i);
    AnnounceOrder(w, s, c.cat, j);
  }

  // ------------------------------------------------------------------ all runs

  ghost function Run(w: World, events: seq<Event>): World
    decreases |events|
  {
    if events == [] then w else Run(Step(w, events[0]).world, events[1..])
  }

  ghost predicate AllAdmissible(w: World, events: seq<Event>)
    decreases |events|
  {
    events == [] || (Admissible(w, events[0]) && AllAdmissible(Step(w, events[0]).world, events[1..]))
  }

  /** Each event leaves in order those it does not tell, when its turn comes. */
  ghost predicate AllKeep(w: World, events: seq<Event>)
    decreases |events|
  {
    events == [] || (Keeps(w, events[0]) && AllKeep(Step(w, events[0]).world, events[1..]))
  }

  /** The guichets are in order all along the run. */
  ghost predicate SettledAlong(w: World, events: seq<Event>)
    decreases |events|
  {
    Settled(w) && (events == [] || SettledAlong(Step(w, events[0]).world, events[1..]))
  }

  lemma {:induction false} RunGood(w: World, events: seq<Event>)
    requires Good(w) && AllAdmissible(w, events)
    ensures Good(Run(w, events))
    ensures Settled(w) ==> (SettledAlong(w, events) <==> AllKeep(w, events))
    ensures SettledAlong(w, events) ==> Settled(Run(w, events))
    decreases |events|
  {
    if events != [] {
      StepGood(w, events[0]);
      RunGood(Step(w, events[0]).world, events[1..]);
      if Settled(w) {
        StepSettledIff(w, events[0]);
      }
    }
  }

  const NOTHING: World := World(INITIAL, [])

  /** In every run from an empty store and no guichet, reloads of the store included, the locks of the
      store are exactly those the guichets know of, one each at most; and all along the run each
      guichet that follows a configuration holds its present definition if and only if no event
      leaves behind a guichet that it does not tell. */
  lemma AlwaysGood(events: seq<Event>)
    requires AllAdmissible(NOTHING, events)
    ensures Good(Run(NOTHING, events))
    ensures SettledAlong(NOTHING, events) <==> AllKeep(NOTHING, events)
    ensures AllKeep(NOTHING, events) ==> Settled(Run(NOTHING, events))
  {
    InitialSound();
    RunGood(NOTHING, events);
  }

  // ------------------------------------------------------------------ one run that leaves a guichet behind

  lemma AdmissibleOn(w: World, events: seq<Event>, e: Event)
    requires AllAdmissible(w, events) && Admissible(Run(w, events), e)
    ensures AllAdmissible(w, events + [e]) && Run(w, events + [e]) == Step(Run(w, events), e).world
    decreases |events|
  {
    if events != [] {
      assert (events + [e])[1..] == events[1..] + [e];
      AdmissibleOn(Step(w, events[0]).world, events[1..], e);
    } else {
      assert (events + [e])[1..] == [];
    }
  }

  /** A new guichet offers the configurations there are and follows none. */
  lemma CreatedWicket(w: World, k: Wicket)
    requires Good(w) && Settled(w) && Admissible(w, Create(k))
    ensures Step(w, Create(k)).world ==
      w.(wickets := w.wickets + [k.(offered := w.store.content[k.categ].Keys, choice := None)])
    ensures Good(Step(w, Create(k)).world) && Settled(Step(w, Create(k)).world)
  {
    CreateGood(w, k);
  }

  /** A guichet selects a configuration that its component takes. */
  lemma SelectedWicket(w: World, i: nat, name: string)
    requires Good(w) && Settled(w) && i < |w.wickets| && w.wickets[i].choice == None && name != MANUAL_ID && name != ""
    requires Acceptable(w.store, w.wickets[i], Coordinates(w.wickets[i].categ, name))
    ensures var w' := Step(w, Select(i, name)).world;
      && Good(w') && Settled(w') && |w'.wickets| == |w.wickets| && w'.store.content == w.store.content
      && (forall j :: 0 <= j < |w.wickets| && j != i ==> w'.wickets[j] == w.wickets[j])
      && w'.wickets[i].choice == Some(name) && w'.wickets[i].categ == w.wickets[i].categ &&
         w'.wickets[i].fit == w.wickets[i].fit
  {
    var k := w.wickets[i];
    TurnGood(w, Select(i, name));
    TurnKept(w, Select(i, name));
    OnSelectProper(w.store, k.(choice := Some(name)));
    assert InOrder(w.store, k);
  }

  /** Any guichet that starts following a configuration to which it objects once it is updated
      leaves behind those registered later that follow it too. */
  lemma LeftBehind(c: Coordinates, was: Value, now: Value, first: Wicket, second: Wicket) returns (events: seq<Event>)
    requires c.confname != "" && c.confname != MANUAL_ID && now != was && first.id != second.id
    requires forall k :: k in [first, second] ==>
      k.categ == c.cat && k.choice == None && k.locked == "" && k.fit.accepts(was)
    requires !first.fit.accepts(now)
    ensures AllAdmissible(NOTHING, events) && Good(Run(NOTHING, events)) && !Settled(Run(NOTHING, events))
  {
    InitialSound();
    events := [];
    var w0 := NOTHING;
    var e1 := StoreAdd(c, was, {});
    var w1 := Step(w0, e1).world;
    FirstStored(c, was);
    AdmissibleOn(w0, events, e1);
    events := events + [e1];
    var w2 := TwoCreated(w1, first, second);
    AdmissibleOn(w0, events, Create(first));
    events := events + [Create(first)];
    AdmissibleOn(w0, events, Create(second));
    events := events + [Create(second)];
    SelectedWicket(w2, 0, c.confname);
    AdmissibleOn(w0, events, Select(0, c.confname));
    events := events + [Select(0, c.confname)];
    var w3 := Step(w2, Select(0, c.confname)).world;
    SelectedWicket(w3, 1, c.confname);
    AdmissibleOn(w0, events, Select(1, c.confname));
    events := events + [Select(1, c.confname)];
    var w4 := Step(w3, Select(1, c.confname)).world;
    UpdateAllowed(w4.store, c, now);
    UpdateCutShort(w4, c, now, {}, 0, 1);
    StepGood(w4, StoreUpdate(c, now, {}));
    AdmissibleOn(w0, events, StoreUpdate(c, now, {}));
    events := events + [StoreUpdate(c, now, {})];
  }

  lemma FirstStored(c: Coordinates, config: Value)
    requires c.confname != ""
    ensures var w := Step(NOTHING, StoreAdd(c, config, {})).world;
      Good(w) && Settled(w) && w.wickets == [] && ConfigOf(w.store.content, c) == Some(config)
  {
    InitialSound();
    AddLaw(INITIAL, c, config, {});
    AddGood(NOTHING, c, config, {});
  }

  lemma TwoCreated(w: World, first: Wicket, second: Wicket) returns (w': World)
    requires Good(w) && Settled(w) && w.wickets == [] && first.id != second.id
    requires first.choice == second.choice == None && first.locked == second.locked == ""
    ensures Admissible(w, Create(first)) && Admissible(Step(w, Create(first)).world, Create(second))
    ensures w' == Step(Step(w, Create(first)).world, Create(second)).world && Good(w') && Settled(w')
    ensures w'.store == w.store && |w'.wickets| == 2 && w'.wickets[0].choice == w'.wickets[1].choice == None
    ensures w'.wickets[0].categ == first.categ && w'.wickets[1].categ == second.categ
    ensures w'.wickets[0].fit == first.fit && w'.wickets[1].fit == second.fit
  {
    CreatedWicket(w, first);
    CreatedWicket(Step(w, Create(first)).world, second);
    w' := Step(Step(w, Create(first)).world, Create(second)).world;
  }

  /** Relying on nothing is always allowed. */
  lemma UpdateAllowed(s: State, c: Coordinates, config: Value)
    requires Sound(s) && Has(s.content, c)
    ensures AfterUpdate(s, c, config, {}).1
  {
    UpdateLaw(s, c, config, {});
    WithoutUserEdges(s.content, c);
    WithUserEdges(WithoutUser(s.content, c), c, {});
    FewerEdgesAcyclic(s.content, Relinked(s.content, c, {}));
  }

  // ------------------------------------------------------------------ reloading the store

  /** The store's document is read to its end, whether or not it has all the categories. */
  predicate ReadToEnd(doc: Value) {
    match Unwrap(doc)
    case None => false
    case Some(Header(version, id, config)) =>
      id == CLASS_ID && version <= FORMAT_VERSION &&
      match (At(config, GLOBALPROP_LABEL), At(config, CATEGPROP_LABEL))
      case (Some(global), Some(categories)) =>
        BoolAt(global, AUTOSAVE_LABEL).Some? && categories.Arr? && LoadTable(categories.items).ok
      case _ => false
  }

  lemma LoadedFrom(s: State, doc: Value) returns (items: seq<Value>)
    requires ReadToEnd(doc)
    ensures var l := AfterLoad(s, doc);
      && l.state.outside == s.outside && l.state.content == Filled(LoadTable(items).content)
      && l.fired == LoadTable(items).fired
  {
    items := At(Unwrap(doc).value.config, CATEGPROP_LABEL).value.items;
  }

  lemma LoadedState(s: State, doc: Value)
    requires ReadToEnd(doc)
    ensures var l := AfterLoad(s, doc);
      && l.state.outside == s.outside && Complete(l.state.content)
      && forall cat: Category :: l.state.content[cat] != map[] ==> cat in l.fired
  {
    var items := LoadedFrom(s, doc);
    var sections := seq(|items|, i requires 0 <= i < |items| => ParseSection(items[i]));
    assert LoadTable(items) == LoadSections(sections);
    ReceivedIsAnnounced(sections);
  }

  /** A document refused on the way is told to nobody; one read to its end leaves all categories there
      and is told to all concerned if and only if they take what it has for them. */
  lemma ReloadTold(w: World, doc: Value)
    ensures !ReadToEnd(doc) ==> !AfterLoad(w.store, doc).ok && AfterLoad(w.store, doc).fired == {}
    ensures ReadToEnd(doc) ==> Complete(AfterLoad(w.store, doc).state.content)
    ensures LocksSafe(w) && ReadToEnd(doc) ==>
      (AfterReload(w, doc).delivered <==>
        AllTakeEach(AfterLoad(w.store, doc).state.content, w.wickets, CATEGORIES, AfterLoad(w.store, doc).fired))
  {
    if ReadToEnd(doc) {
      LoadedState(w.store, doc);
      if LocksSafe(w) {
        EachTold(w, AfterLoad(w.store, doc).state, CATEGORIES, AfterLoad(w.store, doc).fired);
      }
    }
  }

  /** Of a guichet in order whose category received nothing, once the store is loaded anew: it is
      still in order if and only if it follows nothing and its list was already empty. */
  lemma ReloadOrder(w: World, doc: Value, i: nat)
    requires LocksSafe(w) && Settled(w) && i < |w.wickets| && ReadToEnd(doc)
    requires w.wickets[i].categ !in AfterLoad(w.store, doc).fired
    ensures var e, k := AfterReload(w, doc), w.wickets[i];
      && |e.world.wickets| == |w.wickets| && e.world.wickets[i] == k
      && (InOrder(e.world.store, k) <==> k.choice == None && k.offered == {})
  {
    var l := AfterLoad(w.store, doc);
    LoadedState(w.store, doc);
    EachLeaves(w, l.state, CATEGORIES, l.fired, i);
  }

  lemma EachLeaves(w: World, s: State, cats: seq<Category>, fired: set<Category>, i: nat)
    requires LocksSafe(w) && s.outside == w.store.outside && Complete(s.content) && i < |w.wickets|
    requires Settled(w) && w.wickets[i].categ !in fired && s.content[w.wickets[i].categ] == map[]
    ensures var after, k := DeliverEach(w.(store := s), cats, fired).world, w.wickets[i];
      && |after.wickets| == |w.wickets| && after.wickets[i] == k
      && (InOrder(after.store, k) <==> k.choice == None && k.offered == {})
  {
    StoreSafe(w, s);
    DeliverEachSafe(w.(store := s), cats, fired);
    SameContentInOrder(s, DeliverEach(w.(store := s), cats, fired).world.store, w.wickets[i]);
    assert InOrder(w.store, w.wickets[i]);
  }
}
