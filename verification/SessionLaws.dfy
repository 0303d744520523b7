/** What each event leaves in the store and in the guichets, told of the events themselves. */
module SessionLaws {
  import opened Json
  import opened ConfigTable
  import opened ConfigStore
  import opened StoreLaws
  import opened GuichetProtocol
  import opened GuichetLaws
  import opened SessionProtocol

  // ------------------------------------------------------------------ the store

  /** But for the locks the store is s. */
  ghost predicate SameBut(s: State, s': State) {
    s' == s.(outside := s'.outside)
  }

  /** Telling of a change takes and releases locks, and does nothing else to the store. */
  lemma {:induction false} DeliverStore(w: World, cat: Category, i: nat)
    requires LocksSafe(w)
    ensures SameBut(w.store, Deliver(w, cat, i).world.store)
    decreases |w.wickets| - i
  {
    if i < |w.wickets| {
      if w.wickets[i].categ != cat {
        DeliverStore(w, cat, i + 1);
      } else {
        DeliverOne(w, i);
        UpdateProper(w.store, w.wickets[i]);
        var t := UpdateSelected(w.store, w.wickets[i]);
        if t.r.Done? {
          DeliverStore(Replace(w, i, t), cat, i + 1);
        }
      }
    }
  }

  /** The call of the store that an event is. */
  function CallOf(e: Event): Op
    requires e.StoreAdd? || e.StoreUpdate? || e.StoreDelete?
  {
    match e
    case StoreAdd(c, config, refs) => Op.Add(c, config, refs)
    case StoreUpdate(c, config, refs) => Op.Update(c, config, refs)
    case StoreDelete(c) => Op.Delete(c)
  }

  lemma Announced(w: World, s: State, ok: bool, cat: Category)
    requires LocksSafe(w) && s.outside == w.store.outside && Complete(s.content)
    ensures var e := Announce(w, s, ok, cat);
      && SameBut(s, e.world.store) && (e.r.Done? <==> ok && AllTake(s.content, w.wickets, cat, 0)) && !e.r.Bug?
      && (!ok ==> e.world == w.(store := s))
  {
    StoreSafe(w, s);
    DeliverStore(w.(store := s), cat, 0);
    DeliverSafe(w.(store := s), cat, 0);
    DeliverIff(w.(store := s), cat, 0);
  }

  /** An event that is a call of the store leaves in it, but for the locks, what the call leaves. It ends
      well if and only if the call is accepted and the guichets of that category all take what it leaves
      them; a refused call tells nobody. */
  lemma EventIsCall(w: World, e: Event)
    requires Good(w) && (e.StoreAdd? || e.StoreUpdate? || e.StoreDelete?)
    ensures var (s, ok) := After(w.store, CallOf(e)); var end := Step(w, e);
      && Complete(s.content) && SameBut(s, end.world.store) && !end.r.Bug?
      && (end.r.Done? <==> ok && AllTake(s.content, w.wickets, e.c.cat, 0))
      && (!ok ==> end.world == w.(store := s))
  {
    var (s, ok) := After(w.store, CallOf(e));
    match e {
      case StoreAdd(c, config, refs) => AddLaw(w.store, c, config, refs);
      case StoreUpdate(c, config, refs) => UpdateLaw(w.store, c, config, refs);
      case StoreDelete(c) => DeleteLaw(w.store, c);
    }
    Announced(w, s, ok, e.c.cat);
  }

  lemma {:induction false} DeliverEachStore(w: World, cats: seq<Category>, fired: set<Category>)
    requires LocksSafe(w)
    ensures SameBut(w.store, DeliverEach(w, cats, fired).world.store)
    decreases |cats|
  {
    if cats != [] {
      if cats[0] !in fired {
        DeliverEachStore(w, cats[1..], fired);
      } else {
        DeliverStore(w, cats[0], 0);
        DeliverSafe(w, cats[0], 0);
        var e := Deliver(w, cats[0], 0);
        if e.r.Done? {
          DeliverEachStore(e.world, cats[1..], fired);
        }
      }
    }
  }

  /** All guichets are in manual mode with nothing to offer, and nothing is locked. */
  ghost predicate AllIdle(w: World) {
    && (forall j :: 0 <= j < |w.wickets| ==>
          w.wickets[j].choice == None && w.wickets[j].locked == "" && w.wickets[j].offered == {})
    && forall c, o :: !Locked(w.store.outside, c, o)
  }

  ghost predicate Emptied(w: World, end: Ended) {
    && end.r.Done? && |end.world.wickets| == |w.wickets| && AllIdle(end.world)
    && (forall c :: !Has(end.world.store.content, c)) && end.world.store.saved && end.world.store.autosave
  }

  /** Clearing leaves nothing stored and no lock, nobody refuses that, and all guichets end in manual mode
      with nothing to offer. */
  lemma AllCleared(w: World) returns (end: Ended)
    requires Good(w)
    ensures end == DeliverAll(w.(store := AfterClear(w.store))) && Emptied(w, end)
  {
    var w' := w.(store := AfterClear(w.store));
    ClearLaw(w.store);
    ClearedGood(w);
    DeliverEachStore(w', CATEGORIES, set cat | cat in CATEGORIES);
    NothingRefused(w', CATEGORIES, set cat | cat in CATEGORIES);
    EachSettled(w');
    end := DeliverAll(w');
    NothingHeld(end.world);
  }

  lemma EachSettled(w: World)
    requires Good(w) && DeliverAll(w).delivered
    ensures var e := DeliverAll(w);
      LocksSafe(e.world) && Settled(e.world) && |e.world.wickets| == |w.wickets| && e.r.Done?
  {
    DeliverEachSafe(w, CATEGORIES, set cat | cat in CATEGORIES);
    EveryoneTold(w);
  }

  /** So the event that clears the store leaves nothing in it. */
  lemma ClearedEvent(w: World)
    requires Good(w)
    ensures forall c :: !Has(Step(w, StoreClear).world.store.content, c)
  {
    var end := AllCleared(w);
    assert end == StoreStep(w, StoreClear);
  }

  lemma IsStored(t: Table, cat: Category, name: string)
    requires cat in t && name in t[cat]
    ensures Has(t, Coordinates(cat, name))
  {
  }

  lemma NothingOffered(t: Table, cat: Category)
    requires cat in t && forall c :: !Has(t, c)
    ensures t[cat] == map[]
  {
    if name :| name in t[cat] {
      IsStored(t, cat, name);
    }
  }

  /** Guichets in order over a store with nothing in it hold nothing. */
  lemma NothingHeld(w: World)
    requires LocksSafe(w) && Settled(w) && forall c :: !Has(w.store.content, c)
    ensures AllIdle(w)
  {
    forall j | 0 <= j < |w.wickets|
      ensures w.wickets[j].choice == None && w.wickets[j].locked == "" && w.wickets[j].offered == {}
    {
      var k := w.wickets[j];
      assert InOrder(w.store, k);
      NothingOffered(w.store.content, k.categ);
    }
    forall c, o ensures !Locked(w.store.outside, c, o) {
      if Locked(w.store.outside, c, o) {
        var i := HolderOf(w, c, o);
      }
    }
  }

  lemma HolderOf(w: World, c: Coordinates, o: Owner) returns (i: nat)
    requires LocksSafe(w) && Locked(w.store.outside, c, o)
    ensures i < |w.wickets| && w.wickets[i].locked != ""
  {
    i :| 0 <= i < |w.wickets| && w.wickets[i].id == o;
    assert LockExact(w.store, w.wickets[i]);
  }

  /** Saving under a new name, which must not be empty, stores what the component holds and records what it
      declares; a refusal leaves no trace. */
  lemma SaveAsStores(w: World, i: nat, name: string, refs: UsingSet)
    requires Good(w) && i < |w.wickets|
    ensures var k, end := w.wickets[i], Step(w, SaveAs(i, name, refs));
      var c := Coordinates(k.categ, name);
      if name != "" && !Has(w.store.content, c) && AllStored(w.store.content, refs) then
        && ConfigOf(end.world.store.content, c) == Some(k.adopted)
        && DirectDependencies(end.world.store.content, c) == refs && !end.world.store.saved
        && forall d :: d != c ==> ConfigOf(end.world.store.content, d) == ConfigOf(w.store.content, d)
      else end == Ended(w, Refused, true)
  {
    if name != "" {
      var k := w.wickets[i];
      var c := Coordinates(k.categ, name);
      var (s, ok) := AfterAdd(w.store, c, k.adopted, refs);
      AddLaw(w.store, c, k.adopted, refs);
      Announced(w, s, ok, c.cat);
      var e := AddAndAnnounce(w, c, k.adopted, refs);
      AddGood(w, c, k.adopted, refs);
      if e.r.Done? {
        FollowNewKept(e.world.store, e.world.wickets[i], name);
      }
    }
  }

  // ------------------------------------------------------------------ the guichets

  /** An event of one guichet leaves the others, what is stored and the locks of the others alone. */
  lemma OthersUntouched(w: World, e: Event)
    requires Good(w) && ForOne(e) && e.i < |w.wickets| && Admissible(w, e)
    ensures var w' := Step(w, e).world;
      && |w'.wickets| == |w.wickets| && SameBut(w.store, w'.store)
      && (forall j :: 0 <= j < |w.wickets| && j != e.i ==> w'.wickets[j] == w.wickets[j])
      && forall c, o :: o != w.wickets[e.i].id ==> (Locked(w'.store.outside, c, o) <==> Locked(w.store.outside, c, o))
  {
    TurnKept(w, e);
  }

  /** A new guichet comes last, in manual mode, with its component as it is and the names stored on offer. */
  lemma CreatedEvent(w: World, k: Wicket)
    requires Good(w) && k.choice == None
    ensures var end := Step(w, Create(k));
      && end.r.Done? && end.world.store == w.store && |end.world.wickets| == |w.wickets| + 1
      && end.world.wickets[..|w.wickets|] == w.wickets
      && var new_ := end.world.wickets[|w.wickets|];
         && new_ == k.(offered := new_.offered)
         && forall name :: name in new_.offered <==> Has(w.store.content, Coordinates(k.categ, name))
  {
  }

  /** A page that is shown, a name chosen that is not listed, and events of guichets that are not there. */
  lemma QuietEvents(w: World, i: nat, name: string)
    ensures i < |w.wickets| ==>
      Step(w, Rendered(i)) == Ended(World(w.store, w.wickets[i := w.wickets[i].(clearAdopted := true)]), Done, true)
    ensures i < |w.wickets| && name != "0" && name !in w.wickets[i].offered ==>
      Step(w, Select(i, name)) == Ended(w, Done, true)
    ensures i >= |w.wickets| ==> Step(w, Select(i, name)) == Ended(w, Done, true)
  {
    if i < |w.wickets| {
      assert w.wickets[i := w.wickets[i]] == w.wickets;
    }
  }

  /** The user chooses the manual mode from the list of a page that was shown: the component ends blank. */
  lemma ManualAfterRendering(w: World, i: nat)
    requires Good(w) && i < |w.wickets| && w.wickets[i].choice.Some?
    ensures var shown := Step(w, Rendered(i)).world;
      && |shown.wickets| == |w.wickets| && shown.store == w.store
      && var end := Step(shown, Select(i, "0"));
         && end.r.Done? && |end.world.wickets| == |w.wickets|
         && end.world.wickets[i].choice == None && end.world.wickets[i].adopted == w.wickets[i].fit.blank
  {
    ManualChosen(w.store, w.wickets[i].(clearAdopted := true));
  }

  /** The edit button, then a change by hand: the component held what is stored, which stays as it was, and
      holds the change. While a configuration is followed nothing is changed by hand. */
  lemma EditedByHand(w: World, i: nat, config: Value)
    requires Good(w) && i < |w.wickets| && w.wickets[i].choice.Some? && InOrder(w.store, w.wickets[i])
    ensures Step(w, Modify(i, config)) == Ended(w, Done, true)
    ensures var c := Coordinates(w.wickets[i].categ, w.wickets[i].choice.value); var edited := Step(w, Edit(i)).world;
      && Has(w.store.content, c) && |edited.wickets| == |w.wickets| && edited.store.content == w.store.content
      && edited.wickets[i].adopted == Entry(w.store.content, c).config && edited.wickets[i].choice == None
      && var changed := Step(edited, Modify(i, config)).world;
         && changed.store == edited.store && |changed.wickets| == |w.wickets|
         && changed.wickets[i] == edited.wickets[i].(adopted := config)
  {
    EditEffect(w.store, w.wickets[i]);
  }

  /** The clear button, and clearing as a part of something else: the component is blank. */
  lemma ClearedGuichet(w: World, i: nat)
    requires Good(w) && i < |w.wickets|
    ensures w.wickets[i].choice == None ==>
      Step(w, Blank(i)) == Ended(World(w.store, w.wickets[i := w.wickets[i].(adopted := w.wickets[i].fit.blank)]),
        Done, true)
    ensures var end := Step(w, ClearInto(i));
      && end.r.Done? && |end.world.wickets| == |w.wickets|
      && end.world.wickets[i].choice == None && end.world.wickets[i].adopted == w.wickets[i].fit.blank
  {
    ClearEffect(w.store, w.wickets[i]);
  }

  /** Loading a document into a guichet is its loading, told by LoadOwnEffect and LoadNamedEffect. */
  lemma LoadedInto(w: World, i: nat, doc: Value)
    requires i < |w.wickets|
    ensures var t, end := LoadJson(w.store, w.wickets[i], doc), Step(w, LoadInto(i, doc));
      end == Ended(World(t.store, w.wickets[i := t.w]), t.r, true)
  {
  }

  /** A guichet destroyed leaves the others, in the same order. */
  lemma DestroyedEvent(w: World, i: nat) returns (end: Ended)
    requires Good(w) && i < |w.wickets|
    ensures end == Step(w, Destroy(i)) && end.r.Done?
    ensures SameBut(w.store, end.world.store) && OthersRemain(w.wickets, end.world.wickets, i)
  {
    ReleaseProper(w.store, w.wickets[i]);
    WithoutOne(w, i, Release(w.store, w.wickets[i]).store);
    end := Ended(AfterDestroy(w, i), Done, true);
  }

  ghost predicate OthersRemain(before: seq<Wicket>, after: seq<Wicket>, i: nat) {
    && i < |before| == |after| + 1 && (forall j :: 0 <= j < i ==> after[j] == before[j])
    && forall j :: i <= j < |after| ==> after[j] == before[j + 1]
  }

  lemma WithoutOne(w: World, i: nat, s: State)
    requires i < |w.wickets|
    ensures OthersRemain(w.wickets, Without(w, i, s).wickets, i)
  {
  }
}
