/** The guichet as an object working on a shared store, and the session that holds the store
    with its guichets and delivers the changes. Each call is proved to do what the protocol
    says of it. */
module Guichets {
  import opened Json
  import opened ConfigTable
  import Components
  import opened StoreJson
  import opened ConfigStore
  import opened GuichetProtocol
  import opened SessionProtocol

  class Guichet {
    const id: Owner
    const categ: Category
    const fit: Fitting
    const biblio: Bibliotheque

    var adopted: Value
    var currentlyLocked: string
    var ignoreEvents: bool
    var clearAdopted: bool
    /** The identifiers of the selection list, the first being the manual mode. */
    var choices: seq<string>
    var selected: nat

    predicate ListValid()
      reads this`choices, this`selected
    {
      && |choices| > 0 && choices[0] == MANUAL_ID
      && selected < |choices| && (selected > 0 ==> choices[selected] != MANUAL_ID)
      && forall i, j :: 1 <= i < j < |choices| ==> choices[i] != choices[j]
    }

    predicate Valid()
      reads this
    {
      ListValid() && !ignoreEvents
    }

    function ChoiceAt(k: nat): Option<string>
      requires k < |choices|
      reads this`choices
    {
      if k == 0 then None else Some(choices[k])
    }

    ghost function View(): Wicket
      requires ListValid()
      reads this
    {
      Wicket(id, categ, fit, ChoiceAt(selected), (set n | n in choices[1..]), adopted, currentlyLocked, clearAdopted)
    }

    constructor (id: Owner, categ: Category, fit: Fitting, biblio: Bibliotheque, adopted: Value)
      requires categ in biblio.content
      ensures Valid() && fresh(this)
      ensures this.id == id && this.categ == categ && this.fit == fit && this.biblio == biblio
      ensures View() == Wicket(id, categ, fit, None, biblio.content[categ].Keys, adopted, "", true)
    {
      this.id, this.categ, this.fit, this.biblio, this.adopted := id, categ, fit, biblio, adopted;
      currentlyLocked, ignoreEvents, clearAdopted := "", false, true;
      choices, selected := [MANUAL_ID], 0;
      new;
      var found, available := biblio.Listing(categ);
      choices := [MANUAL_ID] + available;
      assert choices[1..] == available;
    }

    /** Moves the selection, which is an event when it really moves and events are heeded. */
    method SetSelectedNum(x: nat) returns (r: Outcome)
      requires Valid() && x < |choices| && (x > 0 ==> choices[x] != MANUAL_ID)
      modifies this, biblio
      ensures Valid()
      ensures Turn(biblio.View(), View(), r) == Choose(old(biblio.View()), old(View()), old(ChoiceAt(x)))
      decreases x, 2
    {
      r := Done;
      if x != selected {
        selected := x;
        r := OnEventSelect();
      }
    }

    method OnEventSelect() returns (r: Outcome)
      requires Valid()
      modifies this, biblio
      ensures Valid()
      ensures Turn(biblio.View(), View(), r) == OnSelect(old(biblio.View()), old(View()))
      decreases selected, 1
    {
      if selected == 0 {
        if currentlyLocked != "" {
          r := biblio.DeleteExternalRefTo(Coordinates(categ, currentlyLocked), id);
          if !r.Done? {
            return;
          }
          currentlyLocked := "";
        }
        if clearAdopted {
          adopted := fit.blank;
        }
        r := Done;
      } else {
        r := SetAdopted();
      }
    }

    method SetAdopted() returns (r: Outcome)
      requires Valid() && selected > 0
      modifies this, biblio
      ensures Valid()
      ensures Turn(biblio.View(), View(), r) == GuichetProtocol.SetAdopted(old(biblio.View()), old(View()),
        old(choices[selected]))
      decreases selected, 0
    {
      r := Follow(choices[selected]);
      if !r.Done? {
        clearAdopted := false;
        var r' := SetSelectedNum(0);
        if !r'.Done? {
          r := r';
        }
      }
    }

    method Follow(name: string) returns (r: Outcome)
      requires Valid()
      modifies this`adopted, this`currentlyLocked, biblio
      ensures Turn(biblio.View(), View(), r) == GuichetProtocol.Follow(old(biblio.View()), old(View()), name)
    {
      if currentlyLocked != "" {
        r := biblio.DeleteExternalRefTo(Coordinates(categ, currentlyLocked), id);
        if !r.Done? {
          return;
        }
        currentlyLocked := "";
      }
      var config;
      r, config := biblio.FetchConfig(Coordinates(categ, name));
      if !r.Done? {
        return;
      }
      if !fit.accepts(config) {
        adopted := fit.residue(adopted, config);
        return Refused;
      }
      adopted := config;
      currentlyLocked := name;
      r := biblio.AddExternalRefTo(Coordinates(categ, name), id);
    }

    /** The first entry of the list that bears an identifier. */
    method Find(identifier: string) returns (x: nat)
      requires ListValid()
      ensures x <= |choices| && forall k :: 0 <= k < x ==> choices[k] != identifier
      ensures x < |choices| ==> choices[x] == identifier
    {
      x := 0;
      while x < |choices| && choices[x] != identifier
        invariant x <= |choices| && forall k :: 0 <= k < x ==> choices[k] != identifier
      {
        x := x + 1;
      }
    }

    method SetSelectedId(identifier: string, unknown: Outcome) returns (r: Outcome)
      requires Valid()
      modifies this, biblio
      ensures Valid()
      ensures Turn(biblio.View(), View(), r) == ChooseId(old(biblio.View()), old(View()), identifier, unknown)
    {
      var x := Find(identifier);
      if x < |choices| {
        assert x > 0 ==> choices[x] == choices[1..][x - 1];
        r := SetSelectedNum(x);
      } else {
        r := unknown;
      }
    }

    /** Rebuilds the list, without heeding the moves of the selection that this makes; the
        selection stays on the same identifier when the new list has it. */
    method RebuildList(available: seq<string>)
      requires Valid() && forall i, j :: 0 <= i < j < |available| ==> available[i] != available[j]
      modifies this`choices, this`selected, this`ignoreEvents
      ensures Valid() && View() == Relisted(old(View()), set n | n in available)
    {
      var currentChoice := choices[selected];
      ignoreEvents := true;
      choices, selected := [MANUAL_ID], 0;
      var stillExists := false;
      for i := 0 to |available|
        invariant choices == [MANUAL_ID] + available[..i] && selected == 0 && ignoreEvents
        invariant stillExists <==> currentChoice in available[..i]
      {
        choices := choices + [available[i]];
        if available[i] == currentChoice {
          stillExists := true;
        }
      }
      if stillExists {
        var x := Find(currentChoice);
        assert currentChoice in choices[1..];
        selected := x;
      }
      ignoreEvents := false;
      assert choices[1..] == available;
    }

    /** The store has changed: the list follows it, and a configuration that was selected is
        handled again. */
    method UpdateSelected() returns (r: Outcome)
      requires Valid()
      modifies this, biblio
      ensures Valid()
      ensures Turn(biblio.View(), View(), r) == GuichetProtocol.UpdateSelected(old(biblio.View()), old(View()))
    {
      var manualMode := selected == 0;
      var found, available := biblio.Listing(categ);
      if !found.Done? {
        return found;
      }
      RebuildList(available);
      assert (set n | n in available) == biblio.content[categ].Keys;
      if manualMode {
        r := Done;
      } else {
        r := OnEventSelect();
      }
    }

    /** The name under which the component was just saved is selected. */
    method FollowNew(name: string) returns (r: Outcome)
      requires Valid()
      modifies this, biblio
      ensures Valid()
      ensures Turn(biblio.View(), View(), r) == SessionProtocol.FollowNew(old(biblio.View()), old(View()), name)
    {
      r := UpdateSelected();
      if r.Done? {
        r := SetSelectedId(name, Bug);
        if !r.Done? {
          r := Bug;
        }
      }
    }

    method OnEventEdit() returns (r: Outcome)
      requires Valid()
      modifies this, biblio
      ensures Valid()
      ensures Turn(biblio.View(), View(), r) == OnEdit(old(biblio.View()), old(View()))
    {
      if selected == 0 {
        return Bug;
      }
      clearAdopted := false;
      r := SetSelectedNum(0);
    }

    method OnEventClear() returns (r: Outcome)
      requires Valid()
      modifies this
      ensures Valid()
      ensures Turn(biblio.View(), View(), r) == OnClear(old(biblio.View()), old(View()))
    {
      if selected != 0 {
        return Bug;
      }
      adopted := fit.blank;
      r := Done;
    }

    method ClearJson() returns (r: Outcome)
      requires Valid()
      modifies this, biblio
      ensures Valid()
      ensures Turn(biblio.View(), View(), r) == GuichetProtocol.ClearJson(old(biblio.View()), old(View()))
    {
      clearAdopted := true;
      r := SetSelectedNum(0);
      if r.Done? {
        adopted := fit.blank;
      }
    }

    method LoadJson(doc: Value) returns (r: Outcome)
      requires Valid()
      modifies this, biblio
      ensures Valid()
      ensures Turn(biblio.View(), View(), r) == GuichetProtocol.LoadJson(old(biblio.View()), old(View()), doc)
    {
      var header := Unwrap(doc);
      if header.None? || header.value.id != Components.GUICHET_ID || header.value.version > GUICHET_VERSION {
        return Refused;
      }
      var conf := header.value.config;
      var mode := BoolAt(conf, Components.MODE_LABEL);
      if mode.None? {
        return Refused;
      }
      r := UpdateSelected();
      if !r.Done? {
        return;
      }
      if mode.value {
        r := LoadOwn(At(conf, Components.CONF_LABEL));
      } else {
        r := LoadNamed(StringAt(conf, Components.CATEG_LABEL), StringAt(conf, Components.CONFNAME_LABEL));
      }
    }

    method LoadOwn(config: Option<Value>) returns (r: Outcome)
      requires Valid()
      modifies this, biblio
      ensures Valid()
      ensures Turn(biblio.View(), View(), r) == LoadManual(old(biblio.View()), old(View()), config)
    {
      r := SetSelectedNum(0);
      if !r.Done? {
        return;
      }
      if config.None? {
        return Refused;
      }
      if fit.accepts(config.value) {
        adopted := config.value;
      } else {
        adopted := fit.residue(adopted, config.value);
        r := Refused;
      }
    }

    method LoadNamed(cat: Option<string>, name: Option<string>) returns (r: Outcome)
      requires Valid()
      modifies this, biblio
      ensures Valid()
      ensures Turn(biblio.View(), View(), r) == LoadByName(old(biblio.View()), old(View()), cat, name)
    {
      if cat.None? || name.None? || StringToCategory(cat.value) != Some(categ) {
        return Refused;
      }
      r := SetSelectedId(name.value, Refused);
      if r.Done? {
        r := UpdateSelected();
      }
    }

    /** The destructor. */
    method Destroy()
      requires Valid()
      modifies this, biblio
      ensures biblio.View() == Release(old(biblio.View()), old(View())).store
    {
      if currentlyLocked != "" {
        var r := biblio.DeleteExternalRefTo(Coordinates(categ, currentlyLocked), id);
        if r.Done? {
          currentlyLocked := "";
        }
      }
    }
  }

  /** A store together with the guichets registered on it, in the order of registration. */
  class Session {
    const biblio: Bibliotheque
    var guichets: seq<Guichet>

    ghost predicate Valid()
      reads this, guichets
    {
      && (forall i :: 0 <= i < |guichets| ==> guichets[i].Valid() && guichets[i].biblio == biblio)
      && (forall i, j :: 0 <= i < j < |guichets| ==> guichets[i] != guichets[j])
    }

    ghost function View(): World
      requires Valid()
      reads this, guichets, biblio
    {
      World(biblio.View(),
        seq(|guichets|, i requires 0 <= i < |guichets| &&
          guichets[i].ListValid() reads this, guichets => guichets[i].View()))
    }

    constructor ()
      ensures Valid() && fresh(this) && fresh(biblio) && View() == NOTHING
    {
      biblio := new Bibliotheque();
      guichets := [];
    }

    /** Tells the guichets of a category, in order, until one fails. */
    method Act(cat: Category) returns (r: Outcome, ghost delivered: bool)
      requires Valid()
      modifies biblio, guichets
      ensures Valid()
      ensures Ended(View(), r, delivered) == Deliver(old(View()), cat, 0)
    {
      var i := 0;
      while i < |guichets|
        invariant i <= |guichets| && Valid()
        invariant Deliver(View(), cat, i) == Deliver(old(View()), cat, 0)
      {
        if guichets[i].categ == cat {
          r := Tell(i);
          if !r.Done? {
            return r, false;
          }
        }
        i := i + 1;
      }
      r, delivered := Done, true;
    }

    method Tell(i: nat) returns (r: Outcome)
      requires Valid() && i < |guichets|
      modifies biblio, guichets[i]
      ensures Valid()
      ensures var t := GuichetProtocol.UpdateSelected(old(biblio.View()), old(guichets[i].View()));
        r == t.r && View() == Replace(old(View()), i, t)
    {
      r := guichets[i].UpdateSelected();
    }

    method FollowNew(i: nat, name: string) returns (r: Outcome)
      requires Valid() && i < |guichets|
      modifies biblio, guichets[i]
      ensures Valid()
      ensures var t := SessionProtocol.FollowNew(old(biblio.View()), old(guichets[i].View()), name);
        r == t.r && View() == Replace(old(View()), i, t)
    {
      r := guichets[i].FollowNew(name);
    }

    /** The call ends as the protocol says; where that is a refusal, it is an internal error instead
        if the store lacks categories. */
    ghost predicate Promised(w: World, e: Ended, w': World, r: Outcome, delivered: bool) {
      && w' == e.world && delivered == e.delivered
      && (r == e.r || (r == Bug && e.r == Refused && !Complete(w.store.content)))
    }

    method AddConfig(c: Coordinates, config: Value, refs: UsingSet) returns (r: Outcome, ghost delivered: bool)
      requires Valid()
      modifies biblio, guichets
      ensures Valid()
      ensures Promised(old(View()), Step(old(View()), StoreAdd(c, config, refs)), View(), r, delivered)
    {
      r := biblio.AddConfig(c, config, refs);
      assert View() == old(View()).(store := biblio.View());
      delivered := true;
      if r.Done? {
        r, delivered := Act(c.cat);
      }
    }

    method UpdateConfig(c: Coordinates, config: Value, refs: UsingSet) returns (r: Outcome, ghost delivered: bool)
      requires Valid()
      modifies biblio, guichets
      ensures Valid()
      ensures Promised(old(View()), Step(old(View()), StoreUpdate(c, config, refs)), View(), r, delivered)
    {
      r := biblio.UpdateConfig(c, config, refs);
      assert View() == old(View()).(store := biblio.View());
      delivered := true;
      if r.Done? {
        r, delivered := Act(c.cat);
      }
    }

    method DeleteConfig(c: Coordinates) returns (r: Outcome, ghost delivered: bool)
      requires Valid()
      modifies biblio, guichets
      ensures Valid()
      ensures Promised(old(View()), Step(old(View()), StoreDelete(c)), View(), r, delivered)
    {
      r := biblio.DeleteConfig(c);
      assert View() == old(View()).(store := biblio.View());
      delivered := true;
      if r.Done? {
        r, delivered := Act(c.cat);
      }
    }

    method ActEach(fired: set<Category>) returns (r: Outcome, ghost delivered: bool)
      requires Valid()
      modifies biblio, guichets
      ensures Valid()
      ensures Ended(View(), r, delivered) == DeliverEach(old(View()), CATEGORIES, fired)
    {
      r, delivered := Done, true;
      var cats := CATEGORIES;
      while cats != []
        invariant Valid()
        invariant DeliverEach(View(), cats, fired) == DeliverEach(old(View()), CATEGORIES, fired)
        decreases |cats|
      {
        if cats[0] in fired {
          r, delivered := Act(cats[0]);
          if !r.Done? {
            return;
          }
        }
        cats := cats[1..];
      }
      r, delivered := Done, true;
    }

    method Clear() returns (r: Outcome, ghost delivered: bool)
      requires Valid()
      modifies biblio, guichets
      ensures Valid()
      ensures Ended(View(), r, delivered) == Step(old(View()), StoreClear)
    {
      biblio.Clear();
      assert View() == old(View()).(store := biblio.View());
      r, delivered := ActEach(set cat | cat in CATEGORIES);
    }

    method LoadBiblio(doc: Value) returns (r: Outcome, fired: set<Category>)
      requires Valid()
      modifies biblio
      ensures Valid() && View() == old(View()).(store := AfterLoad(old(View()).store, doc).state)
      ensures fired == AfterLoad(old(View()).store, doc).fired
      ensures r == if AfterLoad(old(View()).store, doc).ok then Done else Refused
    {
      r, fired := biblio.LoadJson(doc);
      assert LoadStep(biblio.View(), r.Done?, fired) == AfterLoad(old(biblio.View()), doc);
      assert View() == old(View()).(store := biblio.View());
    }

    /** Loads the store; a document that is refused on the way tells nobody, one that lacks
        categories is complained about after the others were told. */
    method LoadStore(doc: Value) returns (r: Outcome, ghost delivered: bool)
      requires Valid()
      modifies biblio, guichets
      ensures Valid()
      ensures var e := AfterReload(old(View()), doc);
        && View() == e.world && delivered == e.delivered
        && r == if e.r.Done? && !AfterLoad(old(View()).store, doc).ok then Refused else e.r
    {
      var loaded, fired := LoadBiblio(doc);
      r, delivered := ActEach(fired);
      if r.Done? {
        r := loaded;
      }
    }

    method SaveAs(i: nat, name: string, refs: UsingSet) returns (r: Outcome, ghost delivered: bool)
      requires Valid() && i < |guichets|
      modifies biblio, guichets
      ensures Valid()
      ensures Promised(old(View()), AfterSaveAs(old(View()), i, name, refs), View(), r, delivered)
    {
      if name == "" {
        return Refused, true;
      }
      r, delivered := AddConfig(Coordinates(guichets[i].categ, name), guichets[i].adopted, refs);
      if r.Done? {
        r := FollowNew(i, name);
        delivered := true;
      }
    }
  }
}
