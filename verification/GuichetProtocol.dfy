/** What a guichet does on each event, told as functions on values: it follows at most one
    stored configuration of its category, locking it in the store while it does, and takes
    that configuration again each time the store announces a change. */
module GuichetProtocol {
  import opened Json
  import opened ConfigTable
  import Components
  import opened ConfigStore

  /** The identifier of the first entry of the selection list, the manual mode. */
  const MANUAL_ID := "0"

  /** The adopted component: which documents it accepts, what a refused one leaves in it, and
      what it holds once cleared. */
  datatype Fitting = Fitting(accepts: Value -> bool, residue: (Value, Value) -> Value, blank: Value)

  /** choice is the configuration selected (None in manual mode), offered the names that can be
      selected, adopted what the adopted component holds, locked the name locked in the store
      (empty when there is none). */
  datatype Wicket = Wicket(
    id: Owner, categ: Category, fit: Fitting,
    choice: Option<string>, offered: set<string>, adopted: Value, locked: string, clearAdopted: bool)

  datatype Turn = Turn(store: State, w: Wicket, r: Outcome)

  function LockOf(w: Wicket): Coordinates {
    Coordinates(w.categ, w.locked)
  }

  function Release(s: State, w: Wicket): Turn {
    if w.locked == "" then Turn(s, w, Done)
    else
      var (s', ok) := AfterUnlock(s, LockOf(w), w.id);
      if ok then Turn(s', w.(locked := ""), Done) else Turn(s, w, Bug)
  }

  /** An exception met while following a configuration: back to manual mode, keeping what the
      component holds. */
  function GiveUp(s: State, w: Wicket, r: Outcome): Turn {
    var t := Release(s, w.(clearAdopted := false, choice := None));
    if t.r.Done? then t.(r := r) else t
  }

  /** Lets go of the configuration followed so far, takes the one named and locks it. */
  function Follow(s: State, w: Wicket, name: string): Turn {
    var t := Release(s, w);
    var c := Coordinates(w.categ, name);
    if !t.r.Done? then t
    else if w.categ !in s.content then t.(r := Bug)
    else if !Has(s.content, c) then t.(r := Refused)
    else
      var config := Entry(s.content, c).config;
      if !w.fit.accepts(config) then t.(w := t.w.(adopted := w.fit.residue(w.adopted, config)), r := Refused)
      else
        var w' := t.w.(adopted := config, locked := name);
        var (s', ok) := AfterLock(t.store, c, w.id);
        if ok then Turn(s', w', Done) else Turn(t.store, w', Bug)
  }

  function SetAdopted(s: State, w: Wicket, name: string): Turn {
    var t := Follow(s, w, name);
    if t.r.Done? then t else GiveUp(t.store, t.w, t.r)
  }

  /** The selection has just changed. */
  function OnSelect(s: State, w: Wicket): Turn {
    match w.choice
    case Some(name) => SetAdopted(s, w, name)
    case None =>
      var t := Release(s, w);
      if t.r.Done? && w.clearAdopted then t.(w := t.w.(adopted := w.fit.blank)) else t
  }

  function Choose(s: State, w: Wicket, choice: Option<string>): Turn {
    if choice == w.choice then Turn(s, w, Done) else OnSelect(s, w.(choice := choice))
  }

  /** The entry that an identifier designates is the first that bears it. */
  function ChooseId(s: State, w: Wicket, id: string, unknown: Outcome): Turn {
    if id == MANUAL_ID then Choose(s, w, None)
    else if id in w.offered then Choose(s, w, Some(id))
    else Turn(s, w, unknown)
  }

  /** The list rebuilt with new names; a name equal to the manual identifier cannot be kept. */
  function Relisted(w: Wicket, names: set<string>): Wicket {
    var kept := if w.choice.Some? && w.choice.value in names && w.choice.value != MANUAL_ID then w.choice else None;
    w.(offered := names, choice := kept)
  }

  /** The store announced a change: the list is rebuilt, the selection kept if it can be, and
      a configuration that was selected is handled again as if it had just been. */
  function UpdateSelected(s: State, w: Wicket): Turn {
    if w.categ !in s.content then Turn(s, w, Bug)
    else
      var w' := Relisted(w, s.content[w.categ].Keys);
      if w.choice.None? then Turn(s, w', Done) else OnSelect(s, w')
  }

  function OnEdit(s: State, w: Wicket): Turn {
    if w.choice.None? then Turn(s, w, Bug) else Choose(s, w.(clearAdopted := false), None)
  }

  function OnClear(s: State, w: Wicket): Turn {
    if w.choice.None? then Turn(s, w.(adopted := w.fit.blank), Done) else Turn(s, w, Bug)
  }

  function ClearJson(s: State, w: Wicket): Turn {
    var t := Choose(s, w.(clearAdopted := true), None);
    if t.r.Done? then t.(w := t.w.(adopted := w.fit.blank)) else t
  }

  const GUICHET_VERSION: nat := 1

  function LoadAdopted(t: Turn, config: Option<Value>): Turn {
    match config
    case None => t.(r := Refused)
    case Some(j) =>
      if t.w.fit.accepts(j) then t.(w := t.w.(adopted := j))
      else t.(w := t.w.(adopted := t.w.fit.residue(t.w.adopted, j)), r := Refused)
  }

  function LoadManual(s: State, w: Wicket, config: Option<Value>): Turn {
    var t := Choose(s, w, None);
    if t.r.Done? then LoadAdopted(t, config) else t
  }

  function LoadByName(s: State, w: Wicket, cat: Option<string>, name: Option<string>): Turn {
    if cat.None? || name.None? || StringToCategory(cat.value) != Some(w.categ) then Turn(s, w, Refused)
    else
      var t := ChooseId(s, w, name.value, Refused);
      if t.r.Done? then UpdateSelected(t.store, t.w) else t
  }

  function LoadMode(s: State, w: Wicket, conf: Value, manual: bool): Turn {
    if manual then LoadManual(s, w, At(conf, Components.CONF_LABEL))
    else LoadByName(s, w, StringAt(conf, Components.CATEG_LABEL), StringAt(conf, Components.CONFNAME_LABEL))
  }

  /** The configuration and the mode that a saved guichet tells, if its document is accepted. */
  function Accepted(doc: Value): Option<(Value, bool)> {
    match Unwrap(doc)
    case None => None
    case Some(Header(version, id, conf)) =>
      var mode := BoolAt(conf, Components.MODE_LABEL);
      if id != Components.GUICHET_ID || version > GUICHET_VERSION || mode.None? then None else Some((conf, mode.value))
  }

  /** Loading a saved guichet: either a configuration of its own or the name to follow. */
  function LoadJson(s: State, w: Wicket, doc: Value): Turn {
    match Accepted(doc)
    case None => Turn(s, w, Refused)
    case Some((conf, manual)) =>
      var t := UpdateSelected(s, w);
      if t.r.Done? then LoadMode(t.store, t.w, conf, manual) else t
  }

  // ------------------------------------------------------------------ what holds of one guichet

  /** The locks held in the name of the guichet are just the one it knows of, if any. */
  ghost predicate LockExact(s: State, w: Wicket) {
    forall c :: Locked(s.outside, c, w.id) <==> w.locked != "" && c == LockOf(w)
  }

  /** In manual mode nothing is locked; otherwise the configuration selected is the one locked,
      it is stored, and the component holds its present definition. */
  predicate Handled(s: State, w: Wicket) {
    match w.choice
    case None => w.locked == ""
    case Some(name) =>
      var c := Coordinates(w.categ, name);
      w.locked == name && Has(s.content, c) && w.adopted == Entry(s.content, c).config
  }

  predicate Acceptable(s: State, w: Wicket, c: Coordinates) {
    Has(s.content, c) && w.fit.accepts(Entry(s.content, c).config)
  }

  /** The lock of the selection can be told apart from no lock: what is selected has a name, or its
      configuration will not be taken. */
  predicate Lockable(s: State, w: Wicket) {
    w.choice == Some("") ==> !Acceptable(s, w, Coordinates(w.categ, ""))
  }

  /** A guichet never changes what is stored, nor the locks of others. */
  ghost predicate OnlyOwnLocks(before: State, after: State, id: Owner) {
    && after == before.(outside := after.outside)
    && forall c, o :: o != id ==> (Locked(after.outside, c, o) <==> Locked(before.outside, c, o))
  }

  /** What every turn of a guichet guarantees, provided its lock was exact before. */
  ghost predicate Proper(s: State, w: Wicket, t: Turn) {
    && OnlyOwnLocks(s, t.store, w.id) && t.w.id == w.id && t.w.categ == w.categ && t.w.fit == w.fit
    && LockExact(t.store, t.w)
  }

  lemma UnlockEffect(s: State, c: Coordinates, o: Owner)
    ensures var (s', ok) := AfterUnlock(s, c, o);
      && (ok <==> Locked(s.outside, c, o))
      && s' == s.(outside := s'.outside)
      && forall d, p :: Locked(s'.outside, d, p) <==> Locked(s.outside, d, p) && !(ok && d == c && p == o)
  {
  }

  lemma LockEffect(s: State, c: Coordinates, o: Owner)
    ensures var (s', ok) := AfterLock(s, c, o);
      && (ok <==> Has(s.content, c) && !Locked(s.outside, c, o))
      && s' == s.(outside := s'.outside)
      && forall d, p :: Locked(s'.outside, d, p) <==> Locked(s.outside, d, p) || (ok && d == c && p == o)
  {
  }

  lemma ReleaseProper(s: State, w: Wicket)
    requires LockExact(s, w)
    ensures var t := Release(s, w);
      Proper(s, w, t) && t.r.Done? && t.w == w.(locked := "")
  {
    UnlockEffect(s, LockOf(w), w.id);
  }

  /** Once the selection has been dealt with, whether the configuration was taken or refused,
      the guichet is in order; it never meets an internal error. */
  lemma OnSelectProper(s: State, w: Wicket)
    requires LockExact(s, w) && Lockable(s, w) && w.categ in s.content
    ensures var t := OnSelect(s, w);
      && Proper(s, w, t) && Handled(t.store, t.w) && !t.r.Bug? && t.w.offered == w.offered
      && (t.r.Done? ==> t.w.choice == w.choice) && (t.r.Refused? ==> t.w.choice == None)
      && (t.r.Done? <==> w.choice.None? || Acceptable(s, w, Coordinates(w.categ, w.choice.value)))
  {
    ReleaseProper(s, w);
    var t := Release(s, w);
    match w.choice
    case None =>
    case Some(name) =>
      var c := Coordinates(w.categ, name);
      if Has(s.content, c) {
        LockEffect(t.store, c, w.id);
      }
  }

  predicate Tidy(w: Wicket) {
    (w.choice.None? ==> w.locked == "") && w.choice != Some("")
  }

  /** A guichet in order: its list is that of the store, and its selection is handled. */
  predicate InOrder(s: State, w: Wicket) {
    w.categ in s.content && w.offered == s.content[w.categ].Keys && Handled(s, w)
  }

  /** A turn that keeps a guichet tidy, its lock exact, and in order if it was. */
  ghost predicate Kept(s: State, w: Wicket, t: Turn) {
    Proper(s, w, t) && Tidy(t.w) && (InOrder(s, w) ==> InOrder(t.store, t.w))
  }

  lemma ChooseKept(s: State, w: Wicket, choice: Option<string>)
    requires LockExact(s, w) && Tidy(w) && w.categ in s.content && Lockable(s, w.(choice := choice))
    ensures var t := Choose(s, w, choice);
      Kept(s, w, t) && !t.r.Bug? && (t.r.Done? ==> t.w.choice == choice)
  {
    if choice != w.choice {
      OnSelectProper(s, w.(choice := choice));
    }
  }

  /** Handling a change of the store puts any guichet in order, whatever the change was. */
  lemma UpdateProper(s: State, w: Wicket)
    requires LockExact(s, w) && w.categ in s.content
    requires Tidy(w)
    ensures var t := UpdateSelected(s, w);
      Proper(s, w, t) && InOrder(t.store, t.w) && !t.r.Bug?
  {
    if w.choice.Some? {
      OnSelectProper(s, Relisted(w, s.content[w.categ].Keys));
    }
  }

  /** The configuration that the rebuilt list leaves selected, if any, is one the component takes. */
  predicate Takes(t: Table, w: Wicket)
    requires w.categ in t
  {
    match Relisted(w, t[w.categ].Keys).choice
    case None => true
    case Some(name) => w.fit.accepts(Entry(t, Coordinates(w.categ, name)).config)
  }

  /** Handling a change succeeds if and only if the component takes what stays selected, and would
      succeed again. */
  lemma UpdateTakes(s: State, w: Wicket)
    requires LockExact(s, w) && w.categ in s.content && Tidy(w)
    ensures UpdateSelected(s, w).r.Done? <==> Takes(s.content, w)
    ensures UpdateSelected(s, w).r.Done? ==> var t := UpdateSelected(s, w);
      t.w.categ == w.categ && t.w.choice == Relisted(w, s.content[w.categ].Keys).choice && Takes(s.content, t.w)
  {
    UpdateProper(s, w);
    if w.choice.Some? {
      OnSelectProper(s, Relisted(w, s.content[w.categ].Keys));
    }
  }

  lemma LoadManualKept(s: State, w: Wicket, config: Option<Value>)
    requires LockExact(s, w) && Tidy(w) && w.categ in s.content
    ensures Kept(s, w, LoadManual(s, w, config)) && !LoadManual(s, w, config).r.Bug?
  {
    ChooseKept(s, w, None);
  }

  lemma ChooseIdKept(s: State, w: Wicket, id: string, unknown: Outcome)
    requires LockExact(s, w) && Tidy(w) && w.categ in s.content
    requires id in w.offered ==> Lockable(s, w.(choice := Some(id)))
    ensures Kept(s, w, ChooseId(s, w, id, unknown))
    ensures !unknown.Bug? ==> !ChooseId(s, w, id, unknown).r.Bug?
  {
    if id == MANUAL_ID || id in w.offered {
      ChooseKept(s, w, if id == MANUAL_ID then None else Some(id));
    }
  }

  /** Handling a change of the store after a turn that kept all in order does so too. */
  lemma ThenUpdated(s: State, w: Wicket, t: Turn)
    requires Kept(s, w, t) && w.categ in s.content
    ensures var u := UpdateSelected(t.store, t.w); Kept(s, w, u) && !u.r.Bug?
  {
    assert t.store.content == s.content;
    UpdateProper(t.store, t.w);
  }

  lemma LoadByNameKept(s: State, w: Wicket, cat: Option<string>, name: Option<string>)
    requires LockExact(s, w) && Tidy(w) && w.categ in s.content
    requires name.Some? && cat.Some? && StringToCategory(cat.value) == Some(w.categ) ==> Lockable(s, w.(choice := name))
    ensures Kept(s, w, LoadByName(s, w, cat, name)) && !LoadByName(s, w, cat, name).r.Bug?
  {
    if name.Some? && cat.Some? && StringToCategory(cat.value) == Some(w.categ) {
      ChooseIdKept(s, w, name.value, Refused);
      ThenUpdated(s, w, ChooseId(s, w, name.value, Refused));
    }
  }

  /** The name that a saved guichet tells to follow, if any. */
  function NameToFollow(w: Wicket, doc: Value): Option<string> {
    match Accepted(doc)
    case Some((conf, false)) =>
      if StringAt(conf, Components.CATEG_LABEL) ==
        Some(CategoryToString(w.categ)) then StringAt(conf, Components.CONFNAME_LABEL)
      else None
    case _ => None
  }

  lemma LoadModeKept(s: State, w: Wicket, conf: Value, manual: bool)
    requires LockExact(s, w) && Tidy(w) && w.categ in s.content
    requires !manual && StringAt(conf, Components.CATEG_LABEL) == Some(CategoryToString(w.categ)) ==>
      Lockable(s, w.(choice := StringAt(conf, Components.CONFNAME_LABEL)))
    ensures Kept(s, w, LoadMode(s, w, conf, manual)) && !LoadMode(s, w, conf, manual).r.Bug?
  {
    if manual {
      LoadManualKept(s, w, At(conf, Components.CONF_LABEL));
    } else {
      LoadByNameKept(s, w, StringAt(conf, Components.CATEG_LABEL), StringAt(conf, Components.CONFNAME_LABEL));
    }
  }

  lemma KeptOn(s: State, w: Wicket, t: Turn, u: Turn)
    requires Kept(s, w, t) && Kept(t.store, t.w, u)
    ensures Kept(s, w, u)
  {
  }

  lemma LoadJsonKept(s: State, w: Wicket, doc: Value)
    requires LockExact(s, w) && Tidy(w) && w.categ in s.content
    requires Lockable(s, w.(choice := NameToFollow(w, doc)))
    ensures Kept(s, w, LoadJson(s, w, doc)) && !LoadJson(s, w, doc).r.Bug?
  {
    match Accepted(doc)
    case None =>
    case Some((conf, manual)) =>
      UpdateProper(s, w);
      var t := UpdateSelected(s, w);
      if t.r.Done? {
        LoadModeKept(t.store, t.w, conf, manual);
        KeptOn(s, w, t, LoadMode(t.store, t.w, conf, manual));
      }
  }

  /** A selection leaves the lock exact if and only if what is selected has a name or is not taken:
      with an empty name the lock taken is not the one the guichet knows of. */
  lemma EmptyNameLosesLock(s: State, w: Wicket)
    requires LockExact(s, w) && w.categ in s.content
    ensures LockExact(OnSelect(s, w).store, OnSelect(s, w).w) <==> Lockable(s, w)
  {
    if Lockable(s, w) {
      OnSelectProper(s, w);
    } else {
      var c := Coordinates(w.categ, "");
      ReleaseProper(s, w);
      LockEffect(Release(s, w).store, c, w.id);
      assert Locked(OnSelect(s, w).store.outside, c, w.id);
    }
  }
}
