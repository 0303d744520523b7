/** What a guichet ends up holding after each event: the selection, its lock in the store, and the
    configuration in its component. */
module GuichetLaws {
  import opened Json
  import opened ConfigTable
  import opened ConfigStore
  import opened GuichetProtocol

  /** The locks are those of the others and, if one is given, that one of the guichet. */
  ghost predicate LocksOnly(s: State, s': State, id: Owner, own: Option<Coordinates>) {
    && s' == s.(outside := s'.outside)
    && forall c, o :: Locked(s'.outside, c, o) <==> if o == id then own == Some(c) else Locked(s.outside, c, o)
  }

  /** The lock the guichet knows of is released; it is an internal error, which changes nothing, if there is
      no such lock. */
  lemma ReleaseEffect(s: State, w: Wicket)
    ensures var t := Release(s, w);
      if w.locked != "" && !Locked(s.outside, LockOf(w), w.id) then t == Turn(s, w, Bug)
      else
        && t.r.Done? && t.w == w.(locked := "") && t.store == s.(outside := t.store.outside)
        && forall c, o :: Locked(t.store.outside, c, o) <==>
             Locked(s.outside, c, o) && !(w.locked != "" && c == LockOf(w) && o == w.id)
  {
    UnlockEffect(s, LockOf(w), w.id);
  }

  /** Letting go of what was followed: nothing locked, and the component blank only if it is to be. */
  lemma ManualEffect(s: State, w: Wicket)
    requires LockExact(s, w) && w.choice == None
    ensures var t := OnSelect(s, w);
      && t.r.Done? && LocksOnly(s, t.store, w.id, None)
      && t.w == w.(locked := "", adopted := if w.clearAdopted then w.fit.blank else w.adopted)
  {
    ReleaseProper(s, w);
  }

  /** Following a configuration. Taken, it is what the component holds, and it is locked. Refused, it
      has left in the component what refusals leave; missing, it has changed nothing there: either way
      nothing is selected or locked then, and what the component holds is not to be blanked. */
  lemma SelectedEffect(s: State, w: Wicket)
    requires LockExact(s, w) && Lockable(s, w) && w.categ in s.content && w.choice.Some?
    ensures var t, c := OnSelect(s, w), Coordinates(w.categ, w.choice.value);
      if Acceptable(s, w, c) then
        && t.r.Done? && LocksOnly(s, t.store, w.id, Some(c))
        && t.w == w.(adopted := Entry(s.content, c).config, locked := w.choice.value)
      else
        && t.r.Refused? && LocksOnly(s, t.store, w.id, None)
        && t.w == w.(choice := None, locked := "", clearAdopted := false, adopted :=
                     if Has(s.content, c) then w.fit.residue(w.adopted, Entry(s.content, c).config) else w.adopted)
  {
    ReleaseProper(s, w);
    var c := Coordinates(w.categ, w.choice.value);
    if Has(s.content, c) {
      LockEffect(Release(s, w).store, c, w.id);
    }
  }

  /** In a store that lacks the category, as after a loading that failed, both are internal errors; what was
      followed is let go all the same, and the component keeps what it holds. */
  lemma CategoryMissing(s: State, w: Wicket)
    requires LockExact(s, w) && w.categ !in s.content
    ensures UpdateSelected(s, w) == Turn(s, w, Bug)
    ensures w.choice.Some? ==> var t := OnSelect(s, w);
      && t.r.Bug? && LocksOnly(s, t.store, w.id, None) && t.w == w.(choice := None, locked := "", clearAdopted := false)
  {
    ReleaseProper(s, w);
  }

  /** A lock that the guichet has and does not know of, as the one of an empty name: following that name again
      is an internal error, after which the component holds the configuration, and the lock is gone unless the
      name is empty. */
  lemma AlreadyLocked(s: State, w: Wicket)
    requires w.choice.Some? && w.locked == "" && w.categ in s.content
    requires var c := Coordinates(w.categ, w.choice.value); Acceptable(s, w, c) && Locked(s.outside, c, w.id)
    ensures var t, c := OnSelect(s, w), Coordinates(w.categ, w.choice.value);
      && t.r.Bug? && t.w.choice == None && !t.w.clearAdopted && t.w.adopted == Entry(s.content, c).config
      && t.store == s.(outside := t.store.outside)
      && forall d, o :: Locked(t.store.outside, d, o) <==>
           Locked(s.outside, d, o) && !(w.choice.value != "" && d == c && o == w.id)
  {
    var c := Coordinates(w.categ, w.choice.value);
    LockEffect(s, c, w.id);
    UnlockEffect(s, c, w.id);
  }

  /** The edit button, while a configuration is followed: it is not any more, and the component still
      holds what is stored under its name. It does nothing else in manual mode than fail. */
  lemma EditEffect(s: State, w: Wicket)
    requires LockExact(s, w) && InOrder(s, w)
    ensures var t := OnEdit(s, w);
      match w.choice
      case None => t == Turn(s, w, Bug)
      case Some(name) =>
        && t.r.Done? && LocksOnly(s, t.store, w.id, None)
        && t.w == w.(choice := None, locked := "", clearAdopted := false)
        && t.w.adopted == Entry(s.content, Coordinates(w.categ, name)).config
  {
    if w.choice.Some? {
      ManualEffect(s, w.(choice := None, clearAdopted := false));
    }
  }

  /** Choosing the manual mode from the list: after a rendering the component ends blank. Between an
      edit, or a refusal, and the next rendering it keeps what it holds. */
  lemma ManualChosen(s: State, w: Wicket)
    requires LockExact(s, w) && w.choice.Some?
    ensures var t := ChooseId(s, w, "0", Done);
      && t.r.Done? && LocksOnly(s, t.store, w.id, None)
      && t.w == w.(choice := None, locked := "", adopted := if w.clearAdopted then w.fit.blank else w.adopted)
  {
    ManualEffect(s, w.(choice := None));
  }

  /** Choosing a name from the list, which does nothing if it is selected already or not listed. */
  lemma NameChosen(s: State, w: Wicket, name: string, unknown: Outcome)
    requires LockExact(s, w) && w.categ in s.content && name != "0" && Lockable(s, w.(choice := Some(name)))
    ensures var t, c := ChooseId(s, w, name, unknown), Coordinates(w.categ, name);
      if name !in w.offered then t == Turn(s, w, unknown)
      else if w.choice == Some(name) then t == Turn(s, w, Done)
      else if Acceptable(s, w, c) then
        && t.r.Done? && LocksOnly(s, t.store, w.id, Some(c))
        && t.w == w.(choice := Some(name), adopted := Entry(s.content, c).config, locked := name)
      else t.r.Refused? && LocksOnly(s, t.store, w.id, None) && t.w.choice == None && t.w.locked == ""
  {
    if name in w.offered && w.choice != Some(name) {
      SelectedEffect(s, w.(choice := Some(name)));
    }
  }

  /** Clearing by the button, in manual mode only, and clearing as a part of something else, which
      leaves the manual mode too: the component is blank. */
  lemma ClearEffect(s: State, w: Wicket)
    requires LockExact(s, w) && Tidy(w)
    ensures OnClear(s, w) == if w.choice == None then Turn(s, w.(adopted := w.fit.blank), Done) else Turn(s, w, Bug)
    ensures var t := ClearJson(s, w);
      && t.r.Done? && LocksOnly(s, t.store, w.id, None)
      && t.w == w.(choice := None, locked := "", clearAdopted := true, adopted := w.fit.blank)
  {
    if w.choice.Some? {
      ManualEffect(s, w.(choice := None, clearAdopted := true));
    }
  }

  /** The store has changed. In manual mode the list alone follows it. Otherwise a name that is still
      stored, is not "0" and is taken is held and locked anew; one that is gone or cannot be kept ends in
      manual mode, and one that is refused too. */
  lemma UpdateEffect(s: State, w: Wicket)
    requires LockExact(s, w) && Tidy(w) && w.categ in s.content
    ensures var t, names := UpdateSelected(s, w), s.content[w.categ].Keys;
      match w.choice
      case None => t == Turn(s, w.(offered := names), Done)
      case Some(name) =>
        var c := Coordinates(w.categ, name);
        if name !in names || name == "0" then
          && t.r.Done? && LocksOnly(s, t.store, w.id, None)
          && t.w == w.(offered := names, choice := None, locked := "",
                       adopted := if w.clearAdopted then w.fit.blank else w.adopted)
        else if w.fit.accepts(Entry(s.content, c).config) then
          && t.r.Done? && LocksOnly(s, t.store, w.id, Some(c))
          && t.w == w.(offered := names, adopted := Entry(s.content, c).config, locked := name)
        else
          && t.r.Refused? && LocksOnly(s, t.store, w.id, None)
          && t.w == w.(offered := names, choice := None, locked := "", clearAdopted := false,
                       adopted := w.fit.residue(w.adopted, Entry(s.content, c).config))
  {
    if w.choice.Some? {
      var w' := Relisted(w, s.content[w.categ].Keys);
      if w'.choice.Some? {
        SelectedEffect(s, w');
      } else {
        ManualEffect(s, w');
      }
    }
  }

  // ------------------------------------------------------------------ loading

  /** The document of a guichet, of which conf is the configuration. */
  ghost predicate Tells(doc: Value, conf: Value, manual: bool) {
    match Unwrap(doc)
    case None => false
    case Some(h) =>
      && h.id == "guichet" && h.version <= 1 && h.config == conf
      && BoolAt(conf, "manual-mode") == Some(manual)
  }

  /** Any other document is refused and changes nothing. */
  lemma OtherRefused(s: State, w: Wicket, doc: Value)
    requires forall conf, manual :: !Tells(doc, conf, manual)
    ensures LoadJson(s, w, doc) == Turn(s, w, Refused)
  {
    if Unwrap(doc).Some? {
      var conf := Unwrap(doc).value.config;
      assert !Tells(doc, conf, true) && !Tells(doc, conf, false);
    }
  }

  /** What the component holds once the list is rebuilt and the manual mode chosen. */
  function LeftAlone(t: Table, w: Wicket): Value
    requires w.categ in t
  {
    if w.choice == None then w.adopted
    else if w.clearAdopted then w.fit.blank
    else
      match Relisted(w, t[w.categ].Keys).choice
      case None => w.adopted
      case Some(name) => Entry(t, Coordinates(w.categ, name)).config
  }

  lemma ThenManual(s: State, w: Wicket)
    requires LockExact(s, w) && Tidy(w) && w.categ in s.content && Takes(s.content, w)
    ensures var u := UpdateSelected(s, w); var t := Choose(u.store, u.w, None);
      && u.r.Done? && t.r.Done? && LocksOnly(s, t.store, w.id, None)
      && t.w.choice == None && t.w.locked == "" && t.w.adopted == LeftAlone(s.content, w) && t.w.fit == w.fit
  {
    UpdateEffect(s, w);
    UpdateProper(s, w);
    var u := UpdateSelected(s, w);
    if u.w.choice.Some? {
      ManualEffect(u.store, u.w.(choice := None));
    }
  }

  /** A document in manual mode ends well if and only if the configuration followed so far, if any, was
      dealt with and the component takes the configuration in the document, which is then what it
      holds. Whatever follows the rebuilding of the list, nothing is selected or locked any more. */
  lemma LoadOwnEffect(s: State, w: Wicket, doc: Value, conf: Value)
    requires LockExact(s, w) && Tidy(w) && w.categ in s.content && Tells(doc, conf, true)
    ensures var t, own := LoadJson(s, w, doc), At(conf, "config");
      && (t.r.Done? <==> Takes(s.content, w) && own.Some? && w.fit.accepts(own.value)) && !t.r.Bug?
      && (t.r.Done? ==> t.w.adopted == own.value)
      && (t.r.Refused? && Takes(s.content, w) ==>
            t.w.adopted == if own.Some? then w.fit.residue(LeftAlone(s.content, w), own.value)
              else LeftAlone(s.content, w))
      && t.w.choice == None && t.w.locked == "" && LocksOnly(s, t.store, w.id, None)
  {
    UpdateTakes(s, w);
    UpdateEffect(s, w);
    if Takes(s.content, w) {
      ThenManual(s, w);
    }
  }

  /** How following the name told ends. */
  ghost predicate EndsNamed(s: State, w: Wicket, name: string, t: Turn) {
    var c := Coordinates(w.categ, name);
    && !t.r.Bug? && (t.r.Done? <==> name == "0" || Acceptable(s, w, c))
    && (t.r.Done? && name != "0" ==>
          t.w.choice == Some(name) && t.w.adopted == Entry(s.content, c).config && LocksOnly(s, t.store, w.id, Some(c)))
    && (t.r.Done? && name == "0" ==>
          t.w.choice == None && w.categ in s.content && t.w.adopted == LeftAlone(s.content, w) &&
          LocksOnly(s, t.store, w.id, None))
  }

  /** One that names a configuration ends with it selected if and only if the one followed so far was
      dealt with, the category is right, and the name is not "0" and that of a stored configuration that
      the component takes, which is then what it holds. The name "0" is taken for the manual mode. */
  lemma LoadNamedEffect(s: State, w: Wicket, doc: Value, conf: Value)
    requires LockExact(s, w) && Tidy(w) && w.categ in s.content && Tells(doc, conf, false)
    requires Lockable(s, w.(choice := NameToFollow(w, doc)))
    ensures var t, cat, name := LoadJson(s, w, doc), StringAt(conf, "category"), StringAt(conf, "configname");
      if Takes(s.content, w) && cat == Some(CategoryToString(w.categ)) && name.Some? then EndsNamed(s, w, name.value, t)
      else t.r.Refused?
  {
    UpdateTakes(s, w);
    UpdateProper(s, w);
    if Takes(s.content, w) {
      ThenNamed(s, w, StringAt(conf, "category"), StringAt(conf, "configname"));
    }
  }

  lemma ThenNamed(s: State, w: Wicket, cat: Option<string>, name: Option<string>)
    requires LockExact(s, w) && Tidy(w) && w.categ in s.content && Takes(s.content, w)
    requires cat == Some(CategoryToString(w.categ)) && name.Some? ==> Lockable(s, w.(choice := name))
    ensures var u := UpdateSelected(s, w); var t := LoadByName(u.store, u.w, cat, name);
      if cat == Some(CategoryToString(w.categ)) && name.Some? then EndsNamed(s, w, name.value, t) else t.r.Refused?
  {
    var u := UpdateSelected(s, w);
    if cat == Some(CategoryToString(w.categ)) && name.Some? {
      if name == Some("0") {
        NamedManual(s, w, u);
      } else {
        NamedOther(s, w, u, name.value);
      }
    }
  }

  lemma NamedManual(s: State, w: Wicket, u: Turn)
    requires LockExact(s, w) && Tidy(w) && w.categ in s.content && Takes(s.content, w) && u == UpdateSelected(s, w)
    ensures var t := ChooseId(u.store, u.w, "0", Refused);
      t.r.Done? && EndsNamed(s, w, "0", UpdateSelected(t.store, t.w))
  {
    ThenManual(s, w);
    UpdateProper(s, w);
    UpdateEffect(ChooseId(u.store, u.w, "0", Refused).store, ChooseId(u.store, u.w, "0", Refused).w);
  }

  lemma NamedOther(s: State, w: Wicket, u: Turn, name: string)
    requires LockExact(s, w) && Tidy(w) && w.categ in s.content && Takes(s.content, w) && u == UpdateSelected(s, w)
    requires name != "0" && Lockable(s, w.(choice := Some(name)))
    ensures var t := ChooseId(u.store, u.w, name, Refused);
      EndsNamed(s, w, name, if t.r.Done? then UpdateSelected(t.store, t.w) else t)
  {
    Updated(s, w, u);
    NameChosen(u.store, u.w, name, Refused);
    var t := ChooseId(u.store, u.w, name, Refused);
    if t.r.Done? {
      assert t.w.choice == Some(name);
      UpdateEffect(t.store, t.w);
    }
  }

  /** Once the list is rebuilt, without a refusal. */
  lemma Updated(s: State, w: Wicket, u: Turn)
    requires LockExact(s, w) && Tidy(w) && w.categ in s.content && Takes(s.content, w) && u == UpdateSelected(s, w)
    ensures LockExact(u.store, u.w) && Tidy(u.w) && u.store.content == s.content &&
      u.w.offered == s.content[w.categ].Keys
    ensures u.w.id == w.id && u.w.categ == w.categ && u.w.fit == w.fit && u.store == s.(outside := u.store.outside)
    ensures forall c, o :: o != w.id ==> (Locked(u.store.outside, c, o) <==> Locked(s.outside, c, o))
    ensures u.w.choice.Some? ==> u.w.choice == w.choice && u.w.locked == w.choice.value
  {
    UpdateEffect(s, w);
    UpdateProper(s, w);
  }
}
