/** What every run of store operations keeps: the dependency graph stays acyclic and closed,
    dependencies are the ones last given, locked and used configurations stay, and saving then
    loading brings everything back. Also what a refused update loses. */
module StoreLaws {
  import opened Json
  import opened ConfigTable
  import opened StoreJson
  import opened ConfigStore

  datatype Op =
    | Add(c: Coordinates, config: Value, refs: UsingSet)
    | Update(c: Coordinates, config: Value, refs: UsingSet)
    | Delete(c: Coordinates)
    | Lock(c: Coordinates, owner: Owner)
    | Unlock(c: Coordinates, owner: Owner)
    | Clear

  ghost function After(s: State, op: Op): Effect {
    match op
    case Add(c, config, refs) => AfterAdd(s, c, config, refs)
    case Update(c, config, refs) => AfterUpdate(s, c, config, refs)
    case Delete(c) => AfterDelete(s, c)
    case Lock(c, o) => AfterLock(s, c, o)
    case Unlock(c, o) => AfterUnlock(s, c, o)
    case Clear => (AfterClear(s), true)
  }

  ghost function Run(s: State, ops: seq<Op>): State
    decreases |ops|
  {
    if ops == [] then s else Run(After(s, ops[0]).0, ops[1..])
  }

  /** The graph is acyclic, and every user recorded is itself in the store. */
  ghost predicate Sound(s: State) {
    Complete(s.content) && Integrity(s.content) && Acyclic(s.content)
  }

  function ConfigOf(t: Table, c: Coordinates): Option<Value> {
    if Has(t, c) then Some(Entry(t, c).config) else None
  }

  // ------------------------------------------------------------------ one step

  /** An accepted change leaves something to save; a refused call changes no flag, and none of these
      the automatic saving. */
  ghost predicate Flagged(s: State, s': State, ok: bool) {
    s'.autosave == s.autosave && s'.saved == (s.saved && !ok)
  }

  lemma StoredEdges(t: Table, c: Coordinates, l: LinkedConfig)
    requires c.cat in t
    ensures forall d :: Has(Stored(t, c, l), d) <==> Has(t, d) || d == c
    ensures forall u, d :: Uses(Stored(t, c, l), u, d) <==> if d == c then u in l.dependency else Uses(t, u, d)
  {
  }

  lemma RemovedEdges(t: Table, c: Coordinates)
    requires c.cat in t
    ensures forall d :: Has(Removed(t, c), d) <==> Has(t, d) && d != c
    ensures forall u, d :: Uses(Removed(t, c), u, d) <==> Uses(t, u, d) && d != c
  {
  }

  lemma SameEdges(before: Table, after: Table)
    requires Acyclic(before)
    requires forall u, d :: Uses(after, u, d) ==> Uses(before, u, d)
    ensures Acyclic(after)
  {
    FewerEdgesAcyclic(before, after);
  }

  /** A configuration that nothing uses is on no cycle: adding one under a new name is
      refused only for a dependency that is not stored. */
  lemma NoCycleThroughUnused(before: Table, after: Table, c: Coordinates)
    requires Acyclic(before)
    requires forall u :: !Uses(after, u, c)
    requires forall u, d :: u != c && Uses(after, u, d) ==> Uses(before, u, d)
    ensures Acyclic(after)
  {
    forall p | Walk(after, p) && |p| >= 2 ensures p[0] != Last(p) {
      forall i | 0 < i < |p| ensures p[i] != c {
        assert Uses(after, p[i - 1], p[i]);
      }
      if p[0] != c {
        assert c !in p[..|p| - 1];
        FormerWalk(before, after, p);
      }
    }
  }

  /** Adding succeeds exactly when the name is free and all dependencies are stored; a refused
      addition leaves no trace; an accepted one records just the dependencies given. */
  lemma AddLaw(s: State, c: Coordinates, config: Value, refs: UsingSet)
    requires Sound(s)
    ensures var (s', ok) := AfterAdd(s, c, config, refs);
      && (ok <==> !Has(s.content, c) && AllStored(s.content, refs))
      && (!ok ==> s' == s)
      && (ok ==> ConfigOf(s'.content, c) == Some(config) && DirectDependencies(s'.content, c) == refs)
      && (forall d :: d != c ==> ConfigOf(s'.content, d) == ConfigOf(s.content, d))
      && (forall d :: d != c ==> DirectDependencies(s'.content, d) == DirectDependencies(s.content, d))
      && s'.outside == s.outside && Sound(s') && Flagged(s, s', ok)
  {
    if !Has(s.content, c) {
      var t := s.content;
      var linked := WithUser(t, c, refs);
      WithUserEdges(t, c, refs);
      WithoutStranger(t, c);
      NoCycleThroughUnused(t, linked, c);
      if FindsCycle(linked, c, {}) {
        FoundIsCyclic(linked, c);
      }
      if AllStored(t, refs) {
        var after := Stored(linked, c, LinkedConfig(config, {}));
        StoredEdges(linked, c, LinkedConfig(config, {}));
        SameEdges(linked, after);
        assert forall d :: d != c ==> DirectDependencies(after, d) == DirectDependencies(t, d);
        assert DirectDependencies(after, c) == refs;
      }
    }
  }

  /** The dependency graph as it would be if c relied on refs and nothing else. */
  function Relinked(t: Table, c: Coordinates, refs: UsingSet): Table {
    WithUser(WithoutUser(t, c), c, refs)
  }

  /** Updating succeeds exactly when the configuration and its new dependencies are stored and
      the new dependencies close no cycle anywhere in the graph. A refused update of a stored
      configuration keeps every definition but leaves that one with no dependency at all. */
  lemma UpdateLaw(s: State, c: Coordinates, config: Value, refs: UsingSet)
    requires Sound(s)
    ensures var (s', ok) := AfterUpdate(s, c, config, refs);
      && (ok <==> Has(s.content, c) && AllStored(s.content, refs) && Acyclic(Relinked(s.content, c, refs)))
      && (ok ==> ConfigOf(s'.content, c) == Some(config) && DirectDependencies(s'.content, c) == refs)
      && (!ok ==> ConfigOf(s'.content, c) == ConfigOf(s.content, c)
                  && (Has(s.content, c) ==> DirectDependencies(s'.content, c) == {}))
      && (forall d :: d != c ==> ConfigOf(s'.content, d) == ConfigOf(s.content, d))
      && (forall d :: d != c ==> DirectDependencies(s'.content, d) == DirectDependencies(s.content, d))
      && (!ok ==> (s' == s <==> !Has(s.content, c) || DirectDependencies(s.content, c) == {}))
      && s'.outside == s.outside && Sound(s') && Flagged(s, s', ok)
  {
    if Has(s.content, c) {
      var t := s.content;
      var unlinked := WithoutUser(t, c);
      var linked := WithUser(unlinked, c, refs);
      WithoutUserEdges(t, c);
      WithUserEdges(unlinked, c, refs);
      SameEdges(t, unlinked);
      SearchDecidesAcyclicity(unlinked, linked, c);
      var (s', ok) := AfterUpdate(s, c, config, refs);
      if ok {
        StoredEdges(linked, c, Entry(linked, c).(config := config));
        SameEdges(linked, s'.content);
        UpdatedDependencies(t, c, config, refs);
      } else {
        RefusedDependencies(t, c);
      }
    }
  }

  lemma UpdatedDependencies(t: Table, c: Coordinates, config: Value, refs: UsingSet)
    requires Has(t, c) && AllStored(t, refs)
    ensures Has(Relinked(t, c, refs), c)
    ensures var linked := Relinked(t, c, refs);
      var after := Stored(linked, c, Entry(linked, c).(config := config));
      && DirectDependencies(after, c) == refs
      && (forall d :: d != c ==> DirectDependencies(after, d) == DirectDependencies(t, d))
      && (forall d :: d != c ==> ConfigOf(after, d) == ConfigOf(t, d))
  {
    WithoutUserEdges(t, c);
    WithUserEdges(WithoutUser(t, c), c, refs);
    var linked := Relinked(t, c, refs);
    StoredEdges(linked, c, Entry(linked, c).(config := config));
  }

  lemma RefusedDependencies(t: Table, c: Coordinates)
    ensures var after := WithoutUser(t, c);
      && DirectDependencies(after, c) == {}
      && (forall d :: d != c ==> DirectDependencies(after, d) == DirectDependencies(t, d))
      && (forall d :: ConfigOf(after, d) == ConfigOf(t, d))
      && (after == t <==> DirectDependencies(t, c) == {})
  {
    WithoutUserEdges(t, c);
    if DirectDependencies(t, c) == {} {
      assert forall d :: !Uses(t, c, d) by {
        forall d ensures !Uses(t, c, d) { assert d !in DirectDependencies(t, c); }
      }
      WithoutStranger(t, c);
    }
  }

  /** Deleting succeeds exactly when nothing uses the configuration and nobody locks it. */
  lemma DeleteLaw(s: State, c: Coordinates)
    requires Sound(s)
    ensures var (s', ok) := AfterDelete(s, c);
      && (ok <==> Has(s.content, c) && (forall u :: !Uses(s.content, u, c)) && c !in s.outside)
      && (!ok ==> s' == s)
      && (ok ==> !Has(s'.content, c))
      && (forall d :: d != c ==> ConfigOf(s'.content, d) == ConfigOf(s.content, d))
      && (forall d :: d != c ==> DirectDependencies(s'.content, d) == DirectDependencies(s.content, d))
      && s'.outside == s.outside && Sound(s') && Flagged(s, s', ok)
  {
    if Has(s.content, c) {
      var t := s.content;
      assert Entry(t, c).dependency == {} <==> forall u :: !Uses(t, u, c) by {
        forall u ensures Uses(t, u, c) <==> u in Entry(t, c).dependency {}
      }
      var unlinked := WithoutUser(t, c);
      WithoutUserEdges(t, c);
      RemovedEdges(unlinked, c);
      SameEdges(t, Removed(unlinked, c));
    }
  }

  /** In any store, sound or not, a free name that is refused is not recorded as a user any more, if it was,
      and all else is as it was. */
  lemma RefusedAddition(s: State, c: Coordinates, config: Value, refs: UsingSet)
    requires c.cat in s.content && !Has(s.content, c) && !AfterAdd(s, c, config, refs).1
    ensures var s' := AfterAdd(s, c, config, refs).0;
      && s' == s.(content := s'.content) && (forall d :: ConfigOf(s'.content, d) == ConfigOf(s.content, d))
      && forall u, d :: Uses(s'.content, u, d) <==> Uses(s.content, u, d) && u != c
  {
    WithoutUserEdges(s.content, c);
  }

  /** Locking succeeds exactly for a stored configuration that the owner has no lock on yet, and
      unlocking exactly for one it has; whoever else locks what, and all the rest, stay as they were. */
  lemma LocksLaw(s: State, c: Coordinates, o: Owner)
    ensures var (s', ok) := AfterLock(s, c, o);
      && (ok <==> Has(s.content, c) && !Locked(s.outside, c, o)) && s' == s.(outside := s'.outside)
      && forall d, p :: Locked(s'.outside, d, p) <==> Locked(s.outside, d, p) || (ok && d == c && p == o)
    ensures var (s', ok) := AfterUnlock(s, c, o);
      && (ok <==> Locked(s.outside, c, o)) && s' == s.(outside := s'.outside)
      && forall d, p :: Locked(s'.outside, d, p) <==> Locked(s.outside, d, p) && !(d == c && p == o)
  {
  }

  /** Clearing leaves no configuration, all the categories, all the locks, and nothing to save. */
  lemma ClearLaw(s: State)
    ensures var s' := AfterClear(s);
      && (forall c :: !Has(s'.content, c)) && Complete(s'.content) && s'.outside == s.outside
      && s'.saved && s'.autosave
    ensures INITIAL.content == AfterClear(s).content && INITIAL.outside == map[] && INITIAL.saved && INITIAL.autosave
  {
  }

  // ------------------------------------------------------------------ all runs

  lemma StepKeepsSound(s: State, op: Op)
    requires Sound(s)
    ensures Sound(After(s, op).0)
  {
    match op
    case Add(c, config, refs) => AddLaw(s, c, config, refs);
    case Update(c, config, refs) => UpdateLaw(s, c, config, refs);
    case Delete(c) => DeleteLaw(s, c);
    case Lock(_, _) =>
    case Unlock(_, _) =>
    case Clear => InitialSound();
  }

  lemma FirstStep(t: Table, p: seq<Coordinates>)
    requires Walk(t, p) && |p| >= 2
    ensures Uses(t, p[0], p[1])
  {
  }

  lemma InitialSound()
    ensures Sound(INITIAL)
  {
    forall p | Walk(INITIAL.content, p) ensures |p| < 2 {
      if |p| >= 2 {
        FirstStep(INITIAL.content, p);
      }
    }
  }

  /** Every run from a sound store, whatever is accepted or refused on the way, ends in a
      sound store. */
  lemma {:induction false} RunKeepsSound(s: State, ops: seq<Op>)
    requires Sound(s)
    ensures Sound(Run(s, ops))
    decreases |ops|
  {
    if ops != [] {
      StepKeepsSound(s, ops[0]);
      RunKeepsSound(After(s, ops[0]).0, ops[1..]);
    }
  }

  /** From an empty store. */
  lemma AlwaysSound(ops: seq<Op>)
    ensures Sound(Run(INITIAL, ops))
  {
    InitialSound();
    RunKeepsSound(INITIAL, ops);
  }

  // ------------------------------------------------------------------ locks

  /** No entry without a lock, and only stored configurations are locked. */
  ghost predicate LocksKept(s: State) {
    forall c :: c in s.outside ==> s.outside[c] != {} && Has(s.content, c)
  }

  /** The ledger of locks: what was added and not removed since. */
  ghost function Ledger(s: State): iset<(Coordinates, Owner)> {
    iset c, o | Locked(s.outside, c, o) :: (c, o)
  }

  ghost function Entered(s: State, op: Op, before: iset<(Coordinates, Owner)>): iset<(Coordinates, Owner)> {
    match op
    case Lock(c, o) => if Has(s.content, c) then before + iset{(c, o)} else before
    case Unlock(c, o) => before - iset{(c, o)}
    case _ => before
  }

  /** Each call changes the ledger by just the lock it adds or removes. */
  lemma StepLedger(s: State, op: Op)
    ensures Ledger(After(s, op).0) == Entered(s, op, Ledger(s))
  {
    var s' := After(s, op).0;
    match op
    case Lock(c, o) =>
      assert forall d, p :: Locked(s'.outside, d, p) <==>
        Locked(s.outside, d, p) || (d == c && p == o && Has(s.content, c));
    case Unlock(c, o) =>
      assert forall d, p :: Locked(s'.outside, d, p) <==> Locked(s.outside, d, p) && !(d == c && p == o);
    case _ =>
  }

  lemma {:induction false} RunLast(s: State, ops: seq<Op>, op: Op)
    ensures Run(s, ops + [op]) == After(Run(s, ops), op).0
    decreases |ops|
  {
    if ops == [] {
      assert (ops + [op])[1..] == [];
    } else {
      assert (ops + [op])[1..] == ops[1..] + [op];
      RunLast(After(s, ops[0]).0, ops[1..], op);
    }
  }

  /** o has locked c, which was stored then, at i and has not released it since. */
  ghost predicate LockedAt(s: State, ops: seq<Op>, c: Coordinates, o: Owner, i: nat)
    requires i < |ops|
  {
    && ops[i] == Lock(c, o) && Has(Run(s, ops[..i]).content, c)
    && Unlock(c, o) !in ops[i..]
  }

  lemma LockedAtEarlier(s: State, ops: seq<Op>, op: Op, c: Coordinates, o: Owner, i: nat)
    requires i < |ops|
    ensures LockedAt(s, ops + [op], c, o, i) <==> LockedAt(s, ops, c, o, i) && op != Unlock(c, o)
  {
    assert (ops + [op])[..i] == ops[..i] && (ops + [op])[i..] == ops[i..] + [op];
  }

  lemma LockedAtLast(s: State, ops: seq<Op>, op: Op, c: Coordinates, o: Owner)
    ensures LockedAt(s, ops + [op], c, o, |ops|) <==> op == Lock(c, o) && Has(Run(s, ops).content, c)
  {
    assert (ops + [op])[..|ops|] == ops && (ops + [op])[|ops|..] == [op];
  }

  /** After any run from an empty store, clearing included, the locks are just those taken on what
      was stored then and not released since, and no entry is empty. */
  lemma {:induction false} AlwaysLedger(ops: seq<Op>)
    ensures forall c :: c in Run(INITIAL, ops).outside ==> Run(INITIAL, ops).outside[c] != {}
    ensures forall c, o :: Locked(Run(INITIAL, ops).outside, c, o) <==>
      exists i :: 0 <= i < |ops| && LockedAt(INITIAL, ops, c, o, i)
    decreases |ops|
  {
    if ops != [] {
      var before, op := ops[..|ops| - 1], ops[|ops| - 1];
      assert ops == before + [op];
      AlwaysLedger(before);
      RunLast(INITIAL, before, op);
      var s := Run(INITIAL, before);
      StepLedger(s, op);
      forall c, o ensures Locked(Run(INITIAL, ops).outside, c, o) <==>
        exists i :: 0 <= i < |ops| && LockedAt(INITIAL, ops, c, o, i) {
        LedgerOn(before, op, c, o);
      }
    }
  }

  lemma LedgerOn(ops: seq<Op>, op: Op, c: Coordinates, o: Owner)
    requires Locked(Run(INITIAL, ops).outside, c, o) <==> exists i :: 0 <= i < |ops| && LockedAt(INITIAL, ops, c, o, i)
    ensures var s := After(Run(INITIAL, ops), op).0;
      Locked(s.outside, c, o) <==> exists i :: 0 <= i < |ops + [op]| && LockedAt(INITIAL, ops + [op], c, o, i)
  {
    var s, s' := Run(INITIAL, ops), After(Run(INITIAL, ops), op).0;
    StepLedger(s, op);
    assert Locked(s'.outside, c, o) <==> (c, o) in Ledger(s');
    assert Locked(s.outside, c, o) <==> (c, o) in Ledger(s);
    LockedAtLast(INITIAL, ops, op, c, o);
    forall i | 0 <= i < |ops|
      ensures LockedAt(INITIAL, ops + [op], c, o, i) <==> LockedAt(INITIAL, ops, c, o, i) && op != Unlock(c, o)
    {
      LockedAtEarlier(INITIAL, ops, op, c, o, i);
    }
  }

  /** Whatever is locked or used stays stored: a call other than Clear removes only what has
      neither, and no lock is lost but the one released. */
  lemma StepKeepsLocks(s: State, op: Op)
    requires Sound(s) && LocksKept(s) && !op.Clear?
    ensures LocksKept(After(s, op).0)
    ensures forall c :: Has(s.content, c) && !(op.Delete? && op.c == c) ==> Has(After(s, op).0.content, c)
    ensures forall c, u :: Uses(s.content, u, c) ==> Has(After(s, op).0.content, c)
    ensures forall c :: c in s.outside ==> Has(After(s, op).0.content, c)
  {
    match op
    case Add(c, config, refs) => AddLaw(s, c, config, refs); Present(s, After(s, op).0, c);
    case Update(c, config, refs) => UpdateLaw(s, c, config, refs); Present(s, After(s, op).0, c);
    case Delete(c) => DeleteLaw(s, c); Present(s, After(s, op).0, c);
    case Lock(_, _) =>
    case Unlock(_, _) =>
  }

  lemma Present(s: State, s': State, c: Coordinates)
    requires forall d :: d != c ==> ConfigOf(s'.content, d) == ConfigOf(s.content, d)
    ensures forall d :: d != c ==> (Has(s'.content, d) <==> Has(s.content, d))
  {
    forall d | d != c ensures Has(s'.content, d) <==> Has(s.content, d) {
      assert ConfigOf(s'.content, d) == ConfigOf(s.content, d);
    }
  }

  /** A configuration locked by an owner that does not release it stays stored and locked
      through any run without Clear, whoever tries to delete or update it. */
  lemma {:induction false} RunKeepsLocked(s: State, ops: seq<Op>, c: Coordinates, o: Owner)
    requires Sound(s) && LocksKept(s) && Locked(s.outside, c, o)
    requires forall i :: 0 <= i < |ops| ==> !ops[i].Clear? && ops[i] != Unlock(c, o)
    ensures Has(Run(s, ops).content, c) && Locked(Run(s, ops).outside, c, o)
    decreases |ops|
  {
    if ops != [] {
      var s' := After(s, ops[0]).0;
      StepKeepsSound(s, ops[0]);
      StepKeepsLocks(s, ops[0]);
      StepLedger(s, ops[0]);
      assert (c, o) in Ledger(s) && (c, o) in Ledger(s');
      RunKeepsLocked(s', ops[1..], c, o);
    }
  }

  /** A configuration used by another stays stored through any run without Clear that neither
      updates nor deletes its user. */
  lemma {:induction false} RunKeepsUsed(s: State, ops: seq<Op>, user: Coordinates, used: Coordinates)
    requires Sound(s) && LocksKept(s) && Uses(s.content, user, used)
    requires forall i :: 0 <= i < |ops| ==>
      !ops[i].Clear? && !(ops[i].Update? && ops[i].c == user) && !(ops[i].Delete? && ops[i].c == user)
    ensures Uses(Run(s, ops).content, user, used)
    decreases |ops|
  {
    if ops != [] {
      var op, s' := ops[0], After(s, ops[0]).0;
      StepKeepsSound(s, op);
      StepKeepsLocks(s, op);
      assert used in DirectDependencies(s.content, user);
      match op {
        case Add(c, config, refs) => AddLaw(s, c, config, refs);
        case Update(c, config, refs) => UpdateLaw(s, c, config, refs);
        case Delete(c) => DeleteLaw(s, c);
        case Lock(_, _) =>
        case Unlock(_, _) =>
      }
      assert used in DirectDependencies(s'.content, user);
      RunKeepsUsed(s', ops[1..], user, used);
    }
  }

  // ------------------------------------------------------------------ saving and loading

  /** A document with a proper header is judged on its categories alone. */
  lemma LoadOfDocument(t: State, categories: Value, autosave: bool)
    requires categories.Arr?
    ensures var l := LoadTable(categories.items);
      AfterLoad(t, Document(categories, autosave)) ==
        if l.ok then LoadStep(State(Filled(l.content), t.outside, true, autosave), Complete(l.content), l.fired)
        else LoadStep(State(l.content, t.outside, true, autosave), false, {})
  {
    HeaderReadBack(categories, autosave);
  }

  /** Loading what was saved brings back the whole table and the autosave property, if and
      only if every stored configuration is a JSON object; the locks are left as they are. */
  lemma SaveThenLoad(s: State, t: State, doc: Value)
    requires Complete(s.content) && Writes(doc, s.content, s.autosave)
    ensures AfterLoad(t, doc).ok <==> AllObjects(s.content)
    ensures AllObjects(s.content) ==>
      AfterLoad(t, doc) == LoadStep(State(s.content, t.outside, true, s.autosave), true,
                                    set cat | cat in s.content && s.content[cat] != map[])
  {
    var categories, order :| WritesTable(categories, s.content, order) && doc == Document(categories, s.autosave);
    assert FileFilter in order;
    LoadOfDocument(t, categories, s.autosave);
    TableReadBack(categories, s.content, order);
    CompleteFilled(s.content);
  }

  lemma CompleteFilled(t: Table)
    requires Complete(t)
    ensures Filled(t) == t
  {
  }

  lemma HeaderReadBack(categories: Value, autosave: bool)
    ensures var doc := Document(categories, autosave);
      && Unwrap(doc).Some? && Unwrap(doc).value.version == FORMAT_VERSION && Unwrap(doc).value.id == CLASS_ID
      && At(Unwrap(doc).value.config, CATEGPROP_LABEL) == Some(categories)
      && At(Unwrap(doc).value.config, GLOBALPROP_LABEL).Some?
      && BoolAt(At(Unwrap(doc).value.config, GLOBALPROP_LABEL).value, AUTOSAVE_LABEL) == Some(autosave)
  {
    assert VERSION_LABEL != ID_LABEL && VERSION_LABEL[0] != CONFIG_LABEL[0] && ID_LABEL[1] != CONFIG_LABEL[1];
    assert CATEGPROP_LABEL[0] != GLOBALPROP_LABEL[0];
  }

  /** So the soundness of a store survives being saved and loaded. */
  lemma ReloadKeepsSound(s: State, t: State, doc: Value)
    requires Sound(s) && AllObjects(s.content) && Writes(doc, s.content, s.autosave)
    ensures Sound(AfterLoad(t, doc).state)
  {
    SaveThenLoad(s, t, doc);
  }
}
