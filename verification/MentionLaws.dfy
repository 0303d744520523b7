/** The names inside stored configurations: they all exist in the store as long as each call
    accepted declares what it stores and no update is refused, and these two are exactly what puts
    that at risk. */
module MentionLaws {
  import opened Json
  import opened ConfigTable
  import opened ConfigStore
  import opened StoreLaws
  import opened Components

  /** Each configuration is recorded as relying on all those its definition mentions. */
  ghost predicate MentionsRecorded(t: Table) {
    forall c :: Has(t, c) ==> Mentions(Entry(t, c).config) <= DirectDependencies(t, c)
  }

  ghost predicate MentionsExist(t: Table) {
    forall c, d :: Has(t, c) && d in Mentions(Entry(t, c).config) ==> Has(t, d)
  }

  ghost predicate RefusedUpdate(s: State, op: Op) {
    op.Update? && Has(s.content, op.c) && !After(s, op).1
  }

  ghost predicate NeverRefused(s: State, ops: seq<Op>)
    decreases |ops|
  {
    ops == [] || (!RefusedUpdate(s, ops[0]) && NeverRefused(After(s, ops[0]).0, ops[1..]))
  }

  lemma RecordedAfter(t: Table, t': Table, c: Coordinates)
    requires MentionsRecorded(t)
    requires forall d :: d != c ==>
      ConfigOf(t', d) == ConfigOf(t, d) && DirectDependencies(t', d) == DirectDependencies(t, d)
    requires Has(t', c) ==> Mentions(Entry(t', c).config) <= DirectDependencies(t', c)
    ensures MentionsRecorded(t')
  {
    forall d | Has(t', d) ensures Mentions(Entry(t', d).config) <= DirectDependencies(t', d) {
      if d != c {
        assert ConfigOf(t', d) == ConfigOf(t, d);
      }
    }
  }

  /** A refused update leaves the mentions recorded if and only if the definition it failed to
      replace mentions nothing. */
  lemma RefusedUpdateLosesMentions(s: State, c: Coordinates, config: Value, refs: UsingSet)
    requires Sound(s) && MentionsRecorded(s.content) && RefusedUpdate(s, Update(c, config, refs))
    ensures MentionsRecorded(AfterUpdate(s, c, config, refs).0.content) <==> Mentions(Entry(s.content, c).config) == {}
  {
    UpdateLaw(s, c, config, refs);
    var t' := AfterUpdate(s, c, config, refs).0.content;
    assert ConfigOf(t', c) == ConfigOf(s.content, c);
    if Mentions(Entry(s.content, c).config) == {} {
      RecordedAfter(s.content, t', c);
    }
  }

  /** An addition or an update that is accepted leaves the mentions recorded if and only if it
      declares what the definition mentions. */
  lemma AcceptedRecordsIff(s: State, op: Op)
    requires Sound(s) && MentionsRecorded(s.content) && (op.Add? || op.Update?) && After(s, op).1
    ensures MentionsRecorded(After(s, op).0.content) <==> Mentions(op.config) <= op.refs
  {
    var t, t' := s.content, After(s, op).0.content;
    match op {
      case Add(c, config, refs) => AddLaw(s, c, config, refs);
      case Update(c, config, refs) => UpdateLaw(s, c, config, refs);
    }
    assert ConfigOf(t', op.c) == Some(op.config) && DirectDependencies(t', op.c) == op.refs;
    if Mentions(op.config) <= op.refs {
      RecordedAfter(t, t', op.c);
    }
  }

  /** What a call stores it declares, and an update it refuses leaves a definition that mentions
      nothing. */
  ghost predicate Harmless(s: State, op: Op) {
    match op
    case Add(c, config, refs) => After(s, op).1 ==> Mentions(config) <= refs
    case Update(c, config, refs) =>
      if After(s, op).1 then Mentions(config) <= refs else Has(s.content, c) ==>
        Mentions(Entry(s.content, c).config) == {}
    case _ => true
  }

  /** These are just the calls that leave the mentions recorded. */
  lemma StepMentionsIff(s: State, op: Op)
    requires Sound(s) && MentionsRecorded(s.content)
    ensures MentionsRecorded(After(s, op).0.content) <==> Harmless(s, op)
  {
    match op
    case Add(c, config, refs) =>
      AddLaw(s, c, config, refs);
      if After(s, op).1 { AcceptedRecordsIff(s, op); }
    case Update(c, config, refs) =>
      UpdateLaw(s, c, config, refs);
      if After(s, op).1 {
        AcceptedRecordsIff(s, op);
      } else if Has(s.content, c) {
        RefusedUpdateLosesMentions(s, c, config, refs);
      }
    case Delete(c) =>
      DeleteLaw(s, c);
      if After(s, op).1 { RecordedAfter(s.content, After(s, op).0.content, c); }
    case Lock(_, _) =>
    case Unlock(_, _) =>
    case Clear =>
  }

  ghost predicate AllHarmless(s: State, ops: seq<Op>)
    decreases |ops|
  {
    ops == [] || (Harmless(s, ops[0]) && AllHarmless(After(s, ops[0]).0, ops[1..]))
  }

  /** The mentions are recorded all along the run. */
  ghost predicate RecordedAlong(s: State, ops: seq<Op>)
    decreases |ops|
  {
    MentionsRecorded(s.content) && (ops == [] || RecordedAlong(After(s, ops[0]).0, ops[1..]))
  }

  /** Over any run the mentions are recorded all along if and only if each call is harmless when its
      turn comes. */
  lemma {:induction false} RunMentionsIff(s: State, ops: seq<Op>)
    requires Sound(s) && MentionsRecorded(s.content)
    ensures RecordedAlong(s, ops) <==> AllHarmless(s, ops)
    decreases |ops|
  {
    if ops != [] {
      StepMentionsIff(s, ops[0]);
      if Harmless(s, ops[0]) {
        StepKeepsSound(s, ops[0]);
        RunMentionsIff(After(s, ops[0]).0, ops[1..]);
      }
    }
  }

  /** And where they are, every name inside a stored configuration is that of a stored one. */
  lemma {:induction false} RecordedExist(s: State, ops: seq<Op>)
    requires Sound(s) && RecordedAlong(s, ops)
    ensures MentionsExist(Run(s, ops).content)
    decreases |ops|
  {
    if ops != [] {
      StepKeepsSound(s, ops[0]);
      RecordedExist(After(s, ops[0]).0, ops[1..]);
    }
  }

  /** From an empty store. */
  lemma RunKeepsMentions(ops: seq<Op>)
    requires AllHarmless(INITIAL, ops)
    ensures MentionsExist(Run(INITIAL, ops).content)
  {
    InitialSound();
    RunMentionsIff(INITIAL, ops);
    RecordedExist(INITIAL, ops);
  }

  // ------------------------------------------------------------------ what components save

  /** The call saves a component with what it declares, asked for before the saving or after it. */
  ghost predicate Saves(op: Op, c: Component) {
    (op.Add? || op.Update?) ==> op.config == Save(c) && (op.refs == UsingSetOf(c) || op.refs == DeclaredAfter(c))
  }

  ghost predicate AllSave(ops: seq<Op>, saved: seq<Component>) {
    && |saved| == |ops|
    && forall i :: 0 <= i < |ops| ==> Saves(ops[i], saved[i]) && Genuine(saved[i]) && WithoutMerge(saved[i])
  }

  /** Over any run that saves components without the options of a merging, and in which no update is
      refused, every name inside a stored configuration is that of a stored one. */
  lemma SavingKeepsMentions(ops: seq<Op>, saved: seq<Component>)
    requires AllSave(ops, saved) && NeverRefused(INITIAL, ops)
    ensures MentionsExist(Run(INITIAL, ops).content)
  {
    SavingIsHarmless(INITIAL, ops, saved);
    RunKeepsMentions(ops);
  }

  lemma {:induction false} SavingIsHarmless(s: State, ops: seq<Op>, saved: seq<Component>)
    requires AllSave(ops, saved) && NeverRefused(s, ops)
    ensures AllHarmless(s, ops)
    decreases |ops|
  {
    if ops != [] {
      MentionsAreDeclared(saved[0]);
      assert AllSave(ops[1..], saved[1..]);
      SavingIsHarmless(After(s, ops[0]).0, ops[1..], saved[1..]);
    }
  }

  /** The calls by which a definition is saved while a guichet follows a configuration, which is then
      let go and deleted. */
  function SaveAndDelete(used: Coordinates, saver: Coordinates, plain: Value, config: Value, refs: UsingSet,
                         o: Owner): seq<Op>
  {
    [Add(used, plain, {}), Lock(used, o), Add(saver, config, refs), Unlock(used, o), Delete(used)]
  }

  /** The options of a merging can be saved so: no update is refused, and they mention a configuration
      that is gone. */
  lemma MergeLetsNamesDangle(name: string, user: string, plain: Value, o: Owner)
    ensures var c := MergeFollowing(name);
      var ops := SaveAndDelete(Coordinates(Compress, name), Coordinates(ConfMerge, user), plain, Save(c),
        UsingSetOf(c), o);
      NeverRefused(INITIAL, ops) && !MentionsExist(Run(INITIAL, ops).content)
  {
    MergeFollowingLeavesOut(name);
    DanglingRun(Coordinates(Compress, name), Coordinates(ConfMerge, user), plain, Save(MergeFollowing(name)), o);
  }

  /** And so can any definition that mentions what it does not declare. */
  lemma DanglingRun(used: Coordinates, saver: Coordinates, plain: Value, config: Value, o: Owner)
    requires used != saver && used in Mentions(config)
    ensures NeverRefused(INITIAL, SaveAndDelete(used, saver, plain, config, {}, o))
    ensures !MentionsExist(Run(INITIAL, SaveAndDelete(used, saver, plain, config, {}, o)).content)
  {
    var s1, s2, s3, s4 := LockedAndSaved(used, saver, plain, config, o);
    var s5 := DeletedFrom(s4, used, saver, config);
    RunOfFive(Add(used, plain, {}), Lock(used, o), Add(saver, config, {}), Unlock(used, o), Delete(used), s1, s2, s3,
      s4, s5);
  }

  lemma DeletedFrom(s: State, used: Coordinates, saver: Coordinates, config: Value) returns (s': State)
    requires Sound(s) && used !in s.outside && UsedByNone(s.content, used) && used != saver && used in Mentions(config)
    requires Has(s.content, used) && ConfigOf(s.content, saver) == Some(config)
    ensures s' == After(s, Delete(used)).0 && !MentionsExist(s'.content)
  {
    DeleteLaw(s, used);
    s' := AfterDelete(s, used).0;
    assert ConfigOf(s'.content, saver) == Some(config);
    Dangling(s', saver, used, config);
  }

  ghost predicate UsedByNone(t: Table, used: Coordinates) {
    forall u :: !Uses(t, u, used)
  }

  lemma LockedAndSaved(used: Coordinates, saver: Coordinates, plain: Value, config: Value, o: Owner)
    returns (s1: State, s2: State, s3: State, s4: State)
    requires used != saver
    ensures s1 == After(INITIAL, Add(used, plain, {})).0 && s2 == After(s1, Lock(used, o)).0
    ensures s3 == After(s2, Add(saver, config, {})).0 && s4 == After(s3, Unlock(used, o)).0
    ensures Sound(s4) && used !in s4.outside && UsedByNone(s4.content, used)
    ensures Has(s4.content, used) && ConfigOf(s4.content, saver) == Some(config)
  {
    s1 := FirstAdded(used, saver, plain);
    s2 := ThenLocked(s1, used, o);
    s3 := ThenAdded(s2, used, saver, config);
    s4 := ThenUnlocked(s3, used, o);
  }

  lemma FirstAdded(used: Coordinates, saver: Coordinates, plain: Value) returns (s: State)
    requires used != saver
    ensures s == After(INITIAL, Add(used, plain, {})).0 && Sound(s) && s.outside == map[]
    ensures Has(s.content, used) && !Has(s.content, saver) && UsedByNone(s.content, used)
  {
    InitialSound();
    AddLaw(INITIAL, used, plain, {});
    s := AfterAdd(INITIAL, used, plain, {}).0;
    assert ConfigOf(s.content, used) == Some(plain) && ConfigOf(s.content, saver) == ConfigOf(INITIAL.content, saver);
    forall u ensures !Uses(s.content, u, used) {
      assert used !in DirectDependencies(s.content, u);
    }
  }

  lemma ThenLocked(s: State, used: Coordinates, o: Owner) returns (s': State)
    requires s.outside == map[] && Has(s.content, used)
    ensures s' == After(s, Lock(used, o)).0 && s'.content == s.content
    ensures used in s'.outside && s'.outside[used] == {o}
  {
    s' := AfterLock(s, used, o).0;
  }

  lemma ThenAdded(s: State, used: Coordinates, saver: Coordinates, config: Value) returns (s': State)
    requires Sound(s) && used != saver && Has(s.content, used) && !Has(s.content, saver) && UsedByNone(s.content, used)
    ensures s' == After(s, Add(saver, config, {})).0 && Sound(s') && s'.outside == s.outside
    ensures Has(s'.content, used) && ConfigOf(s'.content, saver) == Some(config) && UsedByNone(s'.content, used)
  {
    AddLaw(s, saver, config, {});
    s' := AfterAdd(s, saver, config, {}).0;
    assert ConfigOf(s'.content, used) == ConfigOf(s.content, used);
    forall u ensures !Uses(s'.content, u, used) {
      assert used !in DirectDependencies(s.content, u);
      assert used !in DirectDependencies(s'.content, u);
    }
  }

  lemma ThenUnlocked(s: State, used: Coordinates, o: Owner) returns (s': State)
    requires used in s.outside && s.outside[used] == {o}
    ensures s' == After(s, Unlock(used, o)).0 && s'.content == s.content && used !in s'.outside
  {
    s' := AfterUnlock(s, used, o).0;
  }

  lemma RunOfFive(op1: Op, op2: Op, op3: Op, op4: Op, op5: Op, s1: State, s2: State, s3: State, s4: State, s5: State)
    requires !op1.Update? && !op2.Update? && !op3.Update? && !op4.Update? && !op5.Update?
    requires s1 == After(INITIAL, op1).0 && s2 == After(s1, op2).0 && s3 == After(s2, op3).0
    requires s4 == After(s3, op4).0 && s5 == After(s4, op5).0
    ensures Run(INITIAL, [op1, op2, op3, op4, op5]) == s5 && NeverRefused(INITIAL, [op1, op2, op3, op4, op5])
  {
    OneMoreOp(s4, op5, []);
    OneMoreOp(s3, op4, [op5]);
    OneMoreOp(s2, op3, [op4, op5]);
    OneMoreOp(s1, op2, [op3, op4, op5]);
    OneMoreOp(INITIAL, op1, [op2, op3, op4, op5]);
    assert [op1] + ([op2] + ([op3] + ([op4] + ([op5] + [])))) == [op1, op2, op3, op4, op5];
  }

  lemma OneMoreOp(s: State, op: Op, ops: seq<Op>)
    requires !op.Update?
    ensures Run(s, [op] + ops) == Run(After(s, op).0, ops)
    ensures NeverRefused(s, [op] + ops) <==> NeverRefused(After(s, op).0, ops)
  {
    assert ([op] + ops)[1..] == ops;
  }

  // ------------------------------------------------------------------ what a refused update lets happen

  /** Such a store: used is stored, and user relies on it and nothing else relies on used. */
  lemma TwoConfigs(used: Coordinates, user: Coordinates, plain: Value, config: Value) returns (s: State)
    requires used != user
    ensures s == Run(INITIAL, [Add(used, plain, {}), Add(user, config, {used})])
    ensures Sound(s) && s.outside == map[]
    ensures ConfigOf(s.content, used) == Some(plain) && ConfigOf(s.content, user) == Some(config)
    ensures forall c :: c != used && c != user ==> !Has(s.content, c)
    ensures forall c :: Uses(s.content, c, used) ==> c == user
  {
    InitialSound();
    AddLaw(INITIAL, used, plain, {});
    var s1 := AfterAdd(INITIAL, used, plain, {}).0;
    assert ConfigOf(s1.content, user) == ConfigOf(INITIAL.content, user);
    AddLaw(s1, user, config, {used});
    s := AfterAdd(s1, user, config, {used}).0;
    var second := [Add(user, config, {used})];
    assert Run(s, second[1..]) == s;
    assert Run(s1, second) == s;
    assert [Add(used, plain, {}), Add(user, config, {used})][1..] == second;
    forall c | c != used && c != user ensures !Has(s.content, c) {
      assert ConfigOf(s.content, c) == ConfigOf(s1.content, c) == ConfigOf(INITIAL.content, c);
    }
    forall c | c != user ensures !Uses(s.content, c, used) {
      assert used !in DirectDependencies(s1.content, c);
      assert DirectDependencies(s.content, c) == DirectDependencies(s1.content, c);
    }
  }

  lemma RefusedThenDeleted(s: State, used: Coordinates, user: Coordinates, missing: Coordinates, config: Value)
    requires Sound(s) && s.outside == map[] && used != user
    requires Has(s.content, used) && Has(s.content, user) && !Has(s.content, missing)
    requires forall c :: Uses(s.content, c, used) ==> c == user
    ensures var s' := AfterDelete(AfterUpdate(s, user, config, {used, missing}).0, used).0;
      !Has(s'.content, used) && ConfigOf(s'.content, user) == ConfigOf(s.content, user)
  {
    UpdateLaw(s, user, config, {used, missing});
    var refused := AfterUpdate(s, user, config, {used, missing}).0;
    assert !AllStored(s.content, {used, missing}) by { assert missing in {used, missing}; }
    assert ConfigOf(refused.content, used) == ConfigOf(s.content, used);
    forall c ensures !Uses(refused.content, c, used) {
      if c == user {
        assert used !in DirectDependencies(refused.content, c);
      } else {
        assert used !in DirectDependencies(s.content, c);
        assert DirectDependencies(refused.content, c) == DirectDependencies(s.content, c);
      }
    }
    DeleteLaw(refused, used);
  }

  /** The names no longer protected can then be deleted from under the definition: an update
      of user towards a missing configuration is refused, after which used is deleted although
      user still mentions it. */
  lemma RefusedUpdateLetsNamesDangle(used: Coordinates, user: Coordinates, missing: Coordinates, plain: Value,
                                     config: Value)
    requires used != user && used != missing && user != missing
    requires used in Mentions(config)
    ensures var s := Run(INITIAL, [Add(used, plain, {}), Add(user, config, {used})]);
      !MentionsExist(Run(s, [Update(user, config, {used, missing}), Delete(used)]).content)
  {
    var s := TwoConfigs(used, user, plain, config);
    RefusedThenDeleted(s, used, user, missing, config);
    RunOfTwo(s, Update(user, config, {used, missing}), Delete(used));
    Dangling(AfterDelete(AfterUpdate(s, user, config, {used, missing}).0, used).0, user, used, config);
  }

  lemma RunOfTwo(s: State, first: Op, second: Op)
    ensures Run(s, [first, second]) == After(After(s, first).0, second).0
  {
    assert [first, second][1..] == [second] && [second][1..] == [];
    assert Run(After(After(s, first).0, second).0, []) == After(After(s, first).0, second).0;
  }

  lemma Dangling(s: State, user: Coordinates, used: Coordinates, config: Value)
    requires ConfigOf(s.content, user) == Some(config) && used in Mentions(config) && !Has(s.content, used)
    ensures !MentionsExist(s.content)
  {
  }
}
