/** Adopted objects grouped in titled sections, of which one at most shows. */
module Aiguilles {
  import opened Forest

  datatype Outcome = Done | RangeError | Bug

  const NOACTIVE: int := -1

  /** A section shows, or not, as a whole. It lists the objects it was given. */
  datatype Section = Section(title: string, visible: bool, adopted: seq<nat>)

  /** Objects are told apart by their address. sectionOf is the component's record of the section
      of each object, held tells the sections that really are the parents of objects. */
  datatype State = State(order: seq<string>, sections: map<string, Section>, sectionOf: map<nat, string>,
                         held: map<nat, string>, active: int)

  const EMPTY := State([], map[], map[], map[], NOACTIVE)

  // ------------------------------------------------------------------ what always holds

  ghost predicate ListsHeld(s: State, name: string)
    requires name in s.sections
  {
    && Distinct(s.sections[name].adopted)
    && forall o :: o in s.sections[name].adopted <==> o in s.held && s.held[o] == name
  }

  /** The names, the sections and the two records of the objects tell the same. */
  ghost predicate Consistent(s: State) {
    && Distinct(s.order) && (forall n :: n in s.sections <==> n in s.order)
    && s.sectionOf == s.held && (forall o :: o in s.held ==> s.held[o] in s.sections)
    && forall n {:trigger ListsHeld(s, n)} :: n in s.sections ==> ListsHeld(s, n)
  }

  ghost predicate ShowsAt(s: State, i: nat)
    requires i < |s.order|
  {
    s.order[i] in s.sections && (s.sections[s.order[i]].visible <==> i == s.active)
  }

  /** Just the active section shows, none if there is no active section. */
  ghost predicate Shown(s: State) {
    && -1 <= s.active < |s.order|
    && forall i {:trigger ShowsAt(s, i)} :: 0 <= i < |s.order| ==> ShowsAt(s, i)
  }

  // ------------------------------------------------------------------ what the operations do

  function AfterAdd(s: State, name: string, title: string): State {
    s.(order := s.order + [name], sections := s.sections[name := Section(title, false, [])])
  }

  /** The records are made before the section adopts the object, which fails if the object has
      a parent already. */
  function AfterAdoptIn(s: State, name: string, o: nat, free: bool): State
    requires name in s.sections
  {
    var sec := s.sections[name];
    s.(sectionOf := s.sectionOf[o := name], sections := s.sections[name := sec.(adopted := sec.adopted + [o])],
       held := if free then s.held[o := name] else s.held)
  }

  function AfterLeave(s: State, o: nat): State
    requires o in s.sectionOf && s.sectionOf[o] in s.sections
  {
    var name := s.sectionOf[o];
    var sec := s.sections[name];
    s.(sectionOf := s.sectionOf - {o}, sections := s.sections[name := sec.(adopted := Dropped(sec.adopted, o))],
      held := s.held - {o})
  }

  function AfterClear(s: State, name: string): State
    requires name in s.sections
  {
    var gone := set o | o in s.sections[name].adopted;
    s.(sections := s.sections[name := s.sections[name].(adopted := [])], sectionOf := s.sectionOf - gone,
      held := s.held - gone)
  }

  function AfterRemove(s: State, name: string): State
    requires name in s.sections
  {
    var c := AfterClear(s, name);
    var order := Dropped(s.order, name);
    c.(order := order, sections := c.sections - {name},
      active := if 0 <= s.active < |order| then s.active else NOACTIVE)
  }

  function WithVisible(s: State, num: int, visible: bool): State
    requires 0 <= num < |s.order| ==> s.order[num] in s.sections
  {
    if 0 <= num < |s.order| then
      var name := s.order[num];
      s.(sections := s.sections[name := s.sections[name].(visible := visible)])
    else s
  }

  function AfterActivate(s: State, num: int): State
    requires -1 <= num < |s.order| && -1 <= s.active < |s.order| && forall i :: 0 <= i < |s.order| ==>
      s.order[i] in s.sections
  {
    if s.active == num then s else WithVisible(WithVisible(s, s.active, false), num, true).(active := num)
  }

  // ------------------------------------------------------------------ what they keep

  lemma AddKeeps(s: State, name: string, title: string)
    requires Consistent(s) && name !in s.order
    ensures Consistent(AfterAdd(s, name, title)) && (Shown(s) ==> Shown(AfterAdd(s, name, title)))
  {
    var s' := AfterAdd(s, name, title);
    assert forall n :: n in s'.order <==> n in s.order || n == name;
    forall n | n in s'.sections ensures ListsHeld(s', n) {
      if n != name {
        assert ListsHeld(s, n);
      }
    }
    if Shown(s) {
      forall i | 0 <= i < |s'.order| ensures ShowsAt(s', i) {
        if i < |s.order| {
          assert ShowsAt(s, i);
        }
      }
    }
  }

  /** Adopting an object of no other parent keeps the records true; if it has one already they
      are wrong from then on. */
  lemma AdoptKeepsIffFree(s: State, name: string, o: nat, free: bool)
    requires Consistent(s) && name in s.sections && (free ==> o !in s.held)
    ensures Consistent(AfterAdoptIn(s, name, o, free)) <==> free
    ensures Shown(s) ==> Shown(AfterAdoptIn(s, name, o, free))
  {
    var s' := AfterAdoptIn(s, name, o, free);
    assert ListsHeld(s, name);
    var l, l' := s.sections[name].adopted, s'.sections[name].adopted;
    assert l'[|l|] == o;
    if free {
      forall n | n in s'.sections ensures ListsHeld(s', n) {
        assert ListsHeld(s, n);
        assert n == name ==> forall x :: x in l' <==> x in l || x == o;
      }
    } else if o in s.held && s.held[o] == name {
      var k :| 0 <= k < |l| && l[k] == o;
      assert l'[k] == l'[|l|];
      assert !ListsHeld(s', name);
    } else {
      assert o in l';
      assert !ListsHeld(s', name);
    }
    if Shown(s) {
      forall i | 0 <= i < |s'.order| ensures ShowsAt(s', i) {
        assert ShowsAt(s, i);
      }
    }
  }

  lemma LeaveKeeps(s: State, o: nat)
    requires Consistent(s) && o in s.held
    ensures o in s.sectionOf && s.sectionOf[o] in s.sections
    ensures Consistent(AfterLeave(s, o)) && (Shown(s) ==> Shown(AfterLeave(s, o)))
  {
    var s', name := AfterLeave(s, o), s.held[o];
    assert ListsHeld(s, name);
    DroppedElements(s.sections[name].adopted, o);
    forall n | n in s'.sections ensures ListsHeld(s', n) {
      assert ListsHeld(s, n);
    }
    if Shown(s) {
      forall i | 0 <= i < |s'.order| ensures ShowsAt(s', i) {
        assert ShowsAt(s, i);
      }
    }
  }

  lemma ClearKeeps(s: State, name: string)
    requires Consistent(s) && name in s.sections
    ensures Consistent(AfterClear(s, name)) && (Shown(s) ==> Shown(AfterClear(s, name)))
    ensures forall o :: o in AfterClear(s, name).held ==> AfterClear(s, name).held[o] != name
  {
    var s' := AfterClear(s, name);
    assert ListsHeld(s, name);
    forall n | n in s'.sections ensures ListsHeld(s', n) {
      assert ListsHeld(s, n);
    }
    if Shown(s) {
      forall i | 0 <= i < |s'.order| ensures ShowsAt(s', i) {
        assert ShowsAt(s, i);
      }
    }
  }

  lemma RemoveKeeps(s: State, name: string)
    requires Consistent(s) && name in s.sections
    ensures Consistent(AfterRemove(s, name))
  {
    var c, s' := AfterClear(s, name), AfterRemove(s, name);
    ClearKeeps(s, name);
    DroppedElements(s.order, name);
    forall n | n in s'.sections ensures ListsHeld(s', n) {
      assert ListsHeld(c, n);
    }
  }

  lemma {:induction false} DroppedAt(l: seq<string>, k: nat)
    requires Distinct(l) && k < |l|
    ensures Dropped(l, l[k]) == l[..k] + l[k + 1..]
  {
    if k > 0 {
      assert l[0] != l[k];
      assert Distinct(l[1..]) && l[1..][k - 1] == l[k];
      DroppedAt(l[1..], k - 1);
      assert l[..k] == [l[0]] + l[1..][..k - 1];
    }
  }

  ghost predicate MayRemove(s: State, k: nat) {
    s.active == NOACTIVE || k > s.active || (k == s.active && k == |s.order| - 1)
  }

  /** Where the section at i is once the one at k is removed, seen from there. */
  function Before(i: nat, k: nat): nat {
    if i < k then i else i + 1
  }

  lemma RemovedSections(s: State, k: nat)
    requires Consistent(s) && Shown(s) && k < |s.order|
    ensures s.order[k] in s.sections
    ensures var s' := AfterRemove(s, s.order[k]);
      && |s'.order| == |s.order| - 1
      && forall i :: 0 <= i < |s'.order| ==>
        s'.order[i] in s'.sections && (s'.sections[s'.order[i]].visible <==> Before(i, k) == s.active)
  {
    assert s.order[k] in s.order;
    var s' := AfterRemove(s, s.order[k]);
    DroppedAt(s.order, k);
    forall i | 0 <= i < |s'.order|
      ensures s'.order[i] in s'.sections && (s'.sections[s'.order[i]].visible <==> Before(i, k) == s.active)
    {
      assert s'.order[i] == s.order[Before(i, k)];
      assert ShowsAt(s, Before(i, k));
      assert s'.order[i] != s.order[k];
    }
  }

  /** Removing a section leaves just the active one showing if there is none active, if the
      section comes after the active one, or if it is the active one and the last; and in these
      cases only, for the number of the active section is not shifted. */
  lemma RemoveKeepsShownIff(s: State, k: nat)
    requires Consistent(s) && Shown(s) && k < |s.order|
    ensures s.order[k] in s.sections
    ensures Shown(AfterRemove(s, s.order[k])) <==> MayRemove(s, k)
  {
    RemovedSections(s, k);
    var s' := AfterRemove(s, s.order[k]);
    if MayRemove(s, k) {
      forall i | 0 <= i < |s'.order| ensures ShowsAt(s', i) {
      }
    } else if k < s.active {
      assert !ShowsAt(s', s.active - 1);
    } else {
      assert !ShowsAt(s', k);
    }
  }

  ghost predicate HiddenAt(s: State, i: nat)
    requires i < |s.order|
  {
    s.order[i] in s.sections && !s.sections[s.order[i]].visible
  }

  /** Moving to another section ends with just that one showing if and only if all the sections but
      the two were hidden, whatever the two did. */
  lemma ActivateShownIff(s: State, num: int)
    requires Consistent(s) && -1 <= num < |s.order| && -1 <= s.active < |s.order|
    ensures forall i :: 0 <= i < |s.order| ==> s.order[i] in s.sections
    ensures Consistent(AfterActivate(s, num)) && AfterActivate(s, num).active == num
    ensures Shown(AfterActivate(s, num)) <==>
      if s.active == num then Shown(s)
      else forall i {:trigger HiddenAt(s, i)} :: 0 <= i < |s.order| && i != num && i != s.active ==> HiddenAt(s, i)
  {
    assert forall i :: 0 <= i < |s.order| ==> s.order[i] in s.order;
    ActivateConsistent(s, num);
    var s' := AfterActivate(s, num);
    if s.active != num {
      forall i | 0 <= i < |s.order| ensures ShowsAt(s', i) <==> i == num || i == s.active || HiddenAt(s, i) {
        assert i != num && num >= 0 ==> s.order[i] != s.order[num];
      }
    }
  }

  lemma ActivateConsistent(s: State, num: int)
    requires Consistent(s) && -1 <= num < |s.order| && -1 <= s.active < |s.order|
    requires forall i :: 0 <= i < |s.order| ==> s.order[i] in s.sections
    ensures Consistent(AfterActivate(s, num))
  {
    var s' := AfterActivate(s, num);
    forall n | n in s'.sections ensures ListsHeld(s', n) {
      assert ListsHeld(s, n);
    }
  }

  lemma ActivateKeeps(s: State, num: int)
    requires Consistent(s) && Shown(s) && -1 <= num < |s.order|
    ensures forall i :: 0 <= i < |s.order| ==> s.order[i] in s.sections
    ensures Consistent(AfterActivate(s, num)) && Shown(AfterActivate(s, num)) && AfterActivate(s, num).active == num
  {
    ActivateShownIff(s, num);
    forall i | 0 <= i < |s.order| && i != num && i != s.active ensures HiddenAt(s, i) {
      assert ShowsAt(s, i);
    }
  }

  // ------------------------------------------------------------------ whole runs

  datatype Op =
    | Add(name: string, title: string) | Adopt(name: string, o: nat, free: bool) | Leave(o: nat)
    | Clear(name: string) | Remove(place: nat) | Activate(num: int)

  ghost function After(s: State, op: Op): State {
    match op
    case Add(name, title) => if name in s.order then s else AfterAdd(s, name, title)
    case Adopt(name, o, free) => if name in s.sections then AfterAdoptIn(s, name, o, free) else s
    case Leave(o) => if o in s.sectionOf && s.sectionOf[o] in s.sections then AfterLeave(s, o) else s
    case Clear(name) => if name in s.sections then AfterClear(s, name) else s
    case Remove(k) => if k < |s.order| && s.order[k] in s.sections then AfterRemove(s, s.order[k]) else s
    case Activate(num) =>
      if -1 <= num < |s.order| && -1 <= s.active < |s.order| && forall i :: 0 <= i < |s.order| ==>
        s.order[i] in s.sections
      then AfterActivate(s, num) else s
  }

  /** Only objects of no parent are adopted, and only sections that may be removed are. */
  ghost predicate Careful(s: State, op: Op) {
    match op
    case Adopt(name, o, free) => free && o !in s.held
    case Remove(k) => MayRemove(s, k)
    case _ => true
  }

  lemma StepKeeps(s: State, op: Op)
    requires Consistent(s) && Shown(s) && Careful(s, op)
    ensures Consistent(After(s, op)) && Shown(After(s, op))
  {
    match op
    case Add(name, title) => if name !in s.order { AddKeeps(s, name, title); }
    case Adopt(name, o, free) => if name in s.sections { AdoptKeepsIffFree(s, name, o, free); }
    case Leave(o) => if o in s.held { LeaveKeeps(s, o); }
    case Clear(name) => if name in s.sections { ClearKeeps(s, name); }
    case Remove(k) =>
      if k < |s.order| {
        assert s.order[k] in s.order;
        RemoveKeeps(s, s.order[k]);
        RemoveKeepsShownIff(s, k);
      }
    case Activate(num) => if -1 <= num < |s.order| { ActivateKeeps(s, num); }
  }

  ghost function Run(ops: seq<Op>): State {
    if ops == [] then EMPTY else After(Run(ops[..|ops| - 1]), ops[|ops| - 1])
  }

  lemma {:induction false} RunKeeps(ops: seq<Op>)
    requires forall i :: 0 <= i < |ops| ==> Careful(Run(ops[..i]), ops[i])
    ensures Consistent(Run(ops)) && Shown(Run(ops))
  {
    if ops != [] {
      var before := ops[..|ops| - 1];
      forall i | 0 <= i < |before| ensures Careful(Run(before[..i]), before[i]) {
        assert before[..i] == ops[..i];
      }
      RunKeeps(before);
      StepKeeps(Run(before), ops[|ops| - 1]);
    }
  }

  // ------------------------------------------------------------------ the component

  class HtmlAiguille {
    var order: seq<string>
    var sections: map<string, Section>
    var sectionOf: map<nat, string>
    var held: map<nat, string>
    var active: int
    /** Objects are let go by this component itself: it need not be told. */
    var selfcleaning: bool

    ghost function S(): State
      reads this`order, this`sections, this`sectionOf, this`held, this`active
    {
      State(order, sections, sectionOf, held, active)
    }

    constructor ()
      ensures S() == EMPTY && Consistent(S()) && Shown(S()) && !selfcleaning
    {
      order, sections, sectionOf, held := [], map[], map[], map[];
      active, selfcleaning := NOACTIVE, false;
    }

    method AddSection(name: string, title: string) returns (out: Outcome)
      requires Consistent(S())
      modifies this`order, this`sections
      ensures out == if name in old(order) then RangeError else Done
      ensures S() == if out.Done? then AfterAdd(old(S()), name, title) else old(S())
      ensures Consistent(S()) && (old(Shown(S())) ==> Shown(S()))
    {
      if name in order {
        return RangeError;
      }
      AddKeeps(S(), name, title);
      order := order + [name];
      sections := sections[name := Section(title, false, [])];
      out := Done;
    }

    method AdoptInSection(name: string, o: nat, parentElsewhere: bool) returns (out: Outcome)
      requires Consistent(S()) && (parentElsewhere ==> o !in held)
      modifies this`sections, this`sectionOf, this`held
      ensures out.RangeError? <==> name !in old(sections)
      ensures out.RangeError? ==> S() == old(S())
      ensures name in old(sections) ==> S() == AfterAdoptIn(old(S()), name, o, out.Done?)
      ensures out.Bug? <==> name in old(sections) && (parentElsewhere || o in old(held))
      ensures Consistent(S()) <==> !out.Bug?
    {
      if name !in sections {
        return RangeError;
      }
      AdoptKeepsIffFree(S(), name, o, !parentElsewhere && o !in held);
      sectionOf := sectionOf[o := name];
      sections := sections[name := sections[name].(adopted := sections[name].adopted + [o])];
      if parentElsewhere || o in held {
        return Bug;
      }
      held := held[o := name];
      out := Done;
    }

    /** The section that holds an object is about to let it go. */
    method VoidChildWillForesake(o: nat) returns (out: Outcome)
      requires Consistent(S()) || selfcleaning
      modifies this`sections, this`sectionOf
      ensures selfcleaning ==> out.Done? && S() == old(S())
      ensures !selfcleaning ==> out == if o in old(held) then Done else Bug
      ensures out.Bug? ==> S() == old(S())
      ensures !selfcleaning && out.Done? ==> o in old(sectionOf) && old(sectionOf)[o] in old(sections)
      ensures !selfcleaning && out.Done? ==> S() == AfterLeave(old(S()), o).(held := old(held))
    {
      if selfcleaning {
        return Done;
      }
      if o !in sectionOf {
        return Bug;
      }
      LeaveKeeps(S(), o);
      var name := sectionOf[o];
      if name !in sections {
        return Bug;
      }
      assert ListsHeld(S(), name);
      if o !in sections[name].adopted {
        return Bug;
      }
      sections := sections[name := sections[name].(adopted := Dropped(sections[name].adopted, o))];
      sectionOf := sectionOf - {o};
      out := Done;
    }

    /** An object leaves the section that holds it, which tells this component first. */
    method Leave(o: nat) returns (out: Outcome)
      requires o in held && (Consistent(S()) || selfcleaning)
      modifies this`sections, this`sectionOf, this`held
      ensures out.Done?
      ensures selfcleaning ==> S() == old(S()).(held := old(held) - {o})
      ensures !selfcleaning ==>
        o in old(sectionOf) && old(sectionOf)[o] in old(sections) && S() == AfterLeave(old(S()), o)
      ensures !selfcleaning ==> Consistent(S()) && (old(Shown(S())) ==> Shown(S()))
    {
      if Consistent(S()) {
        LeaveKeeps(S(), o);
      }
      out := VoidChildWillForesake(o);
      held := held - {o};
    }

    /** This component forgets an object it holds, and lets it go. */
    method LetGo(o: nat)
      requires selfcleaning && o in sectionOf && o in held
      modifies this`sections, this`sectionOf, this`held
      ensures S() == old(S()).(sectionOf := old(sectionOf) - {o}, held := old(held) - {o})
    {
      sectionOf := sectionOf - {o};
      var out := Leave(o);
    }

    method LetAllGo(adopted: seq<nat>)
      requires selfcleaning && Distinct(adopted) && forall o :: o in adopted ==> o in sectionOf && o in held
      modifies this`sections, this`sectionOf, this`held
      ensures var gone := set o | o in adopted;
        S() == old(S()).(sectionOf := old(sectionOf) - gone, held := old(held) - gone)
    {
      ghost var s := S();
      var i := 0;
      ghost var gone: set<nat> := {};
      while i < |adopted|
        invariant 0 <= i <= |adopted| && gone == (set k | 0 <= k < i :: adopted[k])
        invariant S() == s.(sectionOf := s.sectionOf - gone, held := s.held - gone)
      {
        var o := adopted[i];
        assert o in s.held && o !in gone;
        LetGo(o);
        gone := gone + {o};
        i := i + 1;
      }
      assert gone == set o | o in adopted;
    }

    method ClearSection(name: string) returns (out: Outcome)
      requires Consistent(S())
      modifies this`sections, this`sectionOf, this`held, this`selfcleaning
      ensures !selfcleaning
      ensures out == if name in old(sections) then Done else RangeError
      ensures name in old(sections) ==> S() == AfterClear(old(S()), name)
      ensures name !in old(sections) ==> S() == old(S())
      ensures Consistent(S()) && (old(Shown(S())) ==> Shown(S()))
    {
      selfcleaning := true;
      if name !in sections {
        selfcleaning := false;
        return RangeError;
      }
      ghost var s := S();
      ClearKeeps(s, name);
      assert ListsHeld(s, name);
      LetAllGo(sections[name].adopted);
      sections := sections[name := sections[name].(adopted := [])];
      selfcleaning := false;
      out := Done;
    }

    method RemoveSection(name: string) returns (out: Outcome)
      requires Consistent(S())
      modifies this`order, this`sections, this`sectionOf, this`held, this`active, this`selfcleaning
      ensures !selfcleaning
      ensures out == if name in old(sections) then Done else RangeError
      ensures S() == if out.Done? then AfterRemove(old(S()), name) else old(S())
      ensures Consistent(S()) && (out.Done? ==> -1 <= active < |order|)
    {
      ghost var s := S();
      out := ClearSection(name);
      if !out.Done? {
        return;
      }
      RemoveKeeps(s, name);
      sections := sections - {name};
      order := Dropped(order, name);
      if !(0 <= active < |order|) {
        active := NOACTIVE;
      }
    }

    method RemoveSectionAt(num: int) returns (out: Outcome)
      requires Consistent(S())
      modifies this`order, this`sections, this`sectionOf, this`held, this`active, this`selfcleaning
      ensures out == if 0 <= num < old(|order|) then Done else RangeError
      ensures out.Done? ==> old(order[num]) in old(sections) && S() == AfterRemove(old(S()), old(order[num]))
      ensures out.RangeError? ==> S() == old(S())
      ensures Consistent(S()) && (out.Done? && old(Shown(S())) ==> (Shown(S()) <==> old(MayRemove(S(), num))))
    {
      if !(0 <= num < |order|) {
        return RangeError;
      }
      assert order[num] in order;
      if Shown(S()) {
        RemoveKeepsShownIff(S(), num);
      }
      out := RemoveSection(order[num]);
    }

    /** The active section, if any, is one there is, even once removals have left it wrong. */
    method SetActiveSection(num: int) returns (out: Outcome)
      requires Consistent(S()) && -1 <= active < |order|
      modifies this`sections, this`active
      ensures out == if -1 <= num < |order| then Done else RangeError
      ensures out.RangeError? ==> S() == old(S())
      ensures out.Done? ==>
        (forall i :: 0 <= i < |order| ==> order[i] in old(sections)) && S() == AfterActivate(old(S()), num)
      ensures Consistent(S()) && -1 <= active < |order| && (old(Shown(S())) ==> Shown(S()))
    {
      if !(0 <= num < |order|) && num != NOACTIVE {
        return RangeError;
      }
      ghost var s := S();
      ActivateShownIff(s, num);
      if Shown(s) {
        ActivateKeeps(s, num);
      }
      if active != num {
        if active != NOACTIVE {
          SetVisibility(active, false);
        }
        if num != NOACTIVE {
          SetVisibility(num, true);
        }
        active := num;
      }
      out := Done;
    }

    method SetVisibility(num: int, visible: bool)
      requires 0 <= num < |order| && order[num] in sections
      modifies this`sections
      ensures S() == WithVisible(old(S()), num, visible)
    {
      var name := order[num];
      sections := sections[name := sections[name].(visible := visible)];
    }

    method Clear()
      requires Consistent(S())
      modifies this`order, this`sections, this`sectionOf, this`held, this`active, this`selfcleaning
      ensures S() == EMPTY && Consistent(S()) && Shown(S()) && !selfcleaning
    {
      while order != []
        invariant Consistent(S())
        decreases |order|
      {
        assert order[0] in order;
        DroppedElements(order, order[0]);
        var out := RemoveSection(order[0]);
      }
      active := NOACTIVE;
      selfcleaning := false;
      EmptyRecords(S());
    }
  }

  lemma EmptyRecords(s: State)
    requires Consistent(s) && s.order == []
    ensures s.sections == map[] && s.sectionOf == map[] && s.held == map[]
  {
    assert forall n :: n !in s.sections;
    assert forall o :: o !in s.held;
  }

  // ------------------------------------------------------------------ what stays the same

  /** A new section comes last, hidden and empty, with its title; the others stay as they are. */
  lemma AddedLast(s: State, name: string, title: string)
    requires Consistent(s) && name !in s.order
    ensures var s' := AfterAdd(s, name, title);
      && |s'.order| == |s.order| + 1 && s'.order[|s.order|] == name
      && (forall i :: 0 <= i < |s.order| ==> s'.order[i] == s.order[i])
      && name in s'.sections && s'.sections[name].title == title && !s'.sections[name].visible
      && s'.sections[name].adopted == []
      && (forall n :: n in s.sections ==> n in s'.sections && s'.sections[n] == s.sections[n])
      && s'.sectionOf == s.sectionOf && s'.held == s.held && s'.active == s.active
  {
  }

  /** An adopted object comes last in its section; no other section and no title is concerned. */
  lemma AdoptedLast(s: State, name: string, o: nat, free: bool)
    requires Consistent(s) && name in s.sections
    ensures var s' := AfterAdoptIn(s, name, o, free); var l, l' := s.sections[name], s'.sections[name];
      && s'.sections.Keys == s.sections.Keys && (forall n :: n in s.sections && n != name ==>
         s'.sections[n] == s.sections[n])
      && l'.title == l.title && l'.visible == l.visible && |l'.adopted| == |l.adopted| + 1
      && l'.adopted[|l.adopted|] == o && (forall i :: 0 <= i < |l.adopted| ==> l'.adopted[i] == l.adopted[i])
      && o in s'.sectionOf && s'.sectionOf[o] == name && (free ==> o in s'.held && s'.held[o] == name)
      && (!free ==> s'.held == s.held) && s'.order == s.order && s'.active == s.active
  {
  }

  /** The objects of a section that remain, in the order they were in. */
  lemma LeftInOrder(s: State, o: nat, i: nat)
    requires Consistent(s) && o in s.held && s.held[o] in s.sections
    requires i < |s.sections[s.held[o]].adopted| && s.sections[s.held[o]].adopted[i] == o
    ensures o in s.sectionOf && s.sectionOf[o] == s.held[o]
    ensures var s', l := AfterLeave(s, o), s.sections[s.held[o]];
      && s'.sections.Keys == s.sections.Keys && (forall n :: n in s.sections && n != s.held[o] ==>
         s'.sections[n] == s.sections[n])
      && s'.sections[s.held[o]] == l.(adopted := l.adopted[..i] + l.adopted[i + 1..])
      && o !in s'.held && s'.order == s.order && s'.active == s.active
  {
    var l := s.sections[s.held[o]].adopted;
    assert ListsHeld(s, s.held[o]);
    assert l == l[..i] + [o] + l[i + 1..];
    assert o !in l[..i];
    DroppedIs(l[..i], o, l[i + 1..]);
  }

  /** An emptied section keeps its title and shows as before; the others are not concerned. */
  lemma ClearedLeaves(s: State, name: string)
    requires Consistent(s) && name in s.sections
    ensures var s' := AfterClear(s, name);
      && s'.sections.Keys == s.sections.Keys && (forall n :: n in s.sections && n != name ==>
         s'.sections[n] == s.sections[n])
      && s'.sections[name] == s.sections[name].(adopted := []) && s'.order == s.order && s'.active == s.active
      && (forall o :: o in s'.held <==> o in s.held && s.held[o] != name)
      && forall o :: o in s'.held ==> s'.held[o] == s.held[o]
  {
    assert ListsHeld(s, name);
  }

  /** The sections that remain after a removal, in order and as they were, with their objects. */
  lemma RemovedLeaves(s: State, k: nat)
    requires Consistent(s) && k < |s.order|
    ensures s.order[k] in s.sections
    ensures var s' := AfterRemove(s, s.order[k]);
      && s'.order == s.order[..k] + s.order[k + 1..] && s'.sections.Keys == s.sections.Keys - {s.order[k]}
      && (forall n :: n in s'.sections ==> s'.sections[n] == s.sections[n])
      && (forall o :: o in s'.held <==> o in s.held && s.held[o] != s.order[k])
      && (forall o :: o in s'.held ==> s'.held[o] == s.held[o])
      && s'.active == if s.active < |s.order| - 1 && s.active >= 0 then s.active else -1
  {
    assert s.order[k] in s.order;
    assert ListsHeld(s, s.order[k]);
    DroppedAt(s.order, k);
  }
}
