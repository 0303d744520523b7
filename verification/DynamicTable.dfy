/** A table whose lines each have a button that removes it. Removal is asked from within an event
    of the very line, so it is put off: the line is only marked, and its components let go. */
module DynamicTables {
  import opened Json
  import opened Tools

  datatype Outcome = Done | RangeError | JsonError | Bug

  datatype Content = Content(kind: nat, left: Option<string>, obj: Value)

  /** A line keeps its identity while the list around it changes. */
  datatype Line = Line(id: nat, content: Content)

  /** Lines in order, the line each delete event is for, the delete events received, and the
      lines whose components the displayed table still holds. */
  datatype State = State(lines: seq<Line>, events: map<string, nat>, pending: seq<string>, shown: set<nat>)

  ghost predicate DistinctIds(lines: seq<Line>) {
    forall i, j :: 0 <= i < j < |lines| ==> lines[i].id != lines[j].id
  }

  ghost function Ids(lines: seq<Line>): set<nat> {
    set l | l in lines :: l.id
  }

  ghost predicate DistinctNames(names: seq<string>) {
    forall i, j :: 0 <= i < j < |names| ==> names[i] != names[j]
  }

  /** Each line has its own delete event, and each delete event its line. */
  ghost predicate Bijection(s: State) {
    && DistinctIds(s.lines)
    && s.events.Values == Ids(s.lines)
    && forall m, n :: m in s.events && n in s.events && s.events[m] == s.events[n] ==> m == n
  }

  /** What stays true even once the counter has come back onto an event in use. */
  ghost predicate Loose(s: State) {
    && DistinctIds(s.lines) && s.events.Values <= Ids(s.lines)
    && forall m, n :: m in s.events && n in s.events && s.events[m] == s.events[n] ==> m == n
  }

  ghost function Doomed(s: State): set<nat> {
    set n | n in s.pending && n in s.events :: s.events[n]
  }

  ghost predicate Valid(s: State) {
    && Bijection(s)
    && DistinctNames(s.pending) && (forall n :: n in s.pending ==> n in s.events)
    && s.shown == Ids(s.lines) - Doomed(s)
  }

  // ------------------------------------------------------------------ what the operations do

  const EMPTY := State([], map[], [], {})

  function AfterAdd(s: State, name: string, line: Line): State {
    State(s.lines + [line], s.events[name := line.id], s.pending, s.shown + {line.id})
  }

  /** The line is for name, and its components are held. */
  predicate CanDelete(s: State, name: string) {
    name in s.events && s.events[name] in s.shown
  }

  function AfterDelete(s: State, name: string): State
    requires name in s.events
  {
    s.(pending := s.pending + [name], shown := s.shown - {s.events[name]})
  }

  function Erased(lines: seq<Line>, id: nat): seq<Line> {
    if lines == [] then [] else if lines[0].id == id then lines[1..] else [lines[0]] + Erased(lines[1..], id)
  }

  ghost function Kept(lines: seq<Line>, doomed: set<nat>): seq<Line> {
    if lines == [] then []
    else (if lines[0].id in doomed then [] else [lines[0]]) + Kept(lines[1..], doomed)
  }

  ghost function AfterPurge(s: State): State {
    State(Kept(s.lines, Doomed(s)), s.events - (set n | n in s.pending), [], s.shown - Doomed(s))
  }

  // ------------------------------------------------------------------ what they keep

  lemma EmptyIsValid()
    ensures Valid(EMPTY)
  {
  }

  /** A line under a new event keeps all in order; under an event in use, as the counter gives
      when it has wrapped around, it takes the event from the line that had it. */
  lemma AddKeepsValid(s: State, name: string, line: Line)
    requires Valid(s) && line.id !in Ids(s.lines)
    ensures Valid(AfterAdd(s, name, line)) <==> name !in s.events
  {
    var s' := AfterAdd(s, name, line);
    assert Ids(s'.lines) == Ids(s.lines) + {line.id} by {
      forall l | l in s.lines ensures l in s'.lines {
      }
      assert s'.lines[|s.lines|] == line;
    }
    if name in s.events {
      var id := s.events[name];
      assert id in s.events.Values;
      assert id in Ids(s'.lines);
      assert id !in s'.events.Values;
    } else {
      assert s'.events.Values == s.events.Values + {line.id} by {
        assert s'.events[name] == line.id;
        forall n | n in s.events ensures s'.events[n] == s.events[n] {
        }
      }
      assert Doomed(s') == Doomed(s);
      assert line.id !in s.events.Values;
    }
  }

  /** The components of a line are held until it is deleted, and only until then. */
  lemma CanDeleteOnce(s: State, name: string)
    requires Valid(s) && name in s.events
    ensures CanDelete(s, name) <==> name !in s.pending
  {
    assert s.events[name] in s.events.Values;
    if s.events[name] in Doomed(s) {
      var n :| n in s.pending && n in s.events && s.events[n] == s.events[name];
      assert n == name;
    }
  }

  lemma DeleteKeepsValid(s: State, name: string)
    requires Valid(s) && CanDelete(s, name)
    ensures Valid(AfterDelete(s, name)) && !CanDelete(AfterDelete(s, name), name)
  {
    CanDeleteOnce(s, name);
    var s' := AfterDelete(s, name);
    assert s'.pending[|s.pending|] == name;
    assert forall n :: n in s'.pending <==> n in s.pending || n == name;
    assert Doomed(s') == Doomed(s) + {s.events[name]};
  }

  lemma {:induction false} KeptElements(lines: seq<Line>, doomed: set<nat>)
    ensures forall l :: l in Kept(lines, doomed) <==> l in lines && l.id !in doomed
    ensures DistinctIds(lines) ==> DistinctIds(Kept(lines, doomed))
  {
    if lines != [] {
      var first, rest := lines[0], lines[1..];
      assert lines == [first] + rest;
      KeptElements(rest, doomed);
      if DistinctIds(lines) {
        assert DistinctIds(rest) by {
          forall i, j | 0 <= i < j < |rest| ensures rest[i].id != rest[j].id {
            assert lines[i + 1].id != lines[j + 1].id;
          }
        }
        forall i | 0 <= i < |Kept(rest, doomed)| ensures Kept(rest, doomed)[i].id != first.id {
          assert Kept(rest, doomed)[i] in rest;
          var k :| 0 <= k < |rest| && rest[k] == Kept(rest, doomed)[i];
          assert lines[0].id != lines[k + 1].id;
        }
      }
    }
  }

  lemma {:induction false} KeptAll(lines: seq<Line>, doomed: set<nat>)
    requires forall l :: l in lines ==> l.id !in doomed
    ensures Kept(lines, doomed) == lines
  {
    if lines != [] {
      KeptAll(lines[1..], doomed);
      assert lines == [lines[0]] + lines[1..];
    }
  }

  lemma {:induction false} KeptMore(lines: seq<Line>, doomed: set<nat>, more: set<nat>)
    ensures Kept(Kept(lines, doomed), more) == Kept(lines, doomed + more)
  {
    if lines != [] {
      var first, rest := lines[0], Kept(lines[1..], doomed);
      KeptMore(lines[1..], doomed, more);
      if first.id in doomed {
        assert Kept(lines, doomed) == rest;
      } else {
        assert Kept(lines, doomed) == [first] + rest;
        assert ([first] + rest)[1..] == rest;
      }
    }
  }

  /** Erasing the line of one identity among distinct ones. */
  lemma {:induction false} ErasedIsKept(lines: seq<Line>, id: nat)
    requires DistinctIds(lines)
    ensures Erased(lines, id) == Kept(lines, {id})
  {
    if lines != [] {
      forall i, j | 0 <= i < j < |lines[1..]| ensures lines[1..][i].id != lines[1..][j].id {
        assert lines[i + 1].id != lines[j + 1].id;
      }
      if lines[0].id == id {
        KeptAll(lines[1..], {id});
      } else {
        ErasedIsKept(lines[1..], id);
      }
    }
  }

  /** Purging leaves just the lines not marked, in order, each with its event. */
  lemma PurgeKeepsValid(s: State)
    requires Valid(s)
    ensures Valid(AfterPurge(s))
  {
    var s' := AfterPurge(s);
    KeptElements(s.lines, Doomed(s));
    assert Ids(s'.lines) == Ids(s.lines) - Doomed(s) by {
      forall id | id in Ids(s.lines) - Doomed(s) ensures id in Ids(s'.lines) {
        var l :| l in s.lines && l.id == id;
        assert l in s'.lines;
      }
    }
    PurgedValues(s, s');
    assert Doomed(s') == {};
  }

  lemma PurgedValues(s: State, s': State)
    requires Valid(s) && s'.events == s.events - (set n | n in s.pending)
    ensures s'.events.Values == Ids(s.lines) - Doomed(s)
  {
    forall n | n in s'.events ensures s'.events[n] !in Doomed(s) && s'.events[n] in Ids(s.lines) {
      assert s.events[n] in s.events.Values;
      CanDeleteOnce(s, n);
    }
    forall id | id in Ids(s.lines) - Doomed(s) ensures id in s'.events.Values {
      assert id in s.events.Values;
      var n :| n in s.events && s.events[n] == id;
      assert n in s'.events && s'.events[n] == id;
    }
  }

  /** The line that an event designates. */
  ghost function LineOf(s: State, name: string): (line: Line)
    requires Loose(s) && name in s.events
    ensures line in s.lines && line.id == s.events[name]
  {
    assert s.events[name] in s.events.Values;
    var line :| line in s.lines && line.id == s.events[name]; line
  }

  lemma OneLine(s: State, name: string, line: Line)
    requires Loose(s) && name in s.events && line in s.lines && line.id == s.events[name]
    ensures line == LineOf(s, name)
  {
    var i :| 0 <= i < |s.lines| && s.lines[i] == line;
    var j :| 0 <= j < |s.lines| && s.lines[j] == LineOf(s, name);
  }

  /** The lines marked can all be purged: no event was used twice meanwhile. */
  ghost predicate Purgeable(s: State) {
    DistinctNames(s.pending) && forall n :: n in s.pending ==> n in s.events
  }

  lemma AddKeepsLoose(s: State, name: string, line: Line)
    requires Loose(s) && line.id !in Ids(s.lines)
    ensures Loose(AfterAdd(s, name, line))
  {
    var s' := AfterAdd(s, name, line);
    assert s'.lines[|s.lines|] == line;
    assert Ids(s'.lines) == Ids(s.lines) + {line.id};
    forall n | n in s'.events ensures s'.events[n] in Ids(s'.lines) && (n != name ==> s'.events[n] != line.id) {
      if n != name {
        assert s.events[n] in s.events.Values;
      }
    }
  }

  lemma Added(s: State, name: string, line: Line)
    requires line.id !in Ids(s.lines)
    ensures Valid(s) ==> (Valid(AfterAdd(s, name, line)) <==> name !in s.events)
    ensures Loose(s) ==> Loose(AfterAdd(s, name, line))
  {
    if Loose(s) {
      AddKeepsLoose(s, name, line);
    }
    if Valid(s) {
      AddKeepsValid(s, name, line);
    }
  }

  lemma PurgeKeepsLoose(s: State)
    requires Loose(s) && Purgeable(s)
    ensures Loose(AfterPurge(s))
  {
    var s' := AfterPurge(s);
    KeptElements(s.lines, Doomed(s));
    forall n | n in s'.events ensures s'.events[n] in Ids(s'.lines) {
      assert s.events[n] in s.events.Values;
      var l :| l in s.lines && l.id == s.events[n];
      assert l.id !in Doomed(s);
      assert l in s'.lines;
    }
  }

  datatype Op = Add(name: string, line: Line) | Event(name: string) | Purge | Clear

  ghost function After(s: State, op: Op): State {
    match op
    case Add(name, line) => AfterAdd(s, name, line)
    case Event(name) => if CanDelete(s, name) then AfterDelete(s, name) else s
    case Purge => AfterPurge(s)
    case Clear => EMPTY
  }

  ghost function Run(ops: seq<Op>): State {
    if ops == [] then EMPTY else After(Run(ops[..|ops| - 1]), ops[|ops| - 1])
  }

  /** Lines are new objects, and the counter gives an event that is not in use. */
  ghost predicate Fresh(s: State, op: Op) {
    op.Add? ==> op.line.id !in Ids(s.lines) && op.name !in s.events
  }

  lemma {:induction false} RunIsValid(ops: seq<Op>)
    requires forall i :: 0 <= i < |ops| ==> Fresh(Run(ops[..i]), ops[i])
    ensures Valid(Run(ops))
  {
    if ops != [] {
      var before, op := ops[..|ops| - 1], ops[|ops| - 1];
      forall i | 0 <= i < |before| ensures Fresh(Run(before[..i]), before[i]) {
        assert before[..i] == ops[..i];
      }
      RunIsValid(before);
      var s := Run(before);
      match op
      case Add(name, line) => AddKeepsValid(s, name, line);
      case Event(name) => if CanDelete(s, name) { DeleteKeepsValid(s, name); }
      case Purge => PurgeKeepsValid(s);
      case Clear => EmptyIsValid();
    }
  }

  /** Whatever the counter gives, and so whatever the length of the run, lines and events stay told
      apart; what else a table in order has is lost just when an event in use is given again. */
  lemma StepKeepsLoose(s: State, op: Op)
    requires Loose(s) && (op.Add? ==> op.line.id !in Ids(s.lines)) && (op.Purge? ==> Purgeable(s))
    ensures Loose(After(s, op))
    ensures Valid(s) ==> (Valid(After(s, op)) <==> !(op.Add? && op.name in s.events))
  {
    match op
    case Add(name, line) =>
      AddKeepsLoose(s, name, line);
      if Valid(s) {
        AddKeepsValid(s, name, line);
      }
    case Event(name) =>
      if CanDelete(s, name) && Valid(s) {
        DeleteKeepsValid(s, name);
      }
    case Purge =>
      PurgeKeepsLoose(s);
      if Valid(s) {
        PurgeKeepsValid(s);
      }
    case Clear => EmptyIsValid();
  }

  // ------------------------------------------------------------------ JSON

  const FORMAT_VERSION: nat := 1
  const CLASS_ID := "html_form_dynamic_table"
  const HAS_LEFT_LABEL := "has-lef-labels"
  const CONTENTS_LABEL := "contents"
  const LEFT_LABEL := "left-label"
  const TYPE_LABEL := "type"
  const OBJECT_LABEL := "object"

  /** The source of the objects in the lines: what a new one of each kind holds, and the JSON
      that one of each kind accepts. */
  datatype Provider = Provider(kinds: nat, initial: nat -> Value, accepts: (nat, Value) -> bool)

  datatype Read<T> = Got(value: T) | Failed(error: Outcome)

  function LineJson(c: Content): Value {
    var members := map[TYPE_LABEL := Num(c.kind), OBJECT_LABEL := c.obj];
    Obj(if c.left.Some? then members[LEFT_LABEL := Str(c.left.value)] else members)
  }

  function ContentsJson(contents: seq<Content>): Value {
    if contents == [] then Null else PushBack(ContentsJson(contents[..|contents| - 1]),
      LineJson(contents[|contents| - 1]))
  }

  lemma {:induction false} ContentsAreList(contents: seq<Content>)
    ensures IsList(ContentsJson(contents)) && |Elements(ContentsJson(contents))| == |contents|
    ensures forall i :: 0 <= i < |contents| ==> Elements(ContentsJson(contents))[i] == LineJson(contents[i])
  {
    if contents != [] {
      ContentsAreList(contents[..|contents| - 1]);
    }
  }

  function Document(hasLeft: bool, contents: seq<Content>): Value {
    Wrap(FORMAT_VERSION, CLASS_ID, Obj(map[HAS_LEFT_LABEL := Bool(hasLeft), CONTENTS_LABEL := ContentsJson(contents)]))
  }

  /** A line of the kind is made first, then its label and object are read. */
  function KindOf(p: Provider, item: Value): Read<nat> {
    match At(item, TYPE_LABEL)
    case Some(Num(n)) =>
      if n % UINT_RANGE >= p.kinds then Failed(Bug) else if n != n % UINT_RANGE then Failed(Bug) else Got(n)
    case Some(Bool(b)) => Failed(Bug)
    case _ => Failed(JsonError)
  }

  /** Whether a line is made before it is found that it cannot be read. */
  predicate MadeFirst(p: Provider, item: Value) {
    match At(item, TYPE_LABEL)
    case Some(Num(n)) => n % UINT_RANGE < p.kinds
    case Some(Bool(b)) => (if b then 1 else 0) < p.kinds
    case _ => false
  }

  function ReadLine(p: Provider, hasLeft: bool, item: Value): Read<Content> {
    match KindOf(p, item)
    case Failed(e) => Failed(e)
    case Got(kind) =>
      if hasLeft && StringAt(item, LEFT_LABEL).None? then Failed(JsonError)
      else if At(item, OBJECT_LABEL).None? then Failed(JsonError)
      else if !p.accepts(kind, At(item, OBJECT_LABEL).value) then Failed(JsonError)
      else Got(Content(kind, if hasLeft then StringAt(item, LEFT_LABEL) else None, At(item, OBJECT_LABEL).value))
  }

  function HasLeftOf(j: Value): Read<bool> {
    match Unwrap(j)
    case None => Failed(JsonError)
    case Some(h) =>
      if h.id != CLASS_ID then Failed(RangeError)
      else if h.version > FORMAT_VERSION then Failed(RangeError)
      else if BoolAt(h.config, HAS_LEFT_LABEL).None? then Failed(JsonError)
      else Got(BoolAt(h.config, HAS_LEFT_LABEL).value)
  }

  function ListingOf(j: Value): Read<seq<Value>> {
    match Unwrap(j)
    case None => Failed(JsonError)
    case Some(h) =>
      match At(h.config, CONTENTS_LABEL)
      case None => Failed(JsonError)
      case Some(listing) => if IsList(listing) then Got(Elements(listing)) else Failed(RangeError)
  }

  ghost predicate CanLoad(p: Provider, source: Value) {
    && HasLeftOf(source).Got? && ListingOf(source).Got?
    && forall i :: 0 <= i < |ListingOf(source).value| ==>
       ReadLine(p, HasLeftOf(source).value, ListingOf(source).value[i]).Got?
  }

  /** Lines that can be saved and made again. */
  predicate Storable(p: Provider, hasLeft: bool, c: Content) {
    c.kind < p.kinds && c.kind < UINT_RANGE && c.left.Some? == hasLeft && p.accepts(c.kind, c.obj)
  }

  lemma LineReadBack(p: Provider, hasLeft: bool, c: Content)
    requires Storable(p, hasLeft, c)
    ensures ReadLine(p, hasLeft, LineJson(c)) == Got(c)
  {
    assert c.kind % UINT_RANGE == c.kind;
  }

  /** Loading what was saved gives the same lines. */
  lemma DocumentReadBack(p: Provider, hasLeft: bool, contents: seq<Content>)
    requires forall i :: 0 <= i < |contents| ==> Storable(p, hasLeft, contents[i])
    ensures var j := Document(hasLeft, contents);
      && HasLeftOf(j) == Got(hasLeft)
      && ListingOf(j).Got? && |ListingOf(j).value| == |contents|
      && forall i :: 0 <= i < |contents| ==> ReadLine(p, hasLeft, ListingOf(j).value[i]) == Got(contents[i])
  {
    ContentsAreList(contents);
    forall i | 0 <= i < |contents|
      ensures ReadLine(p, hasLeft, ListingOf(Document(hasLeft, contents)).value[i]) == Got(contents[i]) {
      LineReadBack(p, hasLeft, contents[i]);
    }
  }

  // ------------------------------------------------------------------ the component

  /** What a line is saved as. */
  function SavedAs(hasLeft: bool, c: Content): Content {
    if hasLeft then c else c.(left := None)
  }

  /** The lines are what the first n items tell. */
  ghost predicate LinesRead(p: Provider, hasLeft: bool, items: seq<Value>, lines: seq<Line>, n: nat)
    requires n <= |items|
  {
    |lines| == n && forall i :: 0 <= i < n ==> ReadLine(p, hasLeft, items[i]) == Got(lines[i].content)
  }

  lemma OneMoreRead(p: Provider, hasLeft: bool, items: seq<Value>, lines: seq<Line>, n: nat, id: nat, lines': seq<Line>)
    requires n < |items| && LinesRead(p, hasLeft, items, lines, n) && ReadLine(p, hasLeft, items[n]).Got?
    requires lines' == lines + [Line(id, ReadLine(p, hasLeft, items[n]).value)]
    ensures LinesRead(p, hasLeft, items, lines', n + 1)
  {
  }

  /** After n lines of all, added from the counter at start on. */
  ghost predicate Counted(s: State, count: nat, start: nat, n: nat, all: nat) {
    && count == (start + n) % UINT_RANGE && s.events.Keys == NamesFrom(start, n)
    && (all > UINT_RANGE || Valid(s))
  }

  lemma OneMoreCounted(s: State, s': State, start: nat, n: nat, all: nat)
    requires n < all && Counted(s, (start + n) % UINT_RANGE, start, n, all)
    requires s'.events.Keys == s.events.Keys + {Decimal((start + n) % UINT_RANGE)}
    requires Valid(s) && Decimal((start + n) % UINT_RANGE) !in s.events ==> Valid(s')
    ensures Counted(s', ((start + n) % UINT_RANGE + 1) % UINT_RANGE, start, n + 1, all)
  {
    if all <= UINT_RANGE {
      NotCountedYet(start, n);
    }
    NextNames(start, n);
    NextCount(start, n);
  }

  lemma NextLoaded(p: Provider, hasLeft: bool, items: seq<Value>, n: nat, item: Value, s: State, s': State, id: nat,
                   start: nat)
    requires n < |items| && item == items[n] && ReadLine(p, hasLeft, item).Got?
    requires LinesRead(p, hasLeft, items, s.lines, n) && Counted(s, (start + n) % UINT_RANGE, start, n, |items|)
    requires s'.lines == s.lines + [Line(id, ReadLine(p, hasLeft, item).value)]
    requires s'.events.Keys == s.events.Keys + {Decimal((start + n) % UINT_RANGE)}
    requires Valid(s) && Decimal((start + n) % UINT_RANGE) !in s.events ==> Valid(s')
    ensures LinesRead(p, hasLeft, items, s'.lines, n + 1)
    ensures Counted(s', ((start + n) % UINT_RANGE + 1) % UINT_RANGE, start, n + 1, |items|)
  {
    OneMoreCounted(s, s', start, n, |items|);
    OneMoreRead(p, hasLeft, items, s.lines, n, id, s'.lines);
  }

  function SavedContents(hasLeft: bool, lines: seq<Line>): seq<Content> {
    seq(|lines|, i requires 0 <= i < |lines| => SavedAs(hasLeft, lines[i].content))
  }

  class HtmlFormDynamicTable {
    const provider: Option<Provider>
    var hasLeft: bool
    var lines: seq<Line>
    var events: map<string, nat>
    var pending: seq<string>
    var shown: set<nat>
    /** An unsigned int, that starts at any value. */
    var count: nat
    var nextId: nat
    var ignoreEvents: bool
    /** How many times the actors were told. */
    ghost var acts: nat

    ghost function S(): State
      reads this`lines, this`events, this`pending, this`shown
    {
      State(lines, events, pending, shown)
    }

    ghost predicate IdsUsed()
      reads this`lines, this`nextId, this`count
    {
      count < UINT_RANGE && forall id :: id in Ids(lines) ==> id < nextId
    }

    constructor (provider: Option<Provider>, hasLeft: bool, count: nat)
      requires count < UINT_RANGE
      ensures Valid(S()) && S() == EMPTY && IdsUsed() && !ignoreEvents
      ensures this.provider == provider && this.hasLeft == hasLeft && this.count == count
    {
      this.provider, this.hasLeft, this.count := provider, hasLeft, count;
      lines, events, pending, shown := [], map[], [], {};
      nextId, ignoreEvents, acts := 0, false, 0;
    }

    method AddLine(kind: nat) returns (out: Outcome)
      requires IdsUsed()
      modifies this`lines, this`events, this`shown, this`count, this`nextId
      ensures IdsUsed()
      ensures out.Done? <==> provider.Some? && kind < provider.value.kinds
      ensures !out.Done? ==> out.Bug? && S() == old(S()) && count == old(count)
      ensures out.Done? ==>
        var line := Line(old(nextId), Content(kind, if hasLeft then Some("") else None, provider.value.initial(kind)));
        S() == AfterAdd(old(S()), Decimal(old(count)), line) && count == (old(count) + 1) % UINT_RANGE
      ensures out.Done? && old(Valid(S())) ==> (Valid(S()) <==> Decimal(old(count)) !in old(events))
      ensures old(Loose(S())) ==> Loose(S())
    {
      if provider.None? {
        return Bug;
      }
      if kind >= provider.value.kinds {
        return Bug;
      }
      ghost var s := S();
      var line := Line(nextId, Content(kind, if hasLeft then Some("") else None, provider.value.initial(kind)));
      nextId := nextId + 1;
      var eventName := Decimal(count);
      count := (count + 1) % UINT_RANGE;
      shown := shown + {line.id};
      IdsWith(lines, line);
      lines := lines + [line];
      events := events[eventName := line.id];
      Added(s, eventName, line);
      out := Done;
    }

    /** Marks the line of a delete event. For the same line again, its components being let go
        already, this fails. Any other event comes from the objects in the lines. */
    method DelLine(eventName: string) returns (out: Outcome)
      requires Loose(S())
      modifies this`pending, this`shown, this`acts
      ensures Loose(S()) && (old(Valid(S())) ==> Valid(S()))
      ensures eventName !in events ==> out.Done? && S() == old(S()) && acts == old(acts) + if ignoreEvents then 0 else 1
      ensures eventName in events ==> acts == old(acts)
      ensures eventName in events && out.Done? ==>
        CanDelete(old(S()), eventName) && S() == AfterDelete(old(S()), eventName)
      ensures eventName in events && !out.Done? ==> out.Bug? && S() == old(S())
      ensures eventName in events ==> LineOf(old(S()), eventName) in lines
      ensures eventName in events ==>
        (out.Done? <==> CanDelete(old(S()), eventName) && !(hasLeft && LineOf(old(S()), eventName).content.left.None?))
      ensures old(Valid(S())) && eventName in events ==>
        (CanDelete(old(S()), eventName) <==> eventName !in old(pending))
    {
      if eventName !in events {
        if !ignoreEvents {
          acts := acts + 1;
        }
        return Done;
      }
      ghost var s := S();
      var id := events[eventName];
      assert id in events.Values;
      var line :| line in lines && line.id == id;
      OneLine(s, eventName, line);
      if Valid(s) {
        CanDeleteOnce(s, eventName);
      }
      if hasLeft && line.content.left.None? {
        return Bug;
      }
      if id !in shown {
        return Bug;
      }
      if Valid(s) {
        DeleteKeepsValid(s, eventName);
      }
      shown := shown - {id};
      pending := pending + [eventName];
      out := Done;
    }

    /** Erases the lines marked, unless one of their events is not known any more. */
    method PurgeToDelete() returns (out: Outcome)
      requires Loose(S())
      modifies this`lines, this`events, this`pending, this`shown, this`acts
      ensures out == if old(Purgeable(S())) then Done else Bug
      ensures out.Done? ==> S() == AfterPurge(old(S())) && Loose(S()) && (old(Valid(S())) ==> Valid(S()))
      ensures out.Bug? ==> exists i :: StopsAt(old(S()), i) && S() == ErasedFirst(old(S()), i)
      ensures acts == old(acts) + if out.Done? && old(pending) != [] && !ignoreEvents then 1 else 0
    {
      ghost var s := S();
      var action := pending != [];
      var i := 0;
      NoneErased(s);
      while i < |pending|
        invariant 0 <= i <= |s.pending| && acts == old(acts) && S() == ErasedFirst(s, i) && SoFar(s, i)
      {
        out := Erase(s, i);
        if !out.Done? {
          assert StopsAt(s, i);
          return;
        }
        i := i + 1;
      }
      AllErased(s);
      pending := [];
      if action && !ignoreEvents {
        acts := acts + 1;
      }
      out := Done;
    }

    method Erase(ghost s: State, i: nat) returns (out: Outcome)
      requires Loose(s) && i < |s.pending| && S() == ErasedFirst(s, i) && SoFar(s, i)
      modifies this`lines, this`events, this`shown
      ensures out.Done? ==> S() == ErasedFirst(s, i + 1) && SoFar(s, i + 1)
      ensures !out.Done? ==> out.Bug? && !Purgeable(s) && S() == old(S()) && StopsAt(s, i)
    {
      var eventName := pending[i];
      if eventName !in events {
        NotPurgeable(s, i);
        return Bug;
      }
      var id := events[eventName];
      OneMoreErased(s, i);
      events := events - {eventName};
      lines := Erased(lines, id);
      shown := shown - {id};
      out := Done;
    }

    method Clear()
      modifies this`lines, this`events, this`pending, this`shown
      ensures S() == EMPTY && Valid(S())
    {
      lines, events, pending, shown := [], map[], [], {};
    }

    /** Loads a document in place of what the table holds. What was loaded before a failure
        stays. */
    method LoadJson(source: Value) returns (out: Outcome)
      requires IdsUsed()
      modifies this`hasLeft, this`lines, this`events, this`pending, this`shown, this`count, this`nextId,
        this`ignoreEvents
      ensures IdsUsed()
      ensures out.Done? <==> provider.Some? && CanLoad(provider.value, source)
      ensures out.Done? ==>
        && hasLeft == HasLeftOf(source).value && pending == []
        && LinesRead(provider.value, hasLeft, ListingOf(source).value, lines, |ListingOf(source).value|)
      ensures out.Done? && |lines| <= UINT_RANGE ==> Valid(S())
      ensures HasLeftOf(source).Failed? ==> out == HasLeftOf(source).error && hasLeft == old(hasLeft)
      ensures HasLeftOf(source).Got? ==> hasLeft == HasLeftOf(source).value
      ensures HasLeftOf(source).Got? && ListingOf(source).Failed? ==> out == ListingOf(source).error
      ensures HasLeftOf(source).Got? && ListingOf(source).Got? && provider.None? ==> out.Bug?
      ensures HasLeftOf(source).Got? && ListingOf(source).Got? && provider.Some? ==>
        && pending == [] && !ignoreEvents
        && (!out.Done? ==> exists k :: StoppedAt(provider.value, ListingOf(source).value, k, out))
      ensures HasLeftOf(source).Failed? || ListingOf(source).Failed? || provider.None? ==>
        S() == old(S()) && ignoreEvents == old(ignoreEvents)
    {
      var h := Unwrap(source);
      if h.None? {
        return JsonError;
      }
      if h.value.id != CLASS_ID {
        return RangeError;
      }
      if h.value.version > FORMAT_VERSION {
        return RangeError;
      }
      var left := BoolAt(h.value.config, HAS_LEFT_LABEL);
      if left.None? {
        return JsonError;
      }
      hasLeft := left.value;
      var listing := At(h.value.config, CONTENTS_LABEL);
      if listing.None? {
        return JsonError;
      }
      if !IsList(listing.value) {
        return RangeError;
      }
      if provider.None? {
        return Bug;
      }
      ignoreEvents := true;
      Clear();
      out := LoadLines(Elements(listing.value));
      ghost var k: nat := 0;
      if !out.Done? {
        k :| StoppedAt(provider.value, Elements(listing.value), k, out);
      }
      ignoreEvents := false;
      assert out.Done? || StoppedAt(provider.value, ListingOf(source).value, k, out);
    }

    method LoadLines(items: seq<Value>) returns (out: Outcome)
      requires IdsUsed() && provider.Some? && S() == EMPTY
      modifies this`lines, this`events, this`shown, this`count, this`nextId
      ensures IdsUsed() && pending == []
      ensures out.Done? <==> forall i :: 0 <= i < |items| ==> ReadLine(provider.value, hasLeft, items[i]).Got?
      ensures out.Done? ==> LinesRead(provider.value, hasLeft, items, lines, |items|)
      ensures out.Done? && |items| <= UINT_RANGE ==> Valid(S())
      ensures !out.Done? ==> exists k :: StoppedAt(provider.value, items, k, out)
    {
      var i := 0;
      ghost var start := count;
      EmptyIsValid();
      while i < |items|
        invariant 0 <= i <= |items| && pending == [] && IdsUsed()
        invariant LinesRead(provider.value, hasLeft, items, lines, i)
        invariant Counted(S(), count, start, i, |items|)
      {
        out := LoadNext(items, i, start);
        if !out.Done? {
          return;
        }
        i := i + 1;
      }
      out := Done;
    }

    method LoadNext(items: seq<Value>, i: nat, ghost start: nat) returns (out: Outcome)
      requires i < |items| && IdsUsed() && provider.Some?
      requires LinesRead(provider.value, hasLeft, items, lines, i) && Counted(S(), count, start, i, |items|)
      modifies this`lines, this`events, this`shown, this`count, this`nextId
      ensures IdsUsed()
      ensures out == match ReadLine(provider.value, hasLeft, items[i]) case Got(_) => Done case Failed(e) => e
      ensures out.Done? ==>
        LinesRead(provider.value, hasLeft, items, lines, i + 1) && Counted(S(), count, start, i + 1, |items|)
      ensures !out.Done? ==> StoppedAt(provider.value, items, i, out)
    {
      ghost var before, id, item := S(), nextId, items[i];
      out := LoadLine(items[i]);
      if out.Done? {
        NextLoaded(provider.value, hasLeft, items, i, item, before, S(), id, start);
      }
    }

    /** Reading stopped at the item k, the first that cannot be read: those before it are the lines there are,
        but for the one that was being made. */
    ghost predicate StoppedAt(p: Provider, items: seq<Value>, k: nat, out: Outcome)
      reads this`lines, this`hasLeft
    {
      && k < |items| && ReadLine(p, hasLeft, items[k]) == Failed(out)
      && |lines| == k + (if MadeFirst(p, items[k]) then 1 else 0) && LinesRead(p, hasLeft, items, lines[..k], k)
    }

    /** The lines there were, and the one being read when it failed, once it has a kind. */
    ghost predicate LeftOver(before: seq<Line>, made: bool)
      reads this`lines
    {
      |lines| == |before| + (if made then 1 else 0) && lines[..|before|] == before
    }

    /** A line as the document tells, added after the others. */
    method LoadLine(item: Value) returns (out: Outcome)
      requires IdsUsed() && provider.Some?
      modifies this`lines, this`events, this`shown, this`count, this`nextId
      ensures IdsUsed()
      ensures old(Valid(S())) && Decimal(old(count)) !in old(events) ==> Valid(S())
      ensures out == match ReadLine(provider.value, hasLeft, item) case Got(_) => Done case Failed(e) => e
      ensures out.Done? ==> lines == old(lines) + [Line(old(nextId), ReadLine(provider.value, hasLeft, item).value)]
      ensures !out.Done? ==> LeftOver(old(lines), MadeFirst(provider.value, item))
      ensures out.Done? ==>
        count == (old(count) + 1) % UINT_RANGE && events.Keys == old(events).Keys + {Decimal(old(count))}
    {
      var kindRead := At(item, TYPE_LABEL);
      if kindRead.None? {
        return JsonError;
      }
      var number: int;
      match kindRead.value {
        case Num(n) => number := n;
        case Bool(b) => number := if b then 1 else 0;
        case _ => return JsonError;
      }
      out := AddLine(number % UINT_RANGE);
      if !out.Done? {
        return;
      }
      if kindRead.value.Bool? || number % UINT_RANGE != number {
        return Bug;
      }
      out := FillLast(item, number);
    }

    method FillLast(item: Value, kind: nat) returns (out: Outcome)
      requires IdsUsed() && provider.Some? && lines != [] && KindOf(provider.value, item) == Got(kind)
      requires lines[|lines| - 1].content.kind == kind && (!hasLeft ==> lines[|lines| - 1].content.left.None?)
      modifies this`lines
      ensures IdsUsed() && (old(Valid(S())) ==> Valid(S()))
      ensures out == match ReadLine(provider.value, hasLeft, item) case Got(_) => Done case Failed(e) => e
      ensures out.Done? ==>
        lines == old(lines)[..|old(lines)| - 1] + [Line(old(lines)[|old(lines)| - 1].id,
          ReadLine(provider.value, hasLeft, item).value)]
      ensures |lines| == |old(lines)| && lines[..|lines| - 1] == old(lines)[..|lines| - 1]
    {
      if hasLeft {
        var left := StringAt(item, LEFT_LABEL);
        if left.None? {
          return JsonError;
        }
        SetLast(Content(kind, left, lines[|lines| - 1].content.obj));
      }
      var obj := At(item, OBJECT_LABEL);
      if obj.None? || !provider.value.accepts(kind, obj.value) {
        return JsonError;
      }
      SetLast(lines[|lines| - 1].content.(obj := obj.value));
      out := Done;
    }

    method SetLast(c: Content)
      requires IdsUsed() && lines != []
      modifies this`lines
      ensures IdsUsed() && (old(Valid(S())) ==> Valid(S()))
      ensures lines == old(lines)[..|old(lines)| - 1] + [Line(old(lines)[|old(lines)| - 1].id, c)]
    {
      var front, last := lines[..|lines| - 1], lines[|lines| - 1];
      assert lines == front + [last];
      IdsWith(front, last);
      IdsWith(front, Line(last.id, c));
      lines := front + [Line(last.id, c)];
    }

    /** What is saved holds the lines marked for deletion as well. */
    method SaveJson() returns (j: Read<Value>)
      ensures j.Got? <==> forall i :: 0 <= i < |lines| && hasLeft ==> lines[i].content.left.Some?
      ensures j.Got? ==> j.value == Document(hasLeft, SavedContents(hasLeft, lines))
      ensures j.Failed? ==> j.error == Bug
    {
      var contents: seq<Content> := [];
      var listing := Null;
      var i := 0;
      while i < |lines|
        invariant 0 <= i <= |lines| && |contents| == i
        invariant forall k :: 0 <= k < i ==>
          contents[k] == SavedAs(hasLeft, lines[k].content) && (hasLeft ==> lines[k].content.left.Some?)
        invariant listing == ContentsJson(contents)
      {
        if hasLeft && lines[i].content.left.None? {
          return Failed(Bug);
        }
        ContentsAreList(contents);
        var c := SavedAs(hasLeft, lines[i].content);
        assert (contents + [c])[..|contents|] == contents;
        listing := PushBack(listing, LineJson(c));
        contents := contents + [c];
        i := i + 1;
      }
      assert contents == SavedContents(hasLeft, lines);
      j := Got(Wrap(FORMAT_VERSION, CLASS_ID, Obj(map[HAS_LEFT_LABEL := Bool(hasLeft), CONTENTS_LABEL := listing])));
    }
  }

  ghost function NthName(start: nat, k: nat): string {
    Decimal((start + k) % UINT_RANGE)
  }

  ghost function NamesFrom(start: nat, n: nat): set<string> {
    set k | 0 <= k < n :: NthName(start, k)
  }

  lemma NextNames(start: nat, n: nat)
    ensures NamesFrom(start, n + 1) == NamesFrom(start, n) + {NthName(start, n)}
  {
  }

  lemma NextCount(start: nat, n: nat)
    ensures ((start + n) % UINT_RANGE + 1) % UINT_RANGE == (start + (n + 1)) % UINT_RANGE
  {
    var c := start + n;
    assert c == c / UINT_RANGE * UINT_RANGE + c % UINT_RANGE;
  }

  /** The counter does not give a name again before it has gone all the way around. */
  lemma NotCountedYet(start: nat, n: nat)
    requires n < UINT_RANGE
    ensures NthName(start, n) !in NamesFrom(start, n)
  {
    forall k | 0 <= k < n ensures NthName(start, k) != NthName(start, n) {
      DecimalTellsApart((start + k) % UINT_RANGE, (start + n) % UINT_RANGE);
    }
  }

  lemma DecimalTellsApart(m: nat, n: nat)
    ensures Decimal(m) == Decimal(n) ==> m == n
  {
    assert ValueOf(Decimal(m)) == m && ValueOf(Decimal(n)) == n;
  }

  lemma IdsWith(lines: seq<Line>, line: Line)
    ensures Ids(lines + [line]) == Ids(lines) + {line.id}
  {
    forall l | l in lines ensures l in lines + [line] {
    }
    assert (lines + [line])[|lines|] == line;
  }

  // ------------------------------------------------------------------ while purging

  ghost function Firsts(names: seq<string>, i: nat): set<string>
    requires i <= |names|
  {
    set n | n in names[..i]
  }

  /** The first i events marked are all different, and were known. */
  ghost predicate SoFar(s: State, i: nat) {
    i <= |s.pending| && DistinctNames(s.pending[..i]) && Firsts(s.pending, i) <= s.events.Keys
  }

  ghost function DoomedFirst(s: State, i: nat): set<nat>
    requires i <= |s.pending|
  {
    set n | n in Firsts(s.pending, i) && n in s.events :: s.events[n]
  }

  /** The lines of the first i events marked are erased. */
  ghost function ErasedFirst(s: State, i: nat): State
    requires i <= |s.pending|
  {
    State(Kept(s.lines, DoomedFirst(s, i)), s.events - Firsts(s.pending, i), s.pending, s.shown - DoomedFirst(s, i))
  }

  /** The event marked at i is the first that cannot be purged: it was met before, or is not known. */
  ghost predicate StopsAt(s: State, i: nat) {
    SoFar(s, i) && i < |s.pending| && (s.pending[i] in Firsts(s.pending, i) || s.pending[i] !in s.events)
  }

  lemma NoneErased(s: State)
    ensures ErasedFirst(s, 0) == s && SoFar(s, 0)
  {
    KeptAll(s.lines, {});
    assert DoomedFirst(s, 0) == {} && Firsts(s.pending, 0) == {};
    assert s.events - {} == s.events && s.shown - {} == s.shown;
  }

  lemma OneMoreErased(s: State, i: nat)
    requires Loose(s) && SoFar(s, i) && i < |s.pending| && s.pending[i] in ErasedFirst(s, i).events
    ensures var before, id := ErasedFirst(s, i), s.events[s.pending[i]];
      && before.events[s.pending[i]] == id && SoFar(s, i + 1)
      && ErasedFirst(s, i + 1) ==
        State(Erased(before.lines, id), before.events - {s.pending[i]}, s.pending, before.shown - {id})
  {
    var name := s.pending[i];
    var id := s.events[name];
    var doomed := DoomedFirst(s, i);
    OneMoreName(s.pending, i);
    assert Firsts(s.pending, i + 1) == Firsts(s.pending, i) + {name};
    assert DoomedFirst(s, i + 1) == doomed + {id};
    KeptWithout(s.lines, doomed, id);
  }

  lemma KeptWithout(lines: seq<Line>, doomed: set<nat>, id: nat)
    requires DistinctIds(lines)
    ensures Erased(Kept(lines, doomed), id) == Kept(lines, doomed + {id})
  {
    KeptElements(lines, doomed);
    ErasedIsKept(Kept(lines, doomed), id);
    KeptMore(lines, doomed, {id});
  }

  lemma OneMoreName(names: seq<string>, i: nat)
    requires i < |names| && names[i] !in Firsts(names, i) && DistinctNames(names[..i])
    ensures DistinctNames(names[..i + 1]) && Firsts(names, i + 1) == Firsts(names, i) + {names[i]}
  {
    assert names[..i + 1] == names[..i] + [names[i]];
  }

  lemma NotPurgeable(s: State, i: nat)
    requires i < |s.pending| && s.pending[i] !in ErasedFirst(s, i).events
    ensures !Purgeable(s)
  {
    if s.pending[i] in Firsts(s.pending, i) {
      var k :| 0 <= k < i && s.pending[..i][k] == s.pending[i];
      assert s.pending[k] == s.pending[i];
    }
  }

  lemma AllErased(s: State)
    requires Loose(s) && SoFar(s, |s.pending|)
    ensures ErasedFirst(s, |s.pending|).(pending := []) == AfterPurge(s)
    ensures Purgeable(s) && Loose(AfterPurge(s)) && (Valid(s) ==> Valid(AfterPurge(s)))
  {
    assert s.pending[..|s.pending|] == s.pending;
    assert DoomedFirst(s, |s.pending|) == Doomed(s);
    PurgeKeepsLoose(s);
    if Valid(s) {
      PurgeKeepsValid(s);
    }
  }

  // ------------------------------------------------------------------ what a document has to tell

  /** The header is accepted if and only if it is that of a table and tells whether there are labels on the
      left; a document of another class or of a later version is out of range, any other refused. */
  lemma HeaderAccepted(j: Value, hasLeft: bool)
    ensures HasLeftOf(j) == Got(hasLeft) <==>
      && Unwrap(j).Some? && Unwrap(j).value.id == "html_form_dynamic_table" && Unwrap(j).value.version <= 1
      && BoolAt(Unwrap(j).value.config, "has-lef-labels") == Some(hasLeft)
    ensures HasLeftOf(j) == Failed(RangeError) <==>
      Unwrap(j).Some? && !(Unwrap(j).value.id == "html_form_dynamic_table" && Unwrap(j).value.version <= 1)
    ensures HasLeftOf(j).Failed? ==> HasLeftOf(j).error == RangeError || HasLeftOf(j).error == JsonError
  {
  }

  /** The lines are the items of a list; anything else under its label is out of range. */
  lemma ListingAccepted(j: Value, items: seq<Value>)
    ensures ListingOf(j) == Got(items) <==>
      && Unwrap(j).Some? && At(Unwrap(j).value.config, "contents").Some?
      && IsList(At(Unwrap(j).value.config, "contents").value)
      && Elements(At(Unwrap(j).value.config, "contents").value) == items
    ensures ListingOf(j) == Failed(RangeError) <==>
      && Unwrap(j).Some? && At(Unwrap(j).value.config, "contents").Some?
      && !IsList(At(Unwrap(j).value.config, "contents").value)
    ensures ListingOf(j).Failed? ==> ListingOf(j).error == RangeError || ListingOf(j).error == JsonError
  {
  }

  /** A line is read if and only if it tells one of the kinds there are, its label if there are labels, and an
      object that one of this kind accepts. A number that is no kind is an internal error. */
  lemma LineAccepted(p: Provider, hasLeft: bool, item: Value, c: Content)
    ensures ReadLine(p, hasLeft, item) == Got(c) <==>
      && At(item, "type") == Some(Num(c.kind)) && c.kind < p.kinds && c.kind < 4294967296
      && c.left == (if hasLeft then StringAt(item, "left-label") else None) && (hasLeft ==> c.left.Some?)
      && At(item, "object") == Some(c.obj) && p.accepts(c.kind, c.obj)
    ensures ReadLine(p, hasLeft, item) == Failed(Bug) <==>
      match At(item, "type")
      case Some(Num(n)) => n % 4294967296 >= p.kinds || n != n % 4294967296
      case Some(Bool(_)) => true
      case _ => false
    ensures ReadLine(p, hasLeft, item).Failed? ==>
      ReadLine(p, hasLeft, item).error == Bug || ReadLine(p, hasLeft, item).error == JsonError
  {
  }

  // ------------------------------------------------------------------ the lines and their order

  /** A new line comes last and its components are held; no other line, event or mark is concerned. */
  lemma AddedLast(s: State, name: string, line: Line)
    requires line.id !in Ids(s.lines)
    ensures var s' := AfterAdd(s, name, line);
      && |s'.lines| == |s.lines| + 1 && s'.lines[|s.lines|] == line
      && (forall i :: 0 <= i < |s.lines| ==> s'.lines[i] == s.lines[i])
      && name in s'.events && s'.events[name] == line.id && line.id in s'.shown && s'.pending == s.pending
      && (forall n :: n != name ==> (n in s'.events <==> n in s.events))
      && (forall n :: n != name && n in s.events ==> s'.events[n] == s.events[n])
      && forall id :: id != line.id ==> (id in s'.shown <==> id in s.shown)
  {
  }

  /** A line asked to be deleted is still there, in its place, with its event, until it is purged: only its
      components are let go. */
  lemma DeletedLater(s: State, name: string)
    requires Valid(s) && CanDelete(s, name)
    ensures var s' := AfterDelete(s, name);
      && s'.lines == s.lines && s'.events == s.events && Doomed(s') == Doomed(s) + {s.events[name]}
      && (forall id :: id in s'.shown <==> id in s.shown && id != s.events[name])
      && |s'.pending| == |s.pending| + 1 && s'.pending[|s.pending|] == name
      && forall i :: 0 <= i < |s.pending| ==> s'.pending[i] == s.pending[i]
  {
    var s' := AfterDelete(s, name);
    assert forall n :: n in s'.pending <==> n in s.pending || n == name by {
      assert s'.pending[|s.pending|] == name;
      forall n | n in s.pending ensures n in s'.pending {
        var i :| 0 <= i < |s.pending| && s.pending[i] == n;
        assert s'.pending[i] == n;
      }
    }
  }

  /** Purging looks at each line by itself and keeps their order: what comes before another still does. */
  lemma {:induction false} KeptConcat(before: seq<Line>, after: seq<Line>, doomed: set<nat>)
    ensures Kept(before + after, doomed) == Kept(before, doomed) + Kept(after, doomed)
    ensures |before| == 1 ==> Kept(before, doomed) == if before[0].id in doomed then [] else before
  {
    if before == [] {
      assert before + after == after;
    } else {
      assert (before + after)[1..] == before[1..] + after;
      KeptConcat(before[1..], after, doomed);
    }
  }

  /** What is saved of each line: its type, its object, and its label exactly if the table has labels. */
  lemma SavedLine(hasLeft: bool, lines: seq<Line>, i: nat)
    requires i < |lines|
    ensures var items := ListingOf(Document(hasLeft, SavedContents(hasLeft, lines))); var c := lines[i].content;
      && items.Got? && |items.value| == |lines|
      && At(items.value[i], "type") == Some(Num(c.kind)) && At(items.value[i], "object") == Some(c.obj)
      && At(items.value[i], "left-label") == if hasLeft && c.left.Some? then Some(Str(c.left.value)) else None
  {
    var contents := SavedContents(hasLeft, lines);
    ContentsAreList(contents);
    HeaderReadBack(1, "html_form_dynamic_table", Obj(map[HAS_LEFT_LABEL := Bool(hasLeft),
      CONTENTS_LABEL := ContentsJson(contents)]));
    SavedLabels(contents[i]);
    assert Elements(ContentsJson(contents))[i] == LineJson(contents[i]);
  }

  lemma SavedLabels(c: Content)
    ensures At(LineJson(c), "type") == Some(Num(c.kind)) && At(LineJson(c), "object") == Some(c.obj)
    ensures At(LineJson(c), "left-label") == if c.left.Some? then Some(Str(c.left.value)) else None
  {
    assert LEFT_LABEL[0] != TYPE_LABEL[0] && LEFT_LABEL[0] != OBJECT_LABEL[0] && TYPE_LABEL[0] != OBJECT_LABEL[0];
  }
}
