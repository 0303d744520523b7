/** A size, shown as a number of units chosen among the powers of 1000 and of 1024, that has to
    stay between two limits. */
module InputUnits {
  import opened Tools

  datatype Outcome = Done | RangeError | Bug

  // ------------------------------------------------------------------ units

  const MAX_BASE: nat := 1
  const MAX_POWER: nat := 10

  function BaseUnit(base: nat): (b: nat)
    ensures b >= 2
  {
    if base == 0 then 1000 else 1024
  }

  function Pow(b: nat, n: nat): (r: nat)
    requires b >= 1
    ensures r >= 1
  {
    if n == 0 then 1 else Pow(b, n - 1) * b
  }

  function UnitOf(base: nat, power: nat): (u: nat)
    ensures u >= 1
  {
    Pow(BaseUnit(base), power)
  }

  ghost predicate Divides(unit: nat, val: nat)
    requires unit >= 1
  {
    val % unit == 0
  }

  /** No unit that divides val does so with a smaller quotient. */
  ghost predicate IsBest(val: nat, unit: nat)
    requires unit >= 1
  {
    && Divides(unit, val)
    && forall b, p :: 0 <= b <= MAX_BASE && 0 <= p <= MAX_POWER && Divides(UnitOf(b, p), val) ==>
       val / unit <= val / UnitOf(b, p)
  }

  lemma TimesAtLeast(a: nat, k: int)
    requires k >= 1
    ensures a * k >= a
  {
  }

  lemma TimesLess(a: nat, p: int, q: int)
    requires p < q
    ensures a * p + a <= a * q
  {
    TimesAtLeast(a, q - p);
    assert a * (q - p) == a * q - a * p;
  }

  /** Quotient and remainder are unique. */
  lemma DivisionIs(x: nat, a: nat, q: nat, r: nat)
    requires a >= 1 && x == a * q + r && r < a
    ensures x / a == q && x % a == r
  {
    var q', r' := x / a, x % a;
    assert x == a * q' + r';
    if q > q' {
      TimesLess(a, q', q);
    } else if q < q' {
      TimesLess(a, q, q');
    }
  }

  lemma FactorDivides(a: nat, b: nat, val: nat)
    requires a >= 1 && b >= 1 && val % (a * b) == 0
    ensures val % a == 0
  {
    var q := val / (a * b);
    assert val == (a * b) * q;
    assert (a * b) * q == a * (b * q);
    DivisionIs(val, a, b * q, 0);
  }

  /** If a power does not divide val, no higher one does. */
  lemma {:induction false} NoHigherDivides(b: nat, p: nat, q: nat, val: nat)
    requires b >= 1 && p <= q && Divides(Pow(b, q), val)
    ensures Divides(Pow(b, p), val)
    decreases q
  {
    if p < q {
      FactorDivides(Pow(b, q - 1), b, val);
      NoHigherDivides(b, p, q - 1, val);
    }
  }

  lemma NotDivides(unit: nat, val: nat)
    requires 0 < val < unit
    ensures !Divides(unit, val)
  {
  }

  lemma NoneAbove(b: nat, power: nat, val: nat)
    requires b >= 1 && val > 0 && (val < Pow(b, power) || !Divides(Pow(b, power), val))
    ensures forall p :: power <= p ==> !Divides(Pow(b, p), val)
  {
    forall p | power <= p ensures !Divides(Pow(b, p), val) {
      if Divides(Pow(b, p), val) {
        NoHigherDivides(b, power, p, val);
      }
      if val < Pow(b, power) {
        NotDivides(Pow(b, power), val);
      }
    }
  }

  /** The units there are: the powers of 1000 and of 1024 up to the tenth. */
  lemma UnitsAre(p: nat)
    ensures UnitOf(0, 0) == 1 && UnitOf(1, 0) == 1
    ensures UnitOf(0, p + 1) == UnitOf(0, p) * 1000 && UnitOf(1, p + 1) == UnitOf(1, p) * 1024
  {
  }

  /** The best unit leaves the smallest quotient among all of these. */
  lemma BestOfAll(val: nat, unit: nat, p: nat)
    requires unit >= 1 && IsBest(val, unit) && p <= 10
    ensures val % unit == 0
    ensures val % UnitOf(0, p) == 0 ==> val / unit <= val / UnitOf(0, p)
    ensures val % UnitOf(1, p) == 0 ==> val / unit <= val / UnitOf(1, p)
  {
    assert Divides(UnitOf(0, p), val) <==> val % UnitOf(0, p) == 0;
    assert Divides(UnitOf(1, p), val) <==> val % UnitOf(1, p) == 0;
  }

  /** So far, over the powers below upto of one base, nothing beats the quotient reduced. */
  ghost predicate Beaten(val: nat, base: nat, upto: nat, reduced: nat) {
    forall p :: 0 <= p < upto && Divides(UnitOf(base, p), val) ==> reduced <= val / UnitOf(base, p)
  }

  /** The best found so far, among which the one to start with. */
  ghost predicate BestSoFar(val: nat, base0: nat, power0: nat, base: nat, power: nat, reduced: nat) {
    && base <= MAX_BASE && power <= MAX_POWER && Divides(UnitOf(base, power), val)
    && reduced == val / UnitOf(base, power) <= val / UnitOf(base0, power0)
    && (power == 0 ==> base == base0 && power0 == 0)
    && (val == 0 ==> power == power0)
  }

  /** One base: the powers are tried in turn until one does not divide. */
  method TryBase(val: nat, base: nat, bestBase0: nat, bestPower0: nat)
    returns (bestBase: nat, bestPower: nat, reduced: nat)
    requires base <= MAX_BASE && bestBase0 <= MAX_BASE && bestPower0 <= MAX_POWER &&
      Divides(UnitOf(bestBase0, bestPower0), val)
    ensures BestSoFar(val, bestBase0, bestPower0, bestBase, bestPower, reduced)
    ensures Beaten(val, base, MAX_POWER + 1, reduced)
  {
    bestBase, bestPower := bestBase0, bestPower0;
    QuotientAtMost(val, UnitOf(bestBase, bestPower));
    reduced := val / UnitOf(bestBase, bestPower);
    var stop := false;
    var power: nat := 0;
    var factor := 1;
    while !stop && val >= factor && power <= MAX_POWER
      invariant power <= MAX_POWER + 1 && factor == UnitOf(base, power)
      invariant stop ==> power <= MAX_POWER && !Divides(factor, val)
      invariant BestSoFar(val, bestBase0, bestPower0, bestBase, bestPower, reduced)
      invariant Beaten(val, base, power, reduced)
      decreases MAX_POWER + 1 - power, !stop
    {
      if val % factor == 0 {
        bestBase, bestPower, reduced := TryUnit(val, base, power, factor, bestBase0, bestPower0, bestBase, bestPower,
          reduced);
        power := power + 1;
        factor := factor * BaseUnit(base);
      } else {
        stop := true;
      }
    }
    NoneLeft(val, base, power, factor, stop, reduced);
  }

  method TryUnit(val: nat, base: nat, power: nat, factor: nat, ghost base0: nat, ghost power0: nat, b: nat, p: nat,
                 r: nat)
    returns (bestBase: nat, bestPower: nat, reduced: nat)
    requires base <= MAX_BASE && power <= MAX_POWER && factor == UnitOf(base, power) && Divides(factor, val) &&
      val >= factor
    requires BestSoFar(val, base0, power0, b, p, r) && Beaten(val, base, power, r)
    ensures BestSoFar(val, base0, power0, bestBase, bestPower, reduced) && Beaten(val, base, power + 1, reduced)
  {
    bestBase, bestPower, reduced := b, p, r;
    QuotientAtMost(val, factor);
    var newval := val / factor;
    if newval < reduced {
      NotBetterThanWhole(val, UnitOf(base0, power0), base, power, newval);
      reduced, bestPower, bestBase := newval, power, base;
    }
  }

  lemma NoneLeft(val: nat, base: nat, power: nat, factor: nat, stop: bool, reduced: nat)
    requires factor == UnitOf(base, power) && Beaten(val, base, power, reduced)
    requires power > MAX_POWER || val < factor || (stop && !Divides(factor, val))
    requires val == 0 ==> reduced == 0
    ensures Beaten(val, base, MAX_POWER + 1, reduced)
  {
    if val > 0 && power <= MAX_POWER {
      NoneAbove(BaseUnit(base), power, val);
    }
    forall p | 0 <= p < MAX_POWER + 1 && Divides(UnitOf(base, p), val) ensures reduced <= val / UnitOf(base, p) {
      QuotientAtMost(val, UnitOf(base, p));
    }
  }

  lemma NotBetterThanWhole(val: nat, unit0: nat, base: nat, power: nat, newval: nat)
    requires unit0 >= 1 && newval == val / UnitOf(base, power) && newval < val / unit0
    ensures power > 0
  {
    if power == 0 {
      QuotientAtMost(val, unit0);
    }
  }

  lemma QuotientAtMost(val: nat, unit: nat)
    requires unit >= 1
    ensures 0 <= val / unit <= val
  {
    var q := val / unit;
    assert val == unit * q + val % unit;
    if q >= 1 {
      assert unit * q >= q by {
        TimesAtLeast(q, unit);
        assert q * unit == unit * q;
      }
    }
  }

  /** The search over both bases, from the last to the first. */
  method LargestUnit(val: nat, currentBase: nat) returns (bestBase: nat, bestPower: nat)
    requires currentBase <= MAX_BASE
    ensures bestBase <= 1 && bestPower <= 10
    ensures IsBest(val, UnitOf(bestBase, bestPower))
    ensures val == 0 ==> bestPower == 0
    ensures bestPower == 0 ==> bestBase == currentBase
  {
    bestBase, bestPower := currentBase, 0;
    var reduced := val;
    var base: int := MAX_BASE;
    while base >= 0
      invariant -1 <= base <= MAX_BASE && bestBase <= MAX_BASE && bestPower <= MAX_POWER
      invariant Divides(UnitOf(bestBase, bestPower), val) && reduced == val / UnitOf(bestBase, bestPower)
      invariant (val == 0 ==> bestPower == 0) && (bestPower == 0 ==> bestBase == currentBase)
      invariant base < 1 ==> Beaten(val, 1, MAX_POWER + 1, reduced)
      invariant base < 0 ==> Beaten(val, 0, MAX_POWER + 1, reduced)
    {
      bestBase, bestPower, reduced := TryBase(val, base, bestBase, bestPower);
      base := base - 1;
    }
    BestOfBoth(val, bestBase, bestPower, reduced);
  }

  lemma BestOfBoth(val: nat, bestBase: nat, bestPower: nat, reduced: nat)
    requires Divides(UnitOf(bestBase, bestPower), val) && reduced == val / UnitOf(bestBase, bestPower)
    requires Beaten(val, 0, MAX_POWER + 1, reduced) && Beaten(val, 1, MAX_POWER + 1, reduced)
    ensures IsBest(val, UnitOf(bestBase, bestPower))
  {
    forall b, p | 0 <= b <= MAX_BASE && 0 <= p <= MAX_POWER && Divides(UnitOf(b, p), val)
      ensures reduced <= val / UnitOf(b, p)
    {
      assert b == 0 || b == 1;
    }
  }

  // ------------------------------------------------------------------ the component

  /** How many whole units val makes. */
  function Reduced(val: nat, unit: nat): (n: nat)
    requires unit >= 1
    ensures n <= val
  {
    QuotientAtMost(val, unit);
    val / unit
  }

  function Amount(n: nat, unit: nat): nat {
    n * unit
  }

  /** The multiple of the unit next below val, which is val just if the unit divides it. */
  lemma AmountReduced(val: nat, unit: nat)
    requires unit >= 1
    ensures Amount(Reduced(val, unit), unit) <= val
    ensures Amount(Reduced(val, unit), unit) == val <==> Divides(unit, val)
  {
    assert val == unit * (val / unit) + val % unit;
    assert unit * (val / unit) == val / unit * unit;
  }

  predicate OutOfLimits(val: nat, min: nat, max: nat) {
    val < min || (max > 0 && val > max)
  }

  /** A maximum of zero is none. */
  lemma LimitsAre(val: nat, min: nat, max: nat)
    ensures OutOfLimits(val, min, 0) <==> val < min
    ensures max > 0 ==> (OutOfLimits(val, min, max) <==> !(min <= val <= max))
  {
  }

  /** What a value out of limits becomes when the unit is kept: what is shown of the limit, unless it
      was shown already or cannot be read back. */
  function BroughtTo(limit: nat, text: string, unit: nat): nat
    requires unit >= 1
  {
    if text == Decimal(Reduced(limit, unit)) || Reduced(limit, unit) > INT_MAX then limit
      else Amount(Reduced(limit, unit), unit)
  }

  /** The limit a value out of limits is brought to. */
  function LimitFor(val: nat, min: nat, max: nat): nat {
    if val < min then min else max
  }

  /** Brought to the minimum, a value is within limits if and only if the unit divides the minimum,
      or its quotient was already shown or does not fit in an int; brought to the maximum, if and
      only if this does not take it below the minimum. */
  lemma BroughtWithinIff(val: nat, min: nat, max: nat, text: string, unit: nat)
    requires unit >= 1 && (max > 0 ==> min <= max) && OutOfLimits(val, min, max)
    ensures var v := BroughtTo(LimitFor(val, min, max), text, unit);
      && v <= LimitFor(val, min, max)
      && (!OutOfLimits(v, min, max) <==>
          if val < min then Divides(unit, min) || text == Decimal(Reduced(min, unit)) || Reduced(min, unit) > INT_MAX
          else min <= v)
  {
    AmountReduced(min, unit);
    AmountReduced(max, unit);
  }

  /** A minimum of 1500 counted in thousands: nothing shown becomes a value of 1000. */
  lemma EndsBelowMinimum()
    ensures OutOfLimits(Amount(0, 1000), 1500, 0) && ToInt("0") == 0
    ensures BroughtTo(LimitFor(0, 1500, 0), "0", 1000) == 1000 && OutOfLimits(1000, 1500, 0)
  {
    assert Reduced(1500, 1000) == 1;
    assert DigitPrefix("0") == "0" && ValueOf("0") == ValueOf("") * 10 + 0;
    assert Decimal(1) != "0" by {
      assert ValueOf(Decimal(1)) == 1;
    }
  }

  class HtmlFormInputUnit {
    var val: nat
    var min: nat
    /** Zero means no maximum. */
    var max: nat
    /** What the number field holds, which may be anything the user typed. */
    var text: string
    var base: nat
    var power: nat
    /** Whether the field has a red border. */
    var red: bool
    var ignoreEvents: bool
    var noAct: bool
    /** How many times the actors were told. */
    ghost var acts: nat

    ghost predicate Valid()
      reads this
    {
      base <= MAX_BASE && power <= MAX_POWER && (max > 0 ==> min <= max)
    }

    ghost predicate Quiet()
      reads this
    {
      Valid() && !ignoreEvents && !noAct
    }

    function Unit(): nat
      reads this`base, this`power
    {
      UnitOf(base, power)
    }

    constructor (initial: nat)
      ensures Quiet() && val == initial && min == 0 && max == 0 && !red && acts == 0
      ensures text == Decimal(initial) && base == 1 && power == if initial == 0 then 1 else 0
    {
      val, min, max := initial, 0, 0;
      text := Decimal(initial);
      base, power := 1, if initial == 0 then 1 else 0;
      red, ignoreEvents, noAct := false, false, false;
      acts := 0;
    }

    method MyAct()
      modifies this`acts
      ensures acts == if noAct then old(acts) else old(acts) + 1
    {
      if !noAct {
        acts := acts + 1;
      }
    }

    /** The first time a value is out of limits the border turns red and the value is refused;
        then it is let through, until one within limits clears the border. */
    method CheckMinMaxCompliance() returns (out: Outcome)
      modifies this`red
      ensures red <==> OutOfLimits(val, min, max)
      ensures out == if OutOfLimits(val, min, max) && !old(red) then RangeError else Done
    {
      var keepRed := false;
      if val < min {
        if !red {
          red := true;
          return RangeError;
        } else {
          keepRed := true;
        }
      }
      if max > 0 && val > max {
        if !red {
          red := true;
          return RangeError;
        } else {
          keepRed := true;
        }
      }
      if red && !keepRed {
        red := false;
      }
      out := Done;
    }

    /** The number field has changed. */
    method OnFieldChanged() returns (out: Outcome)
      requires Valid()
      modifies this`val, this`red, this`acts
      ensures Valid()
      ensures ignoreEvents ==> out.Done? && val == old(val) && red == old(red) && acts == old(acts)
      ensures !ignoreEvents && ToInt(text) < 0 ==>
        out.RangeError? && val == old(val) && red == old(red) && acts == old(acts)
      ensures !ignoreEvents && ToInt(text) >= 0 ==> Followed(old(red), old(acts), Amount(ToInt(text), Unit()), out)
    {
      if ignoreEvents {
        return Done;
      }
      var n := ToInt(text);
      if n < 0 {
        return RangeError;
      }
      out := Take(Amount(n, Unit()));
    }

    method Take(v: nat) returns (out: Outcome)
      modifies this`val, this`red, this`acts
      ensures Followed(old(red), old(acts), v, out)
    {
      val := v;
      out := CheckMinMaxCompliance();
      if out.Done? {
        MyAct();
      }
    }

    /** The value is now v, and its actors know unless it was refused. */
    ghost predicate Followed(wasRed: bool, wasActs: nat, v: nat, out: Outcome)
      reads this
    {
      && val == v && (red <==> OutOfLimits(v, min, max))
      && out == (if red && !wasRed then RangeError else Done)
      && acts == if out.Done? && !noAct then wasActs + 1 else wasActs
    }

    /** Shows the value in the current unit. */
    method SetFieldVal() returns (out: Outcome)
      requires Valid() && !ignoreEvents
      modifies this`val, this`text, this`red, this`acts
      ensures Valid() && text == Decimal(Reduced(old(val), Unit()))
      ensures text == old(text) ==> out.Done? && val == old(val) && red == old(red) && acts == old(acts)
      ensures text != old(text) && Reduced(old(val), Unit()) > INT_MAX ==>
        out.RangeError? && val == old(val) && red == old(red) && acts == old(acts)
      ensures text != old(text) && Reduced(old(val), Unit()) <= INT_MAX ==>
        Followed(old(red), old(acts), Amount(Reduced(old(val), Unit()), Unit()), out)
    {
      out := ShowNumber(Reduced(val, Unit()));
    }

    /** Writes a number in the field, which is an event when it was not there. */
    method ShowNumber(n: nat) returns (out: Outcome)
      requires Valid() && !ignoreEvents
      modifies this`val, this`text, this`red, this`acts
      ensures Valid() && text == Decimal(n)
      ensures text == old(text) ==> out.Done? && val == old(val) && red == old(red) && acts == old(acts)
      ensures text != old(text) && n > INT_MAX ==>
        out.RangeError? && val == old(val) && red == old(red) && acts == old(acts)
      ensures text != old(text) && n <= INT_MAX ==> Followed(old(red), old(acts), Amount(n, Unit()), out)
    {
      out := Done;
      var shown := Decimal(n);
      if text != shown {
        text := shown;
        ToIntOfDecimal(n);
        out := OnFieldChanged();
      }
    }

    /** The text shows the whole number of units in the value. If it was not shown already and can be read
        back, the border and the outcome follow, and the actors know; otherwise nothing else happened. */
    ghost predicate ShownAnew(wasText: string, wasRed: bool, wasActs: nat, out: Outcome)
      reads this
    {
      && text == Decimal(Reduced(val, Unit()))
      && if text == wasText then out.Done? && red == wasRed && acts == wasActs
         else if Reduced(val, Unit()) > INT_MAX then out.RangeError? && red == wasRed && acts == wasActs
         else Followed(wasRed, wasActs, val, out)
    }

    /** Tells of a change of unit, if there is one: while events are ignored nothing comes of it. */
    method SetUnitAndRatioIndexes(newBase: nat, newPower: nat) returns (out: Outcome)
      requires Valid() && newBase <= MAX_BASE && newPower <= MAX_POWER && ignoreEvents && !noAct
      modifies this`base, this`power, this`val, this`text, this`red, this`acts, this`noAct
      ensures Valid() && base == newBase && power == newPower && out.Done? && !noAct
      ensures val == old(val) && text == old(text) && red == old(red) && acts == old(acts)
    {
      var hasChanged := base != newBase || power != newPower;
      base, power := newBase, newPower;
      out := Done;
      if hasChanged {
        out := OnUnitChanged();
      }
    }

    /** Shows the value, which does not change, as the least number of units. */
    method SetValueToLargestUnit() returns (out: Outcome)
      requires Quiet()
      modifies this`val, this`text, this`base, this`power, this`red, this`acts, this`ignoreEvents, this`noAct
      ensures Quiet()
      ensures val == old(val) && IsBest(val, Unit())
      ensures text == Decimal(Reduced(val, Unit())) && Amount(Reduced(val, Unit()), Unit()) == val
      ensures (val == 0 ==> power == 0) && (power == 0 ==> base == old(base))
      ensures out.Done? || out.RangeError?
      ensures out.RangeError? ==> Reduced(val, Unit()) > INT_MAX || OutOfLimits(val, min, max)
      ensures ShownAnew(old(text), old(red), old(acts), out)
    {
      var bestBase, bestPower := LargestUnit(val, base);
      ignoreEvents := true;
      out := SetUnitAndRatioIndexes(bestBase, bestPower);
      ignoreEvents := false;
      AmountReduced(val, Unit());
      out := SetFieldVal();
    }

    method SetValueAsInfinint(x: nat) returns (out: Outcome)
      requires Quiet()
      modifies this`val, this`text, this`base, this`power, this`red, this`acts, this`ignoreEvents, this`noAct
      ensures Quiet()
      ensures val == x && IsBest(x, Unit()) && text == Decimal(Reduced(x, Unit())) &&
        Amount(Reduced(x, Unit()), Unit()) == x
      ensures out.Done? || out.RangeError?
      ensures out.RangeError? ==> Reduced(x, Unit()) > INT_MAX || OutOfLimits(x, min, max)
      ensures ShownAnew(old(text), old(red), old(acts), out)
    {
      val := x;
      out := SetValueToLargestUnit();
    }

    /** A value brought back to a limit: the second display changes nothing. */
    method BringTo(limit: nat) returns (out: Outcome)
      requires Quiet()
      modifies this`val, this`text, this`base, this`power, this`red, this`acts, this`ignoreEvents, this`noAct
      ensures Quiet() && val == limit && IsBest(limit, Unit())
      ensures out.Done? || out.RangeError?
      ensures out.RangeError? ==> Reduced(limit, Unit()) > INT_MAX || OutOfLimits(limit, min, max)
      ensures ShownAnew(old(text), old(red), old(acts), out)
    {
      out := SetValueAsInfinint(limit);
      if out.Done? {
        out := SetFieldVal();
      }
    }

    ghost predicate Untouched(wasText: string, wasBase: nat, wasPower: nat, wasRed: bool, wasActs: nat)
      reads this
    {
      text == wasText && base == wasBase && power == wasPower && red == wasRed && acts == wasActs
    }

    /** After setting limits that make sense the value is between them, even if displaying it
        failed. */
    method SetRange(newMin: nat, newMax: nat) returns (out: Outcome)
      requires Quiet()
      modifies this`val, this`min, this`max, this`text, this`base, this`power, this`red, this`acts, this`ignoreEvents,
        this`noAct
      ensures Quiet()
      ensures out.Bug? <==> newMax == 0 || newMax < newMin
      ensures out.Bug? ==> val == old(val) && min == old(min) && max == old(max)
      ensures !out.Bug? ==> min == newMin && max == newMax && min <= val <= max
      ensures !out.Bug? ==> val == if old(val) < min then min else if old(val) > max then max else old(val)
      ensures out.RangeError? ==> val != old(val) && Reduced(val, Unit()) > INT_MAX
      ensures val != old(val) ==> IsBest(val, Unit()) && ShownAnew(old(text), old(red), old(acts), out)
      ensures val == old(val) ==> Untouched(old(text), old(base), old(power), old(red), old(acts))
    {
      if newMax == 0 {
        return Bug;
      }
      if newMax < newMin {
        return Bug;
      }
      min, max := newMin, newMax;
      out := Done;
      if val < min {
        out := BringTo(min);
        if out.RangeError? {
          return;
        }
      }
      if val > max {
        out := BringTo(max);
      }
    }

    method SetMinOnly(newMin: nat) returns (out: Outcome)
      requires Quiet()
      modifies this`val, this`min, this`max, this`text, this`base, this`power, this`red, this`acts, this`ignoreEvents,
        this`noAct
      ensures Quiet() && min == newMin && max == 0
      ensures val == if old(val) < newMin then newMin else old(val)
      ensures out.Done? || (out.RangeError? && Reduced(val, Unit()) > INT_MAX)
      ensures val != old(val) ==> IsBest(val, Unit()) && ShownAnew(old(text), old(red), old(acts), out)
      ensures val == old(val) ==> out.Done? && Untouched(old(text), old(base), old(power), old(red), old(acts))
    {
      min, max := newMin, 0;
      out := Done;
      if val < min {
        out := BringTo(min);
      }
    }

    /** Zero does not do away with the maximum here: the value becomes zero. */
    method SetMaxOnly(newMax: nat) returns (out: Outcome)
      requires Quiet()
      modifies this`val, this`min, this`max, this`text, this`base, this`power, this`red, this`acts, this`ignoreEvents,
        this`noAct
      ensures Quiet() && min == 0 && max == newMax
      ensures val == if old(val) > newMax then newMax else old(val)
      ensures out.Done? || (out.RangeError? && Reduced(val, Unit()) > INT_MAX)
      ensures val != old(val) ==> IsBest(val, Unit()) && ShownAnew(old(text), old(red), old(acts), out)
      ensures val == old(val) ==> out.Done? && Untouched(old(text), old(base), old(power), old(red), old(acts))
    {
      min, max := 0, newMax;
      out := Done;
      if val > max {
        out := BringTo(max);
      }
    }

    /** Another unit was chosen: what is shown now counts in that unit. A value out of limits is
        refused at first, and if one already was, brought to what is shown of the limit. */
    method OnUnitChanged() returns (out: Outcome)
      requires Valid() && !noAct
      modifies this`val, this`text, this`red, this`acts, this`noAct
      ensures Valid() && !noAct
      ensures ignoreEvents ==> out.Done? && val == old(val) && text == old(text) && red == old(red) && acts == old(acts)
      ensures !ignoreEvents && ToInt(old(text)) < 0 ==>
        out.RangeError? && val == old(val) && text == old(text) && red == old(red) && acts == old(acts)
      ensures !ignoreEvents && ToInt(old(text)) >= 0 ==>
        var v := Amount(ToInt(old(text)), Unit());
        if !OutOfLimits(v, min, max) then
          out.Done? && val == v && text == old(text) && !red && acts == old(acts) + 1
        else if !old(red) then
          out.RangeError? && val == v && text == old(text) && red && acts == old(acts)
        else
          var limit := LimitFor(v, min, max);
          && Brought(limit, old(text), out) && acts == old(acts) + if out.Done? then 1 else 0
    {
      if ignoreEvents {
        return Done;
      }
      noAct := true;
      out := FollowUnit();
      noAct := false;
      if out.Done? {
        MyAct();
      }
    }

    method FollowUnit() returns (out: Outcome)
      requires Valid() && !ignoreEvents && noAct
      modifies this`val, this`text, this`red, this`acts
      ensures Valid() && acts == old(acts) && !out.Bug?
      ensures ToInt(old(text)) < 0 ==> out.RangeError? && val == old(val) && text == old(text) && red == old(red)
      ensures ToInt(old(text)) >= 0 ==>
        var v := Amount(ToInt(old(text)), Unit());
        if !OutOfLimits(v, min, max) then
          out.Done? && val == v && text == old(text) && !red
        else if !old(red) then
          out.RangeError? && val == v && text == old(text) && red
        else
          var limit := LimitFor(v, min, max);
          Brought(limit, old(text), out)
    {
      var n := ToInt(text);
      if n < 0 {
        return RangeError;
      }
      val := Amount(n, Unit());
      out := CheckMinMaxCompliance();
      if out.RangeError? {
        return;
      }
      if val < min {
        out := Clamp(min);
        if out.RangeError? {
          return;
        }
      }
      if max != 0 && val > max {
        out := Clamp(max);
      }
    }

    /** The value is brought to a limit, of which the whole units show. This is refused, and the border still
        red, if they were not shown already and fit no int; the border is red too if they were, or if the value
        is out of limits even so. */
    ghost predicate Brought(limit: nat, wasText: string, out: Outcome)
      reads this
    {
      var shown := Decimal(Reduced(limit, Unit()));
      && val == BroughtTo(limit, wasText, Unit()) && text == shown
      && out == (if wasText != shown && Reduced(limit, Unit()) > INT_MAX then RangeError else Done)
      && (red <==> wasText == shown || Reduced(limit, Unit()) > INT_MAX || OutOfLimits(val, min, max))
    }

    /** Here the unit is kept, which may not divide the limit. */
    method Clamp(limit: nat) returns (out: Outcome)
      requires Valid() && !ignoreEvents && noAct && red
      modifies this`val, this`text, this`red, this`acts
      ensures Valid() && acts == old(acts) && val <= limit
      ensures Brought(limit, old(text), out)
    {
      AmountReduced(limit, Unit());
      val := limit;
      out := SetFieldVal();
    }
  }

  /** A new component shows its value at best; a value of zero in the unit itself. */
  method NewInputUnit(initial: nat) returns (u: HtmlFormInputUnit, out: Outcome)
    ensures fresh(u) && u.Quiet() && u.val == initial && IsBest(initial, u.Unit())
    ensures u.text == Decimal(Reduced(initial, u.Unit())) && (initial == 0 ==> u.power == 0)
    ensures out.Done? || (out.RangeError? && Reduced(initial, u.Unit()) > INT_MAX)
  {
    u := new HtmlFormInputUnit(initial);
    out := u.SetValueToLargestUnit();
  }
}
