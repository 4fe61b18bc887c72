/** The affine fixed-point scale between raw integers and engineering values, over exact rationals. */
module Scales {
  datatype RoundingMode =
    | MidpointNearestEven
    | MidpointAwayFromZero
    | TowardZero
    | AwayFromZero
    | TowardPositiveInfinity
    | TowardNegativeInfinity
  {
    predicate Nearest() {
      MidpointNearestEven? || MidpointAwayFromZero?
    }

    predicate TowardInfinity() {
      TowardPositiveInfinity? || TowardNegativeInfinity?
    }
  }

  predicate Integral(x: real) {
    x.Floor as real == x
  }

  function Ceiling(x: real): int {
    if Integral(x) then x.Floor else x.Floor + 1
  }

  function Round(x: real, mode: RoundingMode): int {
    match mode
    case MidpointNearestEven =>
      if x - x.Floor as real < 0.5 then x.Floor
      else if x - x.Floor as real > 0.5 then x.Floor + 1
      else if x.Floor % 2 == 0 then x.Floor else x.Floor + 1
    case MidpointAwayFromZero =>
      if x - x.Floor as real < 0.5 then x.Floor
      else if x - x.Floor as real > 0.5 then x.Floor + 1
      else if x >= 0.0 then x.Floor + 1 else x.Floor
    case TowardZero => if x >= 0.0 then x.Floor else Ceiling(x)
    case AwayFromZero => if x >= 0.0 then Ceiling(x) else x.Floor
    case TowardPositiveInfinity => Ceiling(x)
    case TowardNegativeInfinity => x.Floor
  }

  function Power10(n: nat): (p: real)
    ensures p >= 1.0
  {
    if n == 0 then 1.0 else 10.0 * Power10(n - 1)
  }

  /** `x` counted in units of the last of `places` decimal places. */
  function InUnits(x: real, places: nat): real {
    x * Power10(places)
  }

  /** `x` rounded to `places` decimal places. */
  function RoundDp(x: real, places: nat, mode: RoundingMode): real {
    Round(InUnits(x, places), mode) as real / Power10(places)
  }

  datatype ScaleError = ZeroMultiplier | ZeroDivisor | TooManyDecimalPlaces(places: nat)

  datatype FixedScale = FixedScale(multiplier: real, divisor: real, offset: real, decimalPlaces: nat, rounding: RoundingMode)
  {
    predicate Valid() {
      multiplier != 0.0 && divisor != 0.0 && decimalPlaces <= 28
    }

    function Unrounded(raw: int): real
      requires Valid()
    {
      raw as real * multiplier / divisor + offset
    }

    function Decode(raw: int): real
      requires Valid()
    {
      RoundDp(Unrounded(raw), decimalPlaces, rounding)
    }

    function Encode(value: real): int
      requires Valid()
    {
      Round(Unscaled(value), rounding)
    }

    function Unscaled(value: real): real
      requires Valid()
    {
      (value - offset) * divisor / multiplier
    }

    /** How many units of the last decimal place one raw step is worth. */
    function StepInUnits(): real
      requires Valid()
    {
      multiplier * Power10(decimalPlaces) / divisor
    }

    function OffsetInUnits(): real {
      offset * Power10(decimalPlaces)
    }

    /** No raw value is changed by decoding and encoding it again. */
    ghost predicate Reversible()
      requires Valid()
    {
      forall raw: int :: Encode(Decode(raw)) == raw
    }
  }

  /** The first failing check decides. */
  function NewScale(multiplier: real, divisor: real, offset: real, decimalPlaces: nat, rounding: RoundingMode)
    : (scale: Result<FixedScale>)
    ensures scale.Ok? <==> FixedScale(multiplier, divisor, offset, decimalPlaces, rounding).Valid()
    ensures scale.Ok? ==> scale.value == FixedScale(multiplier, divisor, offset, decimalPlaces, rounding)
    ensures scale == Err(ZeroMultiplier) <==> multiplier == 0.0
    ensures scale == Err(ZeroDivisor) <==> multiplier != 0.0 && divisor == 0.0
    ensures scale.Err? && scale.error.TooManyDecimalPlaces? ==> scale.error.places == decimalPlaces
  {
    if multiplier == 0.0 then Err(ZeroMultiplier)
    else if divisor == 0.0 then Err(ZeroDivisor)
    else if decimalPlaces > 28 then Err(TooManyDecimalPlaces(decimalPlaces))
    else Ok(FixedScale(multiplier, divisor, offset, decimalPlaces, rounding))
  }

  datatype Result<T> = Ok(value: T) | Err(error: ScaleError)

  function Identity(): (scale: FixedScale)
    ensures scale.Valid()
  {
    FixedScale(1.0, 1.0, 0.0, 0, MidpointNearestEven)
  }

  // ---------------------------------------------------------------- rounding

  lemma RoundingKeepsIntegers(n: int, mode: RoundingMode)
    ensures Round(n as real, mode) == n
  {
  }

  /** Every mode stays within one unit, and hits exactly the integers; a nearest mode stays within half. */
  lemma RoundingIsClose(x: real, mode: RoundingMode)
    ensures -1.0 < Round(x, mode) as real - x < 1.0
    ensures mode.Nearest() ==> -0.5 <= Round(x, mode) as real - x <= 0.5
    ensures Round(x, mode) as real == x <==> Integral(x)
  {
  }

  lemma NearestWithinHalf(n: int, x: real, mode: RoundingMode)
    requires mode.Nearest() && n as real - 0.5 < x < n as real + 0.5
    ensures Round(x, mode) == n
  {
  }

  lemma RoundingIsMonotone(x: real, y: real, mode: RoundingMode)
    requires x <= y
    ensures Round(x, mode) <= Round(y, mode)
  {
  }

  // ---------------------------------------------------------------- counting in units of the last place

  /** Units of the last place before and after rounding, for a step `s` and an offset `c` in such units. */
  function Units(s: real, c: real, raw: int): real {
    raw as real * s + c
  }

  function Decoded(s: real, c: real, mode: RoundingMode, raw: int): int {
    Round(Units(s, c, raw), mode)
  }

  function Encoded(s: real, c: real, mode: RoundingMode, units: int): int
    requires s != 0.0
  {
    Round((units as real - c) / s, mode)
  }

  ghost predicate UnitsReversible(s: real, c: real, mode: RoundingMode)
    requires s != 0.0
  {
    forall raw: int :: Encoded(s, c, mode, Decoded(s, c, mode, raw)) == raw
  }

  lemma Cancel(a: real, b: real)
    requires b != 0.0
    ensures a * b / b == a
  {
  }

  lemma NonZeroProduct(a: real, b: real)
    requires a != 0.0 && b != 0.0
    ensures a * b != 0.0
  {
  }

  lemma DivideFirst(a: real, b: real, c: real)
    requires b != 0.0
    ensures a * c / b == a / b * c
  {
    var x := a / b;
    assert a == x * b;
    assert (x * b) * c == (x * c) * b;
    Cancel(x * c, b);
  }

  lemma CancelFactor(a: real, b: real, f: real)
    requires b != 0.0 && f != 0.0
    ensures b * f != 0.0 && a * f / (b * f) == a / b
  {
    NonZeroProduct(b, f);
    var z := a / b;
    assert a == z * b;
    assert (z * b) * f == z * (b * f);
    Cancel(z, b * f);
  }

  lemma DecodeAlgebra(r: real, m: real, d: real, o: real, q: real)
    requires d != 0.0
    ensures (r * m / d + o) * q == r * (m * q / d) + o * q
  {
    var x := m / d;
    DivideFirst(m, d, r);
    assert r * m == m * r;
    DivideFirst(m, d, q);
    assert (x * r + o) * q == r * (x * q) + o * q;
  }

  lemma EncodeAlgebra(u: real, m: real, d: real, o: real, q: real)
    requires m != 0.0 && d != 0.0 && q != 0.0
    ensures m * q / d != 0.0
    ensures (u / q - o) * d / m == (u - o * q) / (m * q / d)
  {
    var x, y := m / d, u / q - o;
    assert m == x * d && x != 0.0;
    DivideFirst(m, d, q);
    NonZeroProduct(x, q);
    CancelFactor(y, x, d);
    CancelFactor(y, x, q);
    assert y * q == u - o * q by {
      assert u == u / q * q;
      assert (u / q - o) * q == u / q * q - o * q;
    }
  }

  lemma DecodeInUnits(scale: FixedScale, raw: int)
    requires scale.Valid()
    ensures InUnits(scale.Unrounded(raw), scale.decimalPlaces) == Units(scale.StepInUnits(), scale.OffsetInUnits(), raw)
  {
    DecodeAlgebra(raw as real, scale.multiplier, scale.divisor, scale.offset, Power10(scale.decimalPlaces));
  }

  lemma EncodeInUnits(scale: FixedScale, units: int)
    requires scale.Valid()
    ensures scale.StepInUnits() != 0.0
    ensures scale.Unscaled(units as real / Power10(scale.decimalPlaces)) ==
            (units as real - scale.OffsetInUnits()) / scale.StepInUnits()
  {
    EncodeAlgebra(units as real, scale.multiplier, scale.divisor, scale.offset, Power10(scale.decimalPlaces));
  }

  lemma DecodeRounds(scale: FixedScale, raw: int)
    requires scale.Valid()
    ensures scale.Decode(raw) ==
            Decoded(scale.StepInUnits(), scale.OffsetInUnits(), scale.rounding, raw) as real / Power10(scale.decimalPlaces)
  {
    hide Round, Units, InUnits, FixedScale.Unrounded, FixedScale.StepInUnits, FixedScale.OffsetInUnits;
    DecodeInUnits(scale, raw);
  }

  lemma RoundTripInUnits(scale: FixedScale, raw: int)
    requires scale.Valid()
    ensures scale.StepInUnits() != 0.0
    ensures scale.Encode(scale.Decode(raw)) ==
            Encoded(scale.StepInUnits(), scale.OffsetInUnits(), scale.rounding,
                    Decoded(scale.StepInUnits(), scale.OffsetInUnits(), scale.rounding, raw))
  {
    hide Round, Units, InUnits, FixedScale.Unrounded, FixedScale.Unscaled, FixedScale.StepInUnits, FixedScale.OffsetInUnits;
    var s, c, mode := scale.StepInUnits(), scale.OffsetInUnits(), scale.rounding;
    DecodeInUnits(scale, raw);
    var units := Decoded(s, c, mode, raw);
    assert scale.Decode(raw) == units as real / Power10(scale.decimalPlaces) by { DecodeRounds(scale, raw); }
    EncodeInUnits(scale, units);
    assert Encoded(s, c, mode, units) == Round((units as real - c) / s, mode);
    assert scale.Encode(scale.Decode(raw)) == Round(scale.Unscaled(units as real / Power10(scale.decimalPlaces)), mode);
  }

  lemma ReversibleInUnits(scale: FixedScale)
    requires scale.Valid()
    ensures scale.StepInUnits() != 0.0
    ensures scale.Reversible() <==> UnitsReversible(scale.StepInUnits(), scale.OffsetInUnits(), scale.rounding)
  {
    hide Encoded, Decoded;
    RoundTripInUnits(scale, 0);
    var s, c := scale.StepInUnits(), scale.OffsetInUnits();
    forall raw: int ensures scale.Encode(scale.Decode(raw)) == Encoded(s, c, scale.rounding, Decoded(s, c, scale.rounding, raw)) {
      RoundTripInUnits(scale, raw);
    }
  }

  // ---------------------------------------------------------------- when a step survives the round trip

  predicate HalfOff(c: real) {
    c - c.Floor as real == 0.5
  }

  function Abs(x: real): real {
    if x >= 0.0 then x else -x
  }

  /** The exact condition, in units of the last decimal place. */
  predicate Survives(s: real, c: real, mode: RoundingMode) {
    || (Integral(s) && Integral(c))
    || (mode.Nearest() && (Abs(s) > 1.0 || (Abs(s) == 1.0 && !HalfOff(c))))
    || (mode.TowardInfinity() && s <= -1.0)
  }

  /** Rounding moved the value by `e` units, so the raw value comes back moved by `e / s`. */
  lemma MovedBy(s: real, c: real, raw: int, units: int)
    requires s != 0.0
    ensures (units as real - c) / s == raw as real + (units as real - Units(s, c, raw)) / s
  {
    var r, e := raw as real, units as real - Units(s, c, raw);
    assert units as real - c == r * s + e;
    var z := e / s;
    assert e == z * s;
    assert r * s + z * s == (r + z) * s;
    Cancel(r + z, s);
  }

  lemma SmallQuotient(e: real, s: real, bound: real)
    requires s != 0.0 && bound > 0.0
    requires Abs(e) < bound * Abs(s)
    ensures Abs(e / s) < bound
  {
    var z := e / s;
    assert e == z * s;
    AbsProduct(z, s);
    CancelLess(Abs(z), bound, Abs(s));
  }

  lemma AbsProduct(a: real, b: real)
    ensures Abs(a * b) == Abs(a) * Abs(b)
  {
  }

  lemma CancelLess(a: real, b: real, p: real)
    requires p > 0.0 && a * p < b * p
    ensures a < b
  {
  }

  lemma QuotientSign(e: real, s: real)
    requires s != 0.0
    ensures (e / s > 0.0 <==> (e > 0.0 && s > 0.0) || (e < 0.0 && s < 0.0))
    ensures (e / s == 0.0 <==> e == 0.0)
  {
    var z := e / s;
    assert e == z * s;
  }

  /** Whatever the mode: a value that already fits the last decimal place comes back unchanged. */
  lemma FittingValueReturns(s: real, c: real, mode: RoundingMode, raw: int)
    requires s != 0.0 && Integral(Units(s, c, raw))
    ensures Encoded(s, c, mode, Decoded(s, c, mode, raw)) == raw
  {
    var units := Units(s, c, raw).Floor;
    RoundingKeepsIntegers(units, mode);
    MovedBy(s, c, raw, units);
    QuotientSign(0.0, s);
    RoundingKeepsIntegers(raw, mode);
  }

  lemma GridIsIntegral(s: real, c: real, raw: int)
    requires Integral(s) && Integral(c)
    ensures Integral(Units(s, c, raw))
  {
    assert raw as real * s.Floor as real == (raw * s.Floor) as real;
    assert Units(s, c, raw) == (raw * s.Floor + c.Floor) as real;
  }

  lemma NearestReturns(s: real, c: real, mode: RoundingMode, raw: int)
    requires mode.Nearest() && (Abs(s) > 1.0 || (Abs(s) == 1.0 && !HalfOff(c)))
    ensures Encoded(s, c, mode, Decoded(s, c, mode, raw)) == raw
  {
    hide Round;
    var x, units := Units(s, c, raw), Decoded(s, c, mode, raw);
    RoundingIsClose(x, mode);
    if Abs(s) == 1.0 {
      UnitStep(s, c, raw);
      NearestIsStrict(x, mode);
    }
    SmallQuotient(units as real - x, s, 0.5);
    MovedBy(s, c, raw, units);
    NearestWithinHalf(raw, (units as real - c) / s, mode);
  }

  lemma UnitStep(s: real, c: real, raw: int)
    requires Abs(s) == 1.0
    ensures Units(s, c, raw) == if s > 0.0 then c + raw as real else c - raw as real
    ensures HalfOff(Units(s, c, raw)) <==> HalfOff(c)
  {
    assert Units(s, c, raw).Floor == if s > 0.0 then c.Floor + raw else c.Floor - raw;
  }

  lemma NearestIsStrict(x: real, mode: RoundingMode)
    requires mode.Nearest() && !HalfOff(x)
    ensures Abs(Round(x, mode) as real - x) < 0.5
  {
  }

  lemma FallingStepReturns(s: real, c: real, mode: RoundingMode, raw: int)
    requires mode.TowardInfinity() && s <= -1.0
    ensures Encoded(s, c, mode, Decoded(s, c, mode, raw)) == raw
  {
    var x, units := Units(s, c, raw), Decoded(s, c, mode, raw);
    RoundingIsClose(x, mode);
    SmallQuotient(units as real - x, s, 1.0);
    QuotientSign(units as real - x, s);
    MovedBy(s, c, raw, units);
  }

  // ---------------------------------------------------------------- when it does not

  lemma HalfOffNearestFails(s: real, c: real, mode: RoundingMode) returns (raw: int)
    requires mode.Nearest() && Abs(s) == 1.0 && HalfOff(c)
    ensures Encoded(s, c, mode, Decoded(s, c, mode, raw)) != raw
  {
    hide Round, Units;
    raw := if mode.MidpointNearestEven? then 1 else if c >= 0.0 then c.Floor + 2 else 2 - c.Floor;
    var x, units := Units(s, c, raw), Decoded(s, c, mode, raw);
    UnitStep(s, c, raw);
    RoundingHalf(x, mode);
    MovedBy(s, c, raw, units);
    var back := (units as real - c) / s;
    assert back == raw as real + (if s > 0.0 then units as real - x else x - units as real);
    HalfBack(raw, back, mode);
  }

  /** A value half a unit off is moved by half a unit: to an even integer, or away from zero. */
  lemma RoundingHalf(x: real, mode: RoundingMode)
    requires mode.Nearest() && HalfOff(x)
    ensures Abs(Round(x, mode) as real - x) == 0.5
    ensures mode.MidpointAwayFromZero? ==> Round(x, mode) as real == if x >= 0.0 then x + 0.5 else x - 0.5
  {
  }

  lemma HalfBack(raw: int, back: real, mode: RoundingMode)
    requires mode.Nearest() && raw > 0
    requires mode.MidpointNearestEven? ==> raw == 1 && Abs(back - 1.0) == 0.5
    requires mode.MidpointAwayFromZero? ==> back == raw as real + 0.5
    ensures Round(back, mode) != raw
  {
  }

  lemma OffGridSomewhere(s: real, c: real, start: int) returns (raw: int)
    requires !(Integral(s) && Integral(c))
    ensures raw == start || raw == start + 1
    ensures !Integral(Units(s, c, raw))
  {
    raw := if Integral(Units(s, c, start)) then start + 1 else start;
    if Integral(Units(s, c, start)) && Integral(Units(s, c, start + 1)) {
      GridFromPoints(s, c, start);
    }
  }

  lemma GridFromPoints(s: real, c: real, start: int)
    requires Integral(Units(s, c, start)) && Integral(Units(s, c, start + 1))
    ensures Integral(s) && Integral(c)
  {
    var a, b := Units(s, c, start).Floor, Units(s, c, start + 1).Floor;
    assert Units(s, c, start + 1) == Units(s, c, start) + s;
    assert s == (b - a) as real;
    assert start as real * (b - a) as real == (start * (b - a)) as real;
    assert c == (a - start * (b - a)) as real;
  }

  lemma RisingStepFails(s: real, c: real, mode: RoundingMode) returns (raw: int)
    requires mode.TowardInfinity() && s >= 1.0 && !(Integral(s) && Integral(c))
    ensures Encoded(s, c, mode, Decoded(s, c, mode, raw)) != raw
  {
    raw := OffGridSomewhere(s, c, 0);
    var x, units := Units(s, c, raw), Decoded(s, c, mode, raw);
    RoundingIsClose(x, mode);
    QuotientSign(units as real - x, s);
    QuotientSign(x - units as real, s);
    MovedBy(s, c, raw, units);
  }

  lemma DirectedByZeroFails(s: real, c: real, mode: RoundingMode) returns (raw: int)
    requires mode.TowardZero? || mode.AwayFromZero?
    requires Abs(s) >= 1.0 && !(Integral(s) && Integral(c))
    ensures Encoded(s, c, mode, Decoded(s, c, mode, raw)) != raw
  {
    var start := Abs(c).Floor + 2;
    raw := OffGridSomewhere(s, c, start);
    var x, units := Units(s, c, raw), Decoded(s, c, mode, raw);
    assert raw as real > Abs(c) && raw >= 1;
    FarFromZero(s, c, raw);
    RoundingIsClose(x, mode);
    QuotientSign(units as real - x, s);
    MovedBy(s, c, raw, units);
    var back := (units as real - c) / s;
    assert mode.TowardZero? ==> back < raw as real;
    assert mode.AwayFromZero? ==> back > raw as real;
  }

  lemma FarFromZero(s: real, c: real, raw: int)
    requires Abs(s) >= 1.0 && raw as real > Abs(c)
    ensures s > 0.0 ==> Units(s, c, raw) > 0.0
    ensures s < 0.0 ==> Units(s, c, raw) < 0.0
  {
    var r := raw as real;
    if s > 0.0 {
      assert r * s >= r;
    } else {
      assert r * -s >= r;
      assert r * s == -(r * -s);
    }
  }

  lemma {:induction false} DistinctUnits(s: real, c: real, mode: RoundingMode, n: nat)
    requires s != 0.0 && UnitsReversible(s, c, mode)
    ensures s > 0.0 ==> Decoded(s, c, mode, n) >= Decoded(s, c, mode, 0) + n
    ensures s < 0.0 ==> Decoded(s, c, mode, n) <= Decoded(s, c, mode, 0) - n
  {
    hide Round, Units, Encoded;
    if n > 0 {
      DistinctUnits(s, c, mode, n - 1);
      NextUnits(s, c, n);
      if s > 0.0 {
        RoundingIsMonotone(Units(s, c, n - 1), Units(s, c, n), mode);
      } else {
        RoundingIsMonotone(Units(s, c, n), Units(s, c, n - 1), mode);
      }
      assert Encoded(s, c, mode, Decoded(s, c, mode, n)) == n;
      assert Encoded(s, c, mode, Decoded(s, c, mode, n - 1)) == n - 1;
    }
  }

  lemma NextUnits(s: real, c: real, n: int)
    ensures Units(s, c, n) == Units(s, c, n - 1) + s
  {
    assert n as real * s == (n - 1) as real * s + s;
  }

  /** With less than one unit per step some two raw values share a decimal value. */
  lemma SmallStepFails(s: real, c: real, mode: RoundingMode)
    requires s != 0.0 && Abs(s) < 1.0
    ensures !UnitsReversible(s, c, mode)
  {
    hide Round;
    if UnitsReversible(s, c, mode) {
      var n := EnoughSteps(s);
      DistinctUnits(s, c, mode, n);
      RoundingIsClose(Units(s, c, 0), mode);
      RoundingIsClose(Units(s, c, n), mode);
    }
  }

  function Times(a: real, b: real): real {
    a * b
  }

  lemma EnoughSteps(s: real) returns (n: nat)
    requires Abs(s) < 1.0
    ensures Abs(n as real * s) < n as real - 2.0
  {
    var a := if s >= 0.0 then s else -s;
    n := EnoughStepsUp(a);
    assert Times(n as real, a) == (if s >= 0.0 then n as real * s else -(n as real * s));
  }

  lemma EnoughStepsUp(a: real) returns (n: nat)
    requires 0.0 <= a < 1.0
    ensures 0.0 <= Times(n as real, a) < n as real - 2.0
  {
    hide Times;
    n := Exceeding(1.0 - a);
    TimesRest(n as real, a);
  }

  lemma TimesRest(n: real, a: real)
    requires n >= 0.0 && a >= 0.0
    ensures Times(n, 1.0 - a) == n - Times(n, a) && Times(n, a) >= 0.0
  {
  }

  lemma Exceeding(gap: real) returns (n: nat)
    requires gap > 0.0
    ensures Times(n as real, gap) > 2.0
  {
    hide Times;
    var z := Quotient(2.0, gap);
    n := Above(z);
    TimesLess(z, n as real, gap);
  }

  lemma Above(z: real) returns (n: nat)
    ensures n as real > z
  {
    n := if z < 0.0 then 0 else z.Floor + 1;
  }

  lemma Quotient(a: real, b: real) returns (z: real)
    requires b != 0.0
    ensures Times(z, b) == a
  {
    z := a / b;
  }

  lemma TimesLess(a: real, b: real, p: real)
    requires p > 0.0 && a < b
    ensures Times(a, p) < Times(b, p)
  {
  }

  lemma UnitsSurviveExactlyWhen(s: real, c: real, mode: RoundingMode)
    requires s != 0.0
    ensures UnitsReversible(s, c, mode) <==> Survives(s, c, mode)
  {
    hide Round, Units, Encoded, Decoded;
    if Survives(s, c, mode) {
      forall raw: int ensures Encoded(s, c, mode, Decoded(s, c, mode, raw)) == raw {
        if Integral(s) && Integral(c) {
          GridIsIntegral(s, c, raw);
          FittingValueReturns(s, c, mode, raw);
        } else if mode.Nearest() {
          NearestReturns(s, c, mode, raw);
        } else {
          FallingStepReturns(s, c, mode, raw);
        }
      }
    } else if Abs(s) < 1.0 {
      SmallStepFails(s, c, mode);
    } else if mode.Nearest() {
      var raw := HalfOffNearestFails(s, c, mode);
    } else if mode.TowardInfinity() {
      var raw := RisingStepFails(s, c, mode);
    } else {
      var raw := DirectedByZeroFails(s, c, mode);
    }
  }

  // ---------------------------------------------------------------- the scale

  /** A raw value whose unrounded engineering value fits the decimal places survives, whatever the mode. */
  lemma FittingRawSurvives(scale: FixedScale, raw: int)
    requires scale.Valid() && Integral(InUnits(scale.Unrounded(raw), scale.decimalPlaces))
    ensures scale.Decode(raw) == scale.Unrounded(raw) && scale.Encode(scale.Decode(raw)) == raw
  {
    var x := scale.Unrounded(raw);
    RoundingKeepsIntegers(InUnits(x, scale.decimalPlaces).Floor, scale.rounding);
    Cancel(x, Power10(scale.decimalPlaces));
    DecodeInUnits(scale, raw);
    RoundTripInUnits(scale, raw);
    FittingValueReturns(scale.StepInUnits(), scale.OffsetInUnits(), scale.rounding, raw);
  }

  /** A scale gives every raw integer back exactly when one of three conditions on its parameters holds: raw
      steps and offset are whole units of the last decimal place; or it rounds to nearest and a raw step is
      worth more than one such unit, or exactly one and the offset is not half a unit off; or it rounds
      toward an infinity and a raw step is worth minus one unit or less. */
  lemma ReversibleExactlyWhen(scale: FixedScale)
    requires scale.Valid()
    ensures scale.Reversible() <==> Survives(scale.StepInUnits(), scale.OffsetInUnits(), scale.rounding)
  {
    hide Survives, UnitsReversible;
    ReversibleInUnits(scale);
    UnitsSurviveExactlyWhen(scale.StepInUnits(), scale.OffsetInUnits(), scale.rounding);
  }

  /** Thirds with two decimals, rounded toward zero: raw 1 decodes to 0.33 and encodes back to 0. */
  lemma ThirdsAreLost()
    ensures var scale := FixedScale(1.0, 3.0, 0.0, 2, TowardZero);
            scale.Valid() && scale.Decode(1) == 0.33 && scale.Encode(scale.Decode(1)) == 0
  {
    assert Power10(2) == 100.0;
  }
}
