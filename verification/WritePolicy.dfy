/** The limits a profile sets for a manual write, told from its fields. */
module WritePolicies {
  import opened Domain
  import Modbus
  import opened Profiles
  import opened WriteTypes

  // ---------------------------------------------------------------- bit fields

  /** The number whose binary digits, the lowest first, are `flags`. */
  function MaskOf(flags: seq<bool>): nat {
    if flags == [] then 0 else (if flags[0] then 1 else 0) + 2 * MaskOf(flags[1..])
  }

  function BitsOf(mask: nat, count: nat): (flags: seq<bool>)
    ensures |flags| == count
  {
    if count == 0 then [] else [mask % 2 == 1] + BitsOf(mask / 2, count - 1)
  }

  lemma DoublePower(n: nat)
    ensures Power2(n + 1) == 2 * Power2(n)
  {
  }

  lemma HalfOfQuotient(mask: nat, p: nat)
    requires p > 0
    ensures mask / (2 * p) == mask / 2 / p
  {
    var q, r := mask / 2 / p, mask / 2 % p;
    assert mask / 2 == q * p + r;
    var low := mask % 2;
    assert mask == 2 * (q * p + r) + low;
    assert mask == q * (2 * p) + (2 * r + low);
    QuotientIs(mask, 2 * p, q, 2 * r + low);
  }

  lemma QuotientIs(x: nat, d: nat, q: nat, r: nat)
    requires d > 0 && x == q * d + r && r < d
    ensures x / d == q
  {
    var other := x / d;
    assert x == other * d + x % d;
    if q > other {
      OneMoreFits(other, q, d);
    } else if q < other {
      OneMoreFits(q, other, d);
    }
  }

  lemma OneMoreFits(a: nat, b: nat, d: nat)
    requires a < b
    ensures a * d + d <= b * d
  {
    assert (b - a - 1) * d >= 0;
  }

  /** Digit `bit` of the binary digits is the bit the mask has at that place. */
  lemma {:induction false} BitsAreDigits(mask: U64, count: nat, bit: nat)
    requires bit < count
    ensures BitsOf(mask, count)[bit] <==> BitSet(mask, bit)
  {
    if bit == 0 {
      assert Power2(0) == 1;
    } else {
      BitsAreDigits(mask / 2, count - 1, bit - 1);
      DoublePower(bit - 1);
      HalfOfQuotient(mask, Power2(bit - 1));
    }
  }

  lemma {:induction false} BitsSpell(mask: nat, count: nat)
    requires mask < Power2(count)
    ensures MaskOf(BitsOf(mask, count)) == mask
  {
    if count > 0 {
      DoublePower(count - 1);
      BitsSpell(mask / 2, count - 1);
      assert BitsOf(mask, count)[1..] == BitsOf(mask / 2, count - 1);
    }
  }

  lemma {:induction false} SpellingIsUnique(flags: seq<bool>)
    ensures BitsOf(MaskOf(flags), |flags|) == flags
  {
    if flags != [] {
      SpellingIsUnique(flags[1..]);
      assert flags == [flags[0]] + flags[1..];
    }
  }

  lemma EightMore(n: nat)
    ensures Power2(n + 8) == 256 * Power2(n)
  {
    DoublePower(n); DoublePower(n + 1); DoublePower(n + 2); DoublePower(n + 3);
    DoublePower(n + 4); DoublePower(n + 5); DoublePower(n + 6); DoublePower(n + 7);
  }

  lemma Power64()
    ensures Power2(64) == 0x1_0000_0000_0000_0000
  {
    assert Power2(0) == 1;
    hide Power2;
    EightMore(0); EightMore(8); EightMore(16); EightMore(24);
    EightMore(32); EightMore(40); EightMore(48); EightMore(56);
  }

  /** Every one bit of the mask is a declared flag: the mask is spelled by 64 digits, ones only where declared. */
  ghost predicate OnlyDeclared(mask: U64, declared: set<nat>) {
    exists flags: seq<bool> :: |flags| == 64 && MaskOf(flags) == mask && forall bit :: 0 <= bit < 64 && flags[bit] ==> bit in declared
  }

  lemma DeclaredExactlyWhen(mask: U64, declared: set<nat>)
    ensures OnlyDeclared(mask, declared) <==> forall bit :: 0 <= bit < 64 && BitSet(mask, bit) ==> bit in declared
  {
    hide BitSet, MaskOf, BitsOf, Power2;
    Power64();
    BitsSpell(mask, 64);
    var own := BitsOf(mask, 64);
    forall bit | 0 <= bit < 64 ensures own[bit] <==> BitSet(mask, bit) {
      BitsAreDigits(mask, 64, bit);
    }
    if OnlyDeclared(mask, declared) {
      var flags: seq<bool> :| |flags| == 64 && MaskOf(flags) == mask && forall bit :: 0 <= bit < 64 && flags[bit] ==> bit in declared;
      SpellingIsUnique(flags);
      assert flags == own;
    }
  }

  // ---------------------------------------------------------------- the value limits of a manual write

  /** A parameter an operator may write by hand. */
  ghost predicate WritableByHand(parameter: Parameter) {
    && parameter.access in {WritableWhenStopped, Commissioning}
    && parameter.requiredDriveState == StoppedState
    && parameter.writeFunction in {Some(Modbus.WriteSingleRegister), Some(Modbus.WriteMultipleRegisters)}
  }

  function Steps(k: int, step: real): real {
    k as real * step
  }

  /** The profile declares `value` for `parameter`: a number within the limits, a whole number of steps above the
      minimum (or above zero); a finite float; a declared enum value; declared flags only. */
  ghost predicate Declared(parameter: Parameter, value: EngineeringValue) {
    match value
    case Fixed(decimal) =>
      && (parameter.minimum == None || decimal >= parameter.minimum.value)
      && (parameter.maximum == None || decimal <= parameter.maximum.value)
      && (parameter.step == None
          || (parameter.step.value != 0.0
              && exists k: int :: decimal == (if parameter.minimum == None then 0.0 else parameter.minimum.value) + Steps(k, parameter.step.value)))
    case Float32Bits(bits) => bits % 0x8000_0000 < 0x7F80_0000
    case Float64Bits(bits) => bits % 0x8000_0000_0000_0000 < 0x7FF0_0000_0000_0000
    case EnumRaw(raw) => raw in parameter.enumValues
    case BitfieldRaw(mask) => OnlyDeclared(mask, parameter.bitFlags)
  }

  lemma GridExactlyWhen(decimal: real, origin: real, step: real)
    requires step != 0.0
    ensures OnGrid(decimal - origin, step) <==> exists k: int :: decimal == origin + Steps(k, step)
  {
    var delta := decimal - origin;
    if OnGrid(delta, step) {
      var k := (delta / step).Floor;
      assert Steps(k, step) == delta;
    }
    if k: int :| decimal == origin + Steps(k, step) {
      QuotientOfMultiple(k as real, step);
      assert delta == k as real * step;
      assert delta / step == k as real;
    }
  }

  lemma QuotientOfMultiple(k: real, step: real)
    requires step != 0.0
    ensures (k * step) / step == k
  {
  }

  /** A float is finite exactly if its magnitude is below the pattern of infinity. */
  lemma FiniteExactlyWhen(bits32: U32, bits64: U64)
    ensures bits32 / 0x80_0000 % 0x100 != 0xFF <==> bits32 % 0x8000_0000 < 0x7F80_0000
    ensures bits64 / 0x10_0000_0000_0000 % 0x800 != 0x7FF <==> bits64 % 0x8000_0000_0000_0000 < 0x7FF0_0000_0000_0000
  {
  }

  lemma AcceptedExactlyWhen(parameter: Parameter, value: EngineeringValue)
    ensures RequestAccepted(parameter, value) <==> Declared(parameter, value)
  {
    hide OnGrid, OnlyDeclared, BitSet;
    match value
    case Fixed(decimal) =>
      if parameter.step.Some? && parameter.step.value != 0.0 {
        GridExactlyWhen(decimal, if parameter.minimum.Some? then parameter.minimum.value else 0.0, parameter.step.value);
      }
    case Float32Bits(bits) => FiniteExactlyWhen(bits, 0);
    case Float64Bits(bits) => FiniteExactlyWhen(0, bits);
    case EnumRaw(_) =>
    case BitfieldRaw(mask) => DeclaredExactlyWhen(mask, parameter.bitFlags);
  }

  /** `raw` is what may be written to `parameter` for `value`: the profile allows both. */
  ghost predicate InPolicy(parameter: Parameter, value: EngineeringValue, raw: RawRegisters) {
    && WritableByHand(parameter) && Declared(parameter, value)
    && parameter.codec.encode(value) == Some(raw)
    && forall i :: 0 <= i < |parameter.forbiddenRaw| ==> raw != parameter.forbiddenRaw[i]
  }

  /** The target of a manual write is exactly the encoding of a request in policy. */
  lemma TargetExactlyWhen(parameter: Parameter, value: EngineeringValue, raw: RawRegisters)
    ensures AuthoritativeTarget(parameter, value) == Some(raw) <==> InPolicy(parameter, value, raw)
  {
    hide RequestAccepted, Declared;
    AcceptedExactlyWhen(parameter, value);
  }
}
