/** What registers, bits and scales stand for, by place value and by the defining inequality of each rounding mode. */
module CodecMeanings {
  import opened Domain
  import opened Scales
  import opened Codecs

  // ---------------------------------------------------------------- place value of registers

  /** What the two bytes of a register count: the high byte 256 in big-endian order, the low byte in little-endian
      order. */
  function Bytes(w: Word, order: ByteOrder): nat {
    var high, low := w / 256, w % 256;
    match order
    case BigEndian => 256 * high + low
    case LittleEndian => high + 256 * low
  }

  /** The power of 65536 that register `i` of `n` counts. */
  function Place(i: nat, n: nat, order: WordOrder): nat
    requires i < n
  {
    match order
    case MostSignificantFirst => n - 1 - i
    case LeastSignificantFirst => i
  }

  /** The first `count` registers by place value. */
  function Sum(words: seq<Word>, byteOrder: ByteOrder, wordOrder: WordOrder, count: nat): nat
    requires count <= |words|
  {
    if count == 0 then 0
    else
      Sum(words, byteOrder, wordOrder, count - 1)
      + Bytes(words[count - 1], byteOrder) * Power(0x1_0000, Place(count - 1, |words|, wordOrder))
  }

  function Number(words: seq<Word>, byteOrder: ByteOrder, wordOrder: WordOrder): nat {
    Sum(words, byteOrder, wordOrder, |words|)
  }

  lemma BytesAreOrdered(w: Word, order: ByteOrder)
    ensures InOrder(w, order) == Bytes(w, order)
  {
  }

  lemma MovesUp(a: nat, b: nat, p: nat)
    ensures (a + b * p) * 0x1_0000 == a * 0x1_0000 + b * (0x1_0000 * p)
  {
    assert b * p * 0x1_0000 == b * (0x1_0000 * p);
  }

  /** One more register at the end moves all before it up by one place, if the most significant comes first. */
  lemma {:induction false} SumMovesUp(words: seq<Word>, last: Word, order: ByteOrder, count: nat)
    requires count <= |words|
    ensures Sum(words + [last], order, MostSignificantFirst, count) == Sum(words, order, MostSignificantFirst, count) * 0x1_0000
  {
    hide Bytes;
    if count > 0 {
      SumMovesUp(words, last, order, count - 1);
      MovesUp(Sum(words, order, MostSignificantFirst, count - 1), Bytes(words[count - 1], order), Power(0x1_0000, |words| - count));
    }
  }

  lemma {:induction false} MostFirst(words: seq<Word>, order: ByteOrder)
    ensures Value(words, order) == Number(words, order, MostSignificantFirst)
  {
    hide Bytes, InOrder;
    if words != [] {
      var n := |words| - 1;
      MostFirst(words[..n], order);
      SumMovesUp(words[..n], words[n], order, n);
      assert words[..n] + [words[n]] == words;
      BytesAreOrdered(words[n], order);
      assert Power(0x1_0000, 0) == 1;
    }
  }

  /** One more register at the front moves all after it up by one place, if the least significant comes first. */
  lemma {:induction false} SumMovesBack(first: Word, words: seq<Word>, order: ByteOrder, count: nat)
    requires count <= |words|
    ensures Sum([first] + words, order, LeastSignificantFirst, count + 1)
            == Bytes(first, order) + Sum(words, order, LeastSignificantFirst, count) * 0x1_0000
  {
    hide Bytes;
    if count == 0 {
      assert Power(0x1_0000, 0) == 1;
      assert Sum([first] + words, order, LeastSignificantFirst, 0) == 0;
    } else {
      SumMovesBack(first, words, order, count - 1);
      MovesUp(Sum(words, order, LeastSignificantFirst, count - 1), Bytes(words[count - 1], order), Power(0x1_0000, count - 1));
    }
  }

  lemma {:induction false} LeastFirst(words: seq<Word>, order: ByteOrder)
    ensures Value(Reverse(words), order) == Number(words, order, LeastSignificantFirst)
  {
    hide Bytes, InOrder;
    if words != [] {
      LeastFirst(words[1..], order);
      SumMovesBack(words[0], words[1..], order, |words| - 1);
      assert [words[0]] + words[1..] == words;
      assert Reverse(words)[..|words| - 1] == Reverse(words[1..]);
      BytesAreOrdered(words[0], order);
    }
  }

  /** The bits of a register group are its number by place value. */
  lemma BitsArePlaceValue(words: seq<Word>, byteOrder: ByteOrder, wordOrder: WordOrder)
    ensures RawBits(words, byteOrder, wordOrder) == Number(words, byteOrder, wordOrder)
  {
    hide Value, Sum;
    match wordOrder
    case MostSignificantFirst => MostFirst(words, byteOrder);
    case LeastSignificantFirst => LeastFirst(words, byteOrder);
  }

  // ---------------------------------------------------------------- packed decimals

  /** Decimal digit `i` of packed bits, counted from the right. */
  function DigitAt(bits: nat, i: nat): nat {
    bits / Power(16, i) % 16
  }

  ghost predicate AllDecimal(bits: nat, digits: nat) {
    forall i :: 0 <= i < digits ==> DigitAt(bits, i) <= 9
  }

  function DecimalSum(bits: nat, digits: nat): nat {
    if digits == 0 then 0 else DecimalSum(bits, digits - 1) + DigitAt(bits, digits - 1) * Power(10, digits - 1)
  }

  lemma DigitShifts(bits: nat, i: nat)
    ensures DigitAt(bits / 16, i) == DigitAt(bits, i + 1)
  {
    NibbleShift(bits, i);
  }

  lemma TenTimes(a: nat, d: nat, p: nat, low: nat)
    ensures (low + a * 10) + d * (10 * p) == low + (a + d * p) * 10
  {
    assert d * (10 * p) == d * p * 10;
  }

  lemma {:induction false} DecimalShifts(bits: nat, digits: nat)
    ensures DecimalSum(bits, digits + 1) == bits % 16 + DecimalSum(bits / 16, digits) * 10
  {
    hide DigitAt;
    if digits == 0 {
      FirstDigit(bits);
      assert Power(10, 0) == 1;
      assert DecimalSum(bits, 0) == 0;
    } else {
      DecimalShifts(bits, digits - 1);
      DigitShifts(bits, digits - 1);
      TenTimes(DecimalSum(bits / 16, digits - 1), DigitAt(bits, digits), Power(10, digits - 1), bits % 16);
    }
  }

  lemma FirstDigit(bits: nat)
    ensures DigitAt(bits, 0) == bits % 16
  {
    assert Power(16, 0) == 1;
  }

  lemma AllDecimalShifts(bits: nat, digits: nat)
    ensures AllDecimal(bits, digits + 1) <==> bits % 16 <= 9 && AllDecimal(bits / 16, digits)
  {
    hide DigitAt;
    FirstDigit(bits);
    forall i: nat ensures DigitAt(bits / 16, i) == DigitAt(bits, i + 1) {
      DigitShifts(bits, i);
    }
    if AllDecimal(bits, digits + 1) {
      forall i | 0 <= i < digits ensures DigitAt(bits / 16, i) <= 9 {
        assert DigitAt(bits, i + 1) <= 9;
      }
      assert DigitAt(bits, 0) <= 9;
    }
    if bits % 16 <= 9 && AllDecimal(bits / 16, digits) {
      forall i | 0 <= i < digits + 1 ensures DigitAt(bits, i) <= 9 {
        if i > 0 { assert DigitAt(bits / 16, i - 1) <= 9; }
      }
    }
  }

  /** Packed bits decode exactly if every digit is decimal, to the number with these digits. */
  lemma {:induction false} PackedMeans(bits: nat, digits: nat)
    ensures FromBcd(bits, digits) == if AllDecimal(bits, digits) then Some(DecimalSum(bits, digits)) else None
  {
    hide AllDecimal, DecimalSum;
    if digits == 0 {
      NoDigits(bits);
    } else {
      PackedMeans(bits / 16, digits - 1);
      AllDecimalShifts(bits, digits - 1);
      DecimalShifts(bits, digits - 1);
    }
  }

  lemma NoDigits(bits: nat)
    ensures AllDecimal(bits, 0) && DecimalSum(bits, 0) == 0
  {
  }

  // ---------------------------------------------------------------- what an encoding stands for

  /** How many registers an encoding takes. */
  function Registers(encoding: Encoding): nat {
    if encoding in {Unsigned16, Signed16, Bcd16, Enum16, Bitfield16} then 1
    else if encoding in {Unsigned64, Signed64, Float64, Bitfield64} then 4
    else 2
  }

  /** The integer that `number` stands for: itself, its two's complement, or its decimal digits. */
  ghost function IntegerOf(encoding: Encoding, number: nat): Option<int> {
    match encoding
    case Signed16 => Some(if number >= 0x8000 then number - 0x1_0000 else number)
    case Signed32 => Some(if number >= 0x8000_0000 then number - 0x1_0000_0000 else number)
    case Signed64 => Some(if number >= 0x8000_0000_0000_0000 then number - 0x1_0000_0000_0000_0000 else number)
    case Bcd16 => if AllDecimal(number, 4) then Some(DecimalSum(number, 4)) else None
    case Bcd32 => if AllDecimal(number, 8) then Some(DecimalSum(number, 8)) else None
    case _ => Some(number)
  }

  lemma IntegersMean(encoding: Encoding, bits: nat)
    requires encoding.SupportsScale()
    ensures RawInteger(encoding, bits) == IntegerOf(encoding, bits)
  {
    hide FromBcd, AllDecimal, DecimalSum;
    PackedMeans(bits, 4);
    PackedMeans(bits, 8);
  }

  /** The value that registers with place value `number` stand for. */
  ghost function ValueOf(codec: RegisterCodec, number: nat): Option<EngineeringValue>
    requires codec.Valid() && number < Modulus(codec.encoding.Width())
  {
    SmallPowers();
    match codec.encoding
    case Float32 => Some(Float32Bits(number))
    case Float64 => Some(Float64Bits(number))
    case Enum16 => Some(EnumRaw(number))
    case Enum32 => Some(EnumRaw(number))
    case Bitfield16 => Some(BitfieldRaw(number))
    case Bitfield32 => Some(BitfieldRaw(number))
    case Bitfield64 => Some(BitfieldRaw(number))
    case _ =>
      var raw := IntegerOf(codec.encoding, number);
      if raw.None? then None
      else Some(Fixed(if codec.fixedScale.Some? then codec.fixedScale.value.Decode(raw.value) else raw.value as real))
  }

  lemma InterpretationMeans(codec: RegisterCodec, number: nat)
    requires codec.Valid() && number < Modulus(codec.encoding.Width())
    ensures codec.Interpret(number) == ValueOf(codec, number)
  {
    hide RawInteger, IntegerOf, FixedScale.Decode, Modulus;
    if codec.encoding.SupportsScale() {
      IntegersMean(codec.encoding, number);
    }
  }

  lemma WidthMeans(encoding: Encoding)
    ensures encoding.Width() == Registers(encoding)
  {
  }

  /** Registers decode exactly if there are as many as the encoding takes and the packed digits, if any, are
      decimal; and then to what their number by place value stands for. */
  lemma DecodedMeans(codec: RegisterCodec, registers: seq<Word>)
    requires codec.Valid()
    ensures Number(registers, codec.byteOrder, codec.wordOrder) < Power(0x1_0000, |registers|)
    ensures |registers| == Registers(codec.encoding) ==> Number(registers, codec.byteOrder, codec.wordOrder) < Modulus(codec.encoding.Width())
    ensures codec.Decoded(registers) ==
            if |registers| == Registers(codec.encoding) then ValueOf(codec, Number(registers, codec.byteOrder, codec.wordOrder)) else None
  {
    hide Number, RawBits, ValueOf, RegisterCodec.Interpret, Registers, Encoding.Width, Power;
    RawBitsFit(registers, codec.byteOrder, codec.wordOrder);
    BitsArePlaceValue(registers, codec.byteOrder, codec.wordOrder);
    WidthMeans(codec.encoding);
    if |registers| == Registers(codec.encoding) {
      InterpretationMeans(codec, Number(registers, codec.byteOrder, codec.wordOrder));
    }
  }

  /** `number` is what registers for `value` must stand for: the value's own bits, or a number for exactly the raw
      integer its scale gives, which rounds to the nearest, ties to even, where there is no scale. */
  ghost predicate StandsFor(codec: RegisterCodec, value: EngineeringValue, number: nat)
    requires codec.Valid()
  {
    match codec.encoding
    case Float32 => value.Float32Bits? && value.bits32 == number
    case Float64 => value.Float64Bits? && value.bits64 == number
    case Enum16 => value.EnumRaw? && value.enumRaw == number
    case Enum32 => value.EnumRaw? && value.enumRaw == number
    case Bitfield16 => value.BitfieldRaw? && value.mask == number
    case Bitfield32 => value.BitfieldRaw? && value.mask == number
    case Bitfield64 => value.BitfieldRaw? && value.mask == number
    case _ =>
      && value.Fixed?
      && IntegerOf(codec.encoding, number) ==
         Some(if codec.fixedScale.Some? then codec.fixedScale.value.Encode(value.decimal) else Round(value.decimal, MidpointNearestEven))
  }

  /** Encoded registers stand, by place value, for the value that was encoded. */
  lemma EncodedMeans(codec: RegisterCodec, value: EngineeringValue)
    requires codec.Valid() && codec.Encoded(value).Some?
    ensures var words := codec.Encoded(value).value;
            |words| == Registers(codec.encoding) && StandsFor(codec, value, Number(words, codec.byteOrder, codec.wordOrder))
  {
    hide Number, RawBits, IntegerOf, RawInteger, BitsOfInteger, FixedScale.Encode, Words, Registers;
    var words := codec.Encoded(value).value;
    var bits := codec.Represent(value).value;
    RepresentFits(codec, value);
    RawBitsOfWords(bits, codec.encoding.Width(), codec.byteOrder, codec.wordOrder);
    BitsArePlaceValue(words, codec.byteOrder, codec.wordOrder);
    WidthMeans(codec.encoding);
    if codec.encoding.SupportsScale() {
      IntegerDecodes(codec.encoding, codec.ScaledDown(value.decimal));
      IntegersMean(codec.encoding, bits);
      if codec.fixedScale.None? {
        UnscaledRounds(value.decimal);
      }
    }
  }

  lemma UnscaledRounds(decimal: real)
    ensures Identity().Encode(decimal) == Round(decimal, MidpointNearestEven)
  {
    assert (decimal - 0.0) * 1.0 / 1.0 == decimal;
  }

  /** The repository's reference words: the same number in both extreme orders. */
  lemma ReferenceWords()
    ensures var codec := RegisterCodec(Unsigned32, BigEndian, MostSignificantFirst, None);
            codec.Decoded([0x1234, 0x5678]) == Some(Fixed(0x1234_5678 as real))
    ensures var codec := RegisterCodec(Unsigned32, LittleEndian, LeastSignificantFirst, None);
            codec.Decoded([0x7856, 0x3412]) == Some(Fixed(0x1234_5678 as real))
  {
    assert Power(0x1_0000, 0) == 1 && Power(0x1_0000, 1) == 0x1_0000;
    var most := RegisterCodec(Unsigned32, BigEndian, MostSignificantFirst, None);
    DecodedMeans(most, [0x1234, 0x5678]);
    SumOfTwo([0x1234, 0x5678], BigEndian, MostSignificantFirst);
    var least := RegisterCodec(Unsigned32, LittleEndian, LeastSignificantFirst, None);
    DecodedMeans(least, [0x7856, 0x3412]);
    SumOfTwo([0x7856, 0x3412], LittleEndian, LeastSignificantFirst);
  }

  lemma SumOfTwo(words: seq<Word>, byteOrder: ByteOrder, wordOrder: WordOrder)
    requires |words| == 2
    ensures Number(words, byteOrder, wordOrder)
            == Bytes(words[0], byteOrder) * Power(0x1_0000, Place(0, 2, wordOrder)) + Bytes(words[1], byteOrder) * Power(0x1_0000, Place(1, 2, wordOrder))
  {
    assert Sum(words, byteOrder, wordOrder, 0) == 0;
    assert Sum(words, byteOrder, wordOrder, 1) == Bytes(words[0], byteOrder) * Power(0x1_0000, Place(0, 2, wordOrder));
  }

  // ---------------------------------------------------------------- scales

  /** `n` is `x` rounded by `mode`: the nearest integer, and of two the even one or the one farther from zero; the
      next integer in the direction of the mode; or, for the modes about zero, the next one on that side. */
  ghost predicate RoundsTo(x: real, mode: RoundingMode, n: int) {
    var y := n as real;
    match mode
    case MidpointNearestEven => y - 0.5 <= x <= y + 0.5 && (x == y - 0.5 || x == y + 0.5 ==> n % 2 == 0)
    case MidpointAwayFromZero =>
      && y - 0.5 <= x <= y + 0.5
      && (x == y - 0.5 ==> x > 0.0) && (x == y + 0.5 ==> x < 0.0)
    case TowardPositiveInfinity => y - 1.0 < x <= y
    case TowardNegativeInfinity => y <= x < y + 1.0
    case TowardZero => if x >= 0.0 then y <= x < y + 1.0 else y - 1.0 < x <= y
    case AwayFromZero => if x >= 0.0 then y - 1.0 < x <= y else y <= x < y + 1.0
  }

  lemma RoundExactlyWhen(x: real, mode: RoundingMode, n: int)
    ensures Round(x, mode) == n <==> RoundsTo(x, mode, n)
  {
  }

  lemma {:induction false} TensArePowers(n: nat)
    ensures Power10(n) == Power(10, n) as real
  {
    if n > 0 {
      TensArePowers(n - 1);
    }
  }

  lemma UnroundedMeans(scale: FixedScale, raw: int)
    requires scale.Valid()
    ensures scale.Unrounded(raw) == raw as real * scale.multiplier / scale.divisor + scale.offset
  {
  }

  /** `x` with the point moved right by `places` decimal places. */
  function Shifted(x: real, places: nat): real {
    x * (Power(10, places) as real)
  }

  lemma UnitsMean(x: real, places: nat)
    ensures InUnits(x, places) == Shifted(x, places)
  {
    TensArePowers(places);
  }

  /** A raw integer stands for raw times multiplier by divisor plus offset, and decodes to that number, counted in
      units of the last decimal place and rounded by the mode of the scale. */
  lemma ScaledValueMeans(scale: FixedScale, raw: int) returns (exact: real, units: int)
    requires scale.Valid()
    ensures exact == raw as real * scale.multiplier / scale.divisor + scale.offset
    ensures RoundsTo(Shifted(exact, scale.decimalPlaces), scale.rounding, units)
    ensures Shifted(scale.Decode(raw), scale.decimalPlaces) == units as real
  {
    exact := scale.Unrounded(raw);
    UnroundedMeans(scale, raw);
    hide *;
    UnitsMean(exact, scale.decimalPlaces);
    UnitsMean(scale.Decode(raw), scale.decimalPlaces);
    units := Round(InUnits(exact, scale.decimalPlaces), scale.rounding);
    RoundExactlyWhen(InUnits(exact, scale.decimalPlaces), scale.rounding, units);
    DecodedUnits(scale, raw);
  }

  lemma DecodedUnits(scale: FixedScale, raw: int)
    requires scale.Valid()
    ensures InUnits(scale.Decode(raw), scale.decimalPlaces)
            == Round(InUnits(scale.Unrounded(raw), scale.decimalPlaces), scale.rounding) as real
  {
    hide Round, FixedScale.Unrounded, Power10;
    DividedBack(Round(InUnits(scale.Unrounded(raw), scale.decimalPlaces), scale.rounding) as real, Power10(scale.decimalPlaces));
  }

  lemma DividedBack(a: real, b: real)
    requires b != 0.0
    ensures a / b * b == a
  {
  }

  /** A value encodes to value less offset times divisor by multiplier, rounded to an integer by the mode of the
      scale. */
  lemma ScaledRawMeans(scale: FixedScale, value: real) returns (exact: real)
    requires scale.Valid()
    ensures exact == (value - scale.offset) * scale.divisor / scale.multiplier
    ensures RoundsTo(exact, scale.rounding, scale.Encode(value))
  {
    hide Round, RoundsTo;
    exact := scale.Unscaled(value);
    RoundExactlyWhen(exact, scale.rounding, scale.Encode(value));
  }
}
