/** Register words to engineering values and back, for every encoding, byte order and word order. */
module Codecs {
  import opened Domain
  import opened Scales

  datatype Encoding =
    | Unsigned16 | Signed16 | Unsigned32 | Signed32 | Unsigned64 | Signed64 | Float32 | Float64 | Bcd16 | Bcd32
    | Enum16 | Enum32 | Bitfield16 | Bitfield32 | Bitfield64
  {
    /** How many registers a value occupies. */
    function Width(): (width: nat)
      ensures width == 1 || width == 2 || width == 4
    {
      match this
      case Unsigned16 => 1
      case Signed16 => 1
      case Bcd16 => 1
      case Enum16 => 1
      case Bitfield16 => 1
      case Unsigned64 => 4
      case Signed64 => 4
      case Float64 => 4
      case Bitfield64 => 4
      case _ => 2
    }

    predicate SupportsScale() {
      Unsigned16? || Signed16? || Unsigned32? || Signed32? || Unsigned64? || Signed64? || Bcd16? || Bcd32?
    }
  }

  datatype ByteOrder = BigEndian | LittleEndian
  datatype WordOrder = MostSignificantFirst | LeastSignificantFirst

  datatype CodecError =
    | UnexpectedScale
    | RegisterWidth(expected: nat, actual: nat)
    | ValueKindMismatch
    | OutOfRange
    | InvalidBcdDigit(index: nat, digit: nat)

  datatype Coded<T> = Success(value: T) | Failure(error: CodecError)

  // ---------------------------------------------------------------- words and bits

  function Power(base: nat, n: nat): (p: nat)
    requires base > 0
    ensures p > 0
  {
    if n == 0 then 1 else base * Power(base, n - 1)
  }

  function Swap(w: Word): Word {
    w % 256 * 256 + w / 256
  }

  function InOrder(w: Word, order: ByteOrder): Word {
    if order.BigEndian? then w else Swap(w)
  }

  function Reverse(words: seq<Word>): (reversed: seq<Word>)
    ensures |reversed| == |words|
    ensures forall i :: 0 <= i < |words| ==> reversed[i] == words[|words| - 1 - i]
  {
    seq(|words|, i requires 0 <= i < |words| => words[|words| - 1 - i])
  }

  function Ordered(words: seq<Word>, order: WordOrder): (ordered: seq<Word>)
    ensures |ordered| == |words|
  {
    if order.MostSignificantFirst? then words else Reverse(words)
  }

  /** The unsigned value of words in canonical order, most significant first. */
  function Value(words: seq<Word>, order: ByteOrder): nat {
    if words == [] then 0 else Value(words[..|words| - 1], order) * 0x1_0000 + InOrder(words[|words| - 1], order)
  }

  function Digits(bits: nat, width: nat, order: ByteOrder): (words: seq<Word>)
    ensures |words| == width
  {
    if width == 0 then [] else Digits(bits / 0x1_0000, width - 1, order) + [InOrder(bits % 0x1_0000, order)]
  }

  function RawBits(words: seq<Word>, byteOrder: ByteOrder, wordOrder: WordOrder): nat {
    Value(Ordered(words, wordOrder), byteOrder)
  }

  function Words(bits: nat, width: nat, byteOrder: ByteOrder, wordOrder: WordOrder): (words: seq<Word>)
    ensures |words| == width
  {
    Ordered(Digits(bits, width, byteOrder), wordOrder)
  }

  method WordsToBits(registers: seq<Word>, byteOrder: ByteOrder, wordOrder: WordOrder) returns (bits: U64)
    requires |registers| <= 4
    ensures bits == RawBits(registers, byteOrder, wordOrder)
  {
    var words := registers;
    if wordOrder == LeastSignificantFirst {
      words := Reverse(words);
    }
    bits := 0;
    SmallPowers();
    for i := 0 to |words|
      invariant bits == Value(words[..i], byteOrder) < Power(0x1_0000, i)
    {
      assert words[..i + 1][..i] == words[..i];
      var bytes := if byteOrder == BigEndian then (words[i] / 256, words[i] % 256) else (words[i] % 256, words[i] / 256);
      ValueFits(words[..i + 1], byteOrder);
      PowerGrows(i + 1, 4);
      bits := bits * 256 + bytes.0;
      bits := bits * 256 + bytes.1;
    }
    assert words[..|words|] == words;
  }

  method BitsToWords(bits: U64, width: nat, byteOrder: ByteOrder, wordOrder: WordOrder) returns (words: seq<Word>)
    ensures words == Words(bits, width, byteOrder, wordOrder)
  {
    words := [];
    for index := 0 to width
      invariant words == Digits(bits / Power(0x1_0000, width - index), index, byteOrder)
    {
      var canonical := bits / Power(0x1_0000, width - index - 1) % 0x1_0000;
      words := words + [if byteOrder == BigEndian then canonical else Swap(canonical)];
      DivideTwice(bits, Power(0x1_0000, width - index - 1), 0x1_0000);
    }
    if wordOrder == LeastSignificantFirst {
      words := Reverse(words);
    }
  }

  /** Dividing twice is dividing by the product. */
  lemma DivideTwice(x: nat, p: nat, b: nat)
    requires p > 0 && b > 0
    ensures b * p > 0 && x / p / b == x / (b * p)
  {
    var q, r := x / p, x % p;
    var qq, rr := q / b, q % b;
    ScaleOrder(1, b, p);
    Remainder(rr, b, p, r);
    Regrouped(x, q, qq, b, rr, p, r);
    QuotientIs(x, b * p, qq, rr * p + r);
  }

  lemma Regrouped(x: nat, q: nat, qq: nat, b: nat, rr: nat, p: nat, r: nat)
    requires x == q * p + r && q == qq * b + rr
    ensures x == qq * (b * p) + (rr * p + r)
  {
    assert (qq * b + rr) * p == qq * (b * p) + rr * p;
  }

  lemma ScaleOrder(a: int, b: int, p: nat)
    requires a <= b
    ensures a * p <= b * p
  {
    var gap: nat := b - a;
    assert gap * p >= 0;
    assert b * p == a * p + gap * p;
  }

  lemma Remainder(rr: nat, b: nat, p: nat, r: nat)
    requires rr < b && r < p
    ensures 0 <= rr * p + r < b * p
  {
    ScaleOrder(0, rr, p);
    ScaleOrder(rr + 1, b, p);
    assert (rr + 1) * p == rr * p + p;
  }

  lemma Multiple(e: int, d: nat)
    requires d > 0 && e != 0
    ensures e * d >= d || e * d <= -1 * d
  {
    if e > 0 {
      ScaleOrder(1, e, d);
    } else {
      ScaleOrder(e, -1, d);
    }
  }

  lemma QuotientIs(x: nat, d: nat, q: nat, r: nat)
    requires d > 0 && x == q * d + r && r < d
    ensures x / d == q
  {
    var e := x / d - q;
    assert x == (x / d) * d + x % d;
    assert e * d == r - x % d;
    if e != 0 { Multiple(e, d); }
  }

  lemma SmallPowers()
    ensures Power(0x1_0000, 1) == 0x1_0000 && Power(0x1_0000, 2) == 0x1_0000_0000 && Power(0x1_0000, 4) == U64_MAX + 1
  {
    assert Power(0x1_0000, 3) == 0x1_0000_0000_0000;
  }

  lemma {:induction false} PowerGrows(m: nat, n: nat)
    requires m <= n
    ensures Power(0x1_0000, m) <= Power(0x1_0000, n)
    decreases n
  {
    if m < n { PowerGrows(m, n - 1); }
  }

  lemma {:induction false} ValueFits(words: seq<Word>, order: ByteOrder)
    ensures Value(words, order) < Power(0x1_0000, |words|)
  {
    if words != [] {
      ValueFits(words[..|words| - 1], order);
    }
  }

  lemma SwapTwice(w: Word)
    ensures Swap(Swap(w)) == w
  {
    assert Swap(w) % 256 == w / 256 && Swap(w) / 256 == w % 256;
  }

  lemma {:induction false} DigitsOfValue(words: seq<Word>, order: ByteOrder)
    ensures Digits(Value(words, order), |words|, order) == words
  {
    if words != [] {
      var n := |words| - 1;
      DigitsOfValue(words[..n], order);
      SwapTwice(words[n]);
      var low := InOrder(words[n], order);
      QuotientIs(Value(words, order), 0x1_0000, Value(words[..n], order), low);
    }
  }

  lemma {:induction false} ValueOfDigits(bits: nat, width: nat, order: ByteOrder)
    requires bits < Power(0x1_0000, width)
    ensures Value(Digits(bits, width, order), order) == bits
  {
    if width > 0 {
      ValueOfDigits(bits / 0x1_0000, width - 1, order);
      SwapTwice(bits % 0x1_0000);
      assert Digits(bits, width, order)[..width - 1] == Digits(bits / 0x1_0000, width - 1, order);
    }
  }

  lemma ReverseTwice(words: seq<Word>)
    ensures Reverse(Reverse(words)) == words
  {
  }

  /** Reading words as bits loses nothing, in any byte and word order. */
  lemma WordsOfRawBits(words: seq<Word>, byteOrder: ByteOrder, wordOrder: WordOrder)
    ensures Words(RawBits(words, byteOrder, wordOrder), |words|, byteOrder, wordOrder) == words
  {
    DigitsOfValue(Ordered(words, wordOrder), byteOrder);
    ReverseTwice(words);
  }

  lemma RawBitsOfWords(bits: nat, width: nat, byteOrder: ByteOrder, wordOrder: WordOrder)
    requires bits < Power(0x1_0000, width)
    ensures RawBits(Words(bits, width, byteOrder, wordOrder), byteOrder, wordOrder) == bits
  {
    ValueOfDigits(bits, width, byteOrder);
    ReverseTwice(Digits(bits, width, byteOrder));
  }

  lemma RawBitsFit(words: seq<Word>, byteOrder: ByteOrder, wordOrder: WordOrder)
    ensures RawBits(words, byteOrder, wordOrder) < Power(0x1_0000, |words|)
  {
    ValueFits(Ordered(words, wordOrder), byteOrder);
  }

  // ---------------------------------------------------------------- packed decimals

  function Nibble(bits: nat, index: nat): (nibble: nat)
    ensures nibble < 16
  {
    bits / Power(16, index) % 16
  }

  /** The number whose decimal digits are the `digits` low nibbles; None if one of them is no digit. */
  function FromBcd(bits: nat, digits: nat): Option<nat> {
    if digits == 0 then Some(0)
    else
      var high := FromBcd(bits / 16, digits - 1);
      if high.Some? && bits % 16 <= 9 then Some(high.value * 10 + bits % 16) else None
  }

  /** `value` as `digits` decimal nibbles; None if it does not fit. */
  function ToBcd(value: nat, digits: nat): Option<nat> {
    if digits == 0 then if value == 0 then Some(0) else None
    else
      var high := ToBcd(value / 10, digits - 1);
      if high.Some? then Some(high.value * 16 + value % 10) else None
  }

  lemma NibbleAbove(bits: nat, index: nat)
    ensures bits / Power(16, index) / 16 == bits / Power(16, index + 1)
  {
    DivideTwice(bits, Power(16, index), 16);
  }

  lemma NoDigitsLeft(bits: nat, digits: nat)
    requires bits < Power(16, digits)
    ensures bits / Power(16, digits) == 0
  {
    QuotientIs(bits, Power(16, digits), 0, bits);
  }

  /** A digit that is not decimal, with all more significant ones decimal, is what decoding stops at. */
  lemma {:induction false} BadDigit(bits: nat, digits: nat, index: nat)
    requires index < digits && Nibble(bits, index) > 9
    ensures FromBcd(bits, digits).None?
    decreases digits
  {
    if index > 0 {
      NibbleShift(bits, index - 1);
      BadDigit(bits / 16, digits - 1, index - 1);
    } else {
      assert Power(16, 0) == 1;
    }
  }

  lemma NibbleShift(bits: nat, index: nat)
    ensures Nibble(bits / 16, index) == Nibble(bits, index + 1)
  {
    ShiftFirst(bits, index);
  }

  lemma {:induction false} ShiftFirst(bits: nat, index: nat)
    ensures bits / 16 / Power(16, index) == bits / Power(16, index + 1)
  {
    if index == 0 {
      assert Power(16, 0) == 1 && Power(16, 1) == 16;
    } else {
      ShiftFirst(bits, index - 1);
      NibbleAbove(bits / 16, index - 1);
      NibbleAbove(bits, index);
    }
  }

  /** From the most significant digit down; the first that is not decimal is reported. */
  method DecodeBcd(bits: nat, digits: nat) returns (decoded: Coded<nat>)
    requires bits < Power(16, digits)
    ensures decoded.Success? <==> FromBcd(bits, digits).Some?
    ensures decoded.Success? ==> decoded.value == FromBcd(bits, digits).value
    ensures decoded.Failure? ==>
              && decoded.error.InvalidBcdDigit? && decoded.error.index < digits
              && decoded.error.digit == Nibble(bits, decoded.error.index) > 9
              && forall i :: decoded.error.index < i < digits ==> Nibble(bits, i) <= 9
  {
    var value := 0;
    var index := digits;
    NoDigitsLeft(bits, digits);
    while index > 0
      invariant 0 <= index <= digits
      invariant FromBcd(bits / Power(16, index), digits - index) == Some(value)
      invariant forall i :: index <= i < digits ==> Nibble(bits, i) <= 9
    {
      index := index - 1;
      NibbleAbove(bits, index);
      var digit := Nibble(bits, index);
      if digit > 9 {
        BadDigit(bits, digits, index);
        return Failure(InvalidBcdDigit(index, digit));
      }
      value := value * 10 + digit;
    }
    assert Power(16, 0) == 1;
    return Success(value);
  }

  method EncodeBcd(raw: int, digits: nat) returns (encoded: Coded<nat>)
    ensures encoded.Success? <==> raw >= 0 && raw <= U64_MAX && ToBcd(raw, digits).Some?
    ensures encoded.Success? ==> encoded.value == ToBcd(raw, digits).value
    ensures encoded.Failure? ==> encoded.error == OutOfRange
  {
    if raw < 0 || raw > U64_MAX {
      return Failure(OutOfRange);
    }
    var remaining: nat, bits: nat := raw, 0;
    assert Power(16, 0) == 1;
    for index := 0 to digits
      invariant ToBcd(raw, digits).Some? <==> ToBcd(remaining, digits - index).Some?
      invariant ToBcd(raw, digits).Some? ==>
                  ToBcd(raw, digits).value == ToBcd(remaining, digits - index).value * Power(16, index) + bits
    {
      ghost var high := ToBcd(remaining / 10, digits - index - 1);
      if high.Some? {
        Regroup(high.value, remaining % 10, Power(16, index), bits);
      }
      bits := bits + remaining % 10 * Power(16, index);
      remaining := remaining / 10;
    }
    if remaining != 0 {
      return Failure(OutOfRange);
    }
    return Success(bits);
  }

  lemma Regroup(high: nat, low: nat, p: nat, bits: nat)
    ensures (high * 16 + low) * p + bits == high * (16 * p) + (bits + low * p)
  {
  }

  lemma {:induction false} BcdFits(value: nat, digits: nat)
    ensures ToBcd(value, digits).Some? <==> value < Power(10, digits)
    ensures ToBcd(value, digits).Some? ==> ToBcd(value, digits).value < Power(16, digits)
  {
    if digits > 0 {
      BcdFits(value / 10, digits - 1);
    }
  }

  lemma {:induction false} DecodedBcdEncodes(bits: nat, digits: nat)
    requires bits < Power(16, digits) && FromBcd(bits, digits).Some?
    ensures ToBcd(FromBcd(bits, digits).value, digits) == Some(bits)
  {
    if digits > 0 {
      DecodedBcdEncodes(bits / 16, digits - 1);
      QuotientIs(FromBcd(bits, digits).value, 10, FromBcd(bits / 16, digits - 1).value, bits % 16);
    }
  }

  lemma {:induction false} EncodedBcdDecodes(value: nat, digits: nat)
    requires ToBcd(value, digits).Some?
    ensures FromBcd(ToBcd(value, digits).value, digits) == Some(value)
  {
    if digits > 0 {
      EncodedBcdDecodes(value / 10, digits - 1);
      QuotientIs(ToBcd(value, digits).value, 16, ToBcd(value / 10, digits - 1).value, value % 10);
    }
  }

  // ---------------------------------------------------------------- one value

  /** Two's complement of `modulus` values. */
  function AsSigned(bits: nat, modulus: nat): int {
    if bits < modulus / 2 then bits else bits - modulus
  }

  function AsUnsigned(raw: int, modulus: nat): int {
    if raw < 0 then raw + modulus else raw
  }

  function Modulus(width: nat): nat {
    Power(0x1_0000, width)
  }

  /** The integer behind the bits of a fixed-point encoding; None for malformed packed decimals. */
  function RawInteger(encoding: Encoding, bits: nat): Option<int>
    requires encoding.SupportsScale()
  {
    match encoding
    case Signed16 => Some(AsSigned(bits, 0x1_0000))
    case Signed32 => Some(AsSigned(bits, 0x1_0000_0000))
    case Signed64 => Some(AsSigned(bits, 0x1_0000_0000_0000_0000))
    case Bcd16 => FromBcd(bits, 4)
    case Bcd32 => FromBcd(bits, 8)
    case _ => Some(bits)
  }

  function SignedBits(raw: int, modulus: nat): Option<nat> {
    if -(modulus as int / 2) <= raw < modulus / 2 then Some(AsUnsigned(raw, modulus)) else None
  }

  function UnsignedBits(raw: int, modulus: nat): Option<nat> {
    if 0 <= raw < modulus then Some(raw) else None
  }

  /** The bits of an integer in a fixed-point encoding; None when it is out of range. */
  function BitsOfInteger(encoding: Encoding, raw: int): Option<nat>
    requires encoding.SupportsScale()
  {
    match encoding
    case Unsigned16 => UnsignedBits(raw, 0x1_0000)
    case Unsigned32 => UnsignedBits(raw, 0x1_0000_0000)
    case Unsigned64 => UnsignedBits(raw, 0x1_0000_0000_0000_0000)
    case Signed16 => SignedBits(raw, 0x1_0000)
    case Signed32 => SignedBits(raw, 0x1_0000_0000)
    case Signed64 => SignedBits(raw, 0x1_0000_0000_0000_0000)
    case Bcd16 => if raw < 0 then None else ToBcd(raw, 4)
    case Bcd32 => if raw < 0 then None else ToBcd(raw, 8)
  }

  function LowestInteger(encoding: Encoding): int {
    match encoding
    case Signed16 => -0x8000
    case Signed32 => -0x8000_0000
    case Signed64 => -0x8000_0000_0000_0000
    case _ => 0
  }

  function HighestInteger(encoding: Encoding): int {
    match encoding
    case Signed16 => 0x7FFF
    case Signed32 => 0x7FFF_FFFF
    case Signed64 => 0x7FFF_FFFF_FFFF_FFFF
    case Unsigned64 => 0xFFFF_FFFF_FFFF_FFFF
    case Unsigned32 => 0xFFFF_FFFF
    case Bcd16 => 9999
    case Bcd32 => 99_999_999
    case _ => 0xFFFF
  }

  lemma SmallBcd()
    ensures Power(16, 4) == 0x1_0000 && Power(16, 8) == 0x1_0000_0000
    ensures Power(10, 4) == 10_000 && Power(10, 8) == 100_000_000
  {
    assert Power(16, 2) == 256 && Power(16, 6) == 256 * Power(16, 4);
    assert Power(10, 2) == 100 && Power(10, 6) == 100 * Power(10, 4);
  }

  lemma IntegerEncodes(encoding: Encoding, bits: nat)
    requires encoding.SupportsScale() && bits < Modulus(encoding.Width()) && RawInteger(encoding, bits).Some?
    ensures BitsOfInteger(encoding, RawInteger(encoding, bits).value) == Some(bits)
  {
    hide FromBcd, ToBcd;
    SmallPowers();
    SmallBcd();
    if encoding.Bcd16? { DecodedBcdEncodes(bits, 4); }
    if encoding.Bcd32? { DecodedBcdEncodes(bits, 8); }
  }

  lemma IntegerDecodes(encoding: Encoding, raw: int)
    requires encoding.SupportsScale() && BitsOfInteger(encoding, raw).Some?
    ensures BitsOfInteger(encoding, raw).value < Modulus(encoding.Width())
    ensures RawInteger(encoding, BitsOfInteger(encoding, raw).value) == Some(raw)
  {
    hide FromBcd, ToBcd;
    SmallPowers();
    SmallBcd();
    if encoding.Bcd16? { EncodedBcdDecodes(raw, 4); BcdFits(raw, 4); }
    if encoding.Bcd32? { EncodedBcdDecodes(raw, 8); BcdFits(raw, 8); }
  }

  lemma IntegerRange(encoding: Encoding, raw: int)
    requires encoding.SupportsScale()
    ensures BitsOfInteger(encoding, raw).Some? <==> LowestInteger(encoding) <= raw <= HighestInteger(encoding)
  {
    hide FromBcd, ToBcd;
    SmallBcd();
    if raw >= 0 {
      BcdFits(raw, 4);
      BcdFits(raw, 8);
    }
  }

  // ---------------------------------------------------------------- the codec

  datatype RegisterCodec = RegisterCodec(
    encoding: Encoding, byteOrder: ByteOrder, wordOrder: WordOrder, fixedScale: Option<FixedScale>)
  {
    predicate Valid() {
      fixedScale.Some? ==> encoding.SupportsScale() && fixedScale.value.Valid()
    }

    function ScaledUp(raw: int): real
      requires Valid()
    {
      if fixedScale.Some? then fixedScale.value.Decode(raw) else raw as real
    }

    function ScaledDown(value: real): int
      requires Valid()
    {
      if fixedScale.Some? then fixedScale.value.Encode(value) else Identity().Encode(value)
    }

    /** The value that the raw bits of a register group stand for. */
    function Interpret(bits: nat): Option<EngineeringValue>
      requires Valid() && bits < Modulus(encoding.Width())
    {
      SmallPowers();
      if encoding.SupportsScale() then
        var raw := RawInteger(encoding, bits);
        if raw.Some? then Some(Fixed(ScaledUp(raw.value))) else None
      else
        if encoding.Float32? then Some(Float32Bits(bits))
        else if encoding.Float64? then Some(Float64Bits(bits))
        else if encoding.Enum16? || encoding.Enum32? then Some(EnumRaw(bits))
        else Some(BitfieldRaw(bits))
    }

    /** The raw bits of a value; None when its kind or range does not suit the encoding. */
    function Represent(value: EngineeringValue): Option<nat>
      requires Valid()
    {
      if encoding.SupportsScale() then
        if value.Fixed? then BitsOfInteger(encoding, ScaledDown(value.decimal)) else None
      else
        match (encoding, value)
        case (Float32, Float32Bits(bits)) => Some(bits)
        case (Float64, Float64Bits(bits)) => Some(bits)
        case (Enum16, EnumRaw(raw)) => UnsignedBits(raw, 0x1_0000)
        case (Enum32, EnumRaw(raw)) => UnsignedBits(raw, 0x1_0000_0000)
        case (Bitfield16, BitfieldRaw(mask)) => UnsignedBits(mask, 0x1_0000)
        case (Bitfield32, BitfieldRaw(mask)) => UnsignedBits(mask, 0x1_0000_0000)
        case (Bitfield64, BitfieldRaw(mask)) => Some(mask)
        case _ => None
    }

    predicate KindSuits(value: EngineeringValue) {
      if encoding.SupportsScale() then value.Fixed?
      else match encoding
        case Float32 => value.Float32Bits?
        case Float64 => value.Float64Bits?
        case Enum16 => value.EnumRaw?
        case Enum32 => value.EnumRaw?
        case _ => value.BitfieldRaw?
    }

    function BitsIn(registers: seq<Word>): nat {
      RawBits(registers, byteOrder, wordOrder)
    }

    function Decoded(registers: seq<Word>): Option<EngineeringValue>
      requires Valid()
    {
      if |registers| != encoding.Width() then None
      else
        RawBitsFit(registers, byteOrder, wordOrder);
        Interpret(BitsIn(registers))
    }

    function Encoded(value: EngineeringValue): Option<seq<Word>>
      requires Valid()
    {
      var bits := Represent(value);
      if bits.Some? then Some(Words(bits.value, encoding.Width(), byteOrder, wordOrder)) else None
    }

    method Decode(registers: seq<Word>) returns (decoded: Coded<EngineeringValue>)
      requires Valid()
      ensures decoded.Success? <==> Decoded(registers).Some?
      ensures decoded.Success? ==> decoded.value == Decoded(registers).value
      ensures decoded.Failure? && decoded.error.RegisterWidth? <==> |registers| != encoding.Width()
      ensures decoded.Failure? && |registers| == encoding.Width() ==>
                decoded.error.InvalidBcdDigit? && (encoding.Bcd16? || encoding.Bcd32?)
    {
      if |registers| != encoding.Width() {
        return Failure(RegisterWidth(encoding.Width(), |registers|));
      }
      var bits := WordsToBits(registers, byteOrder, wordOrder);
      RawBitsFit(registers, byteOrder, wordOrder);
      SmallPowers();
      SmallBcd();
      if encoding.Bcd16? || encoding.Bcd32? {
        var decimal := DecodeBcd(bits, if encoding.Bcd16? then 4 else 8);
        if decimal.Failure? {
          return Failure(decimal.error);
        }
        return Success(Fixed(ScaledUp(decimal.value)));
      }
      match encoding
      case Unsigned16 => return Success(Fixed(ScaledUp(bits)));
      case Unsigned32 => return Success(Fixed(ScaledUp(bits)));
      case Unsigned64 => return Success(Fixed(ScaledUp(bits)));
      case Signed16 => return Success(Fixed(ScaledUp(AsSigned(bits, 0x1_0000))));
      case Signed32 => return Success(Fixed(ScaledUp(AsSigned(bits, 0x1_0000_0000))));
      case Signed64 => return Success(Fixed(ScaledUp(AsSigned(bits, 0x1_0000_0000_0000_0000))));
      case Float32 => return Success(Float32Bits(bits));
      case Float64 => return Success(Float64Bits(bits));
      case Enum16 => return Success(EnumRaw(bits));
      case Enum32 => return Success(EnumRaw(bits));
      case _ => return Success(BitfieldRaw(bits));
    }

    method Encode(value: EngineeringValue) returns (encoded: Coded<seq<Word>>)
      requires Valid()
      ensures encoded.Success? <==> Encoded(value).Some?
      ensures encoded.Success? ==> encoded.value == Encoded(value).value
      ensures encoded.Failure? ==> encoded.error == if KindSuits(value) then OutOfRange else ValueKindMismatch
    {
      hide RawInteger, FromBcd, ToBcd, FixedScale.Encode;
      var coded: Coded<nat>;
      match (encoding, value) {
        case (Unsigned16, Fixed(decimal)) => coded := CheckedUnsigned(ScaledDown(decimal), 0xFFFF);
        case (Unsigned32, Fixed(decimal)) => coded := CheckedUnsigned(ScaledDown(decimal), 0xFFFF_FFFF);
        case (Unsigned64, Fixed(decimal)) => coded := CheckedUnsigned(ScaledDown(decimal), 0xFFFF_FFFF_FFFF_FFFF);
        case (Signed16, Fixed(decimal)) => coded := CheckedSigned(ScaledDown(decimal), -0x8000, 0x7FFF);
        case (Signed32, Fixed(decimal)) => coded := CheckedSigned(ScaledDown(decimal), -0x8000_0000, 0x7FFF_FFFF);
        case (Signed64, Fixed(decimal)) =>
          coded := CheckedSigned(ScaledDown(decimal), -0x8000_0000_0000_0000, 0x7FFF_FFFF_FFFF_FFFF);
        case (Float32, Float32Bits(bits)) => coded := Success(bits);
        case (Float64, Float64Bits(bits)) => coded := Success(bits);
        case (Bcd16, Fixed(decimal)) =>
          PackedRange(ScaledDown(decimal), 4);
          coded := EncodeBcd(ScaledDown(decimal), 4);
        case (Bcd32, Fixed(decimal)) =>
          PackedRange(ScaledDown(decimal), 8);
          coded := EncodeBcd(ScaledDown(decimal), 8);
        case (Enum16, EnumRaw(raw)) => coded := CheckedUnsigned(raw, 0xFFFF);
        case (Enum32, EnumRaw(raw)) => coded := CheckedUnsigned(raw, 0xFFFF_FFFF);
        case (Bitfield16, BitfieldRaw(mask)) => coded := CheckedUnsigned(mask, 0xFFFF);
        case (Bitfield32, BitfieldRaw(mask)) => coded := CheckedUnsigned(mask, 0xFFFF_FFFF);
        case (Bitfield64, BitfieldRaw(mask)) => coded := Success(mask);
        case _ => return Failure(ValueKindMismatch);
      }
      if coded.Failure? {
        return Failure(coded.error);
      }
      RepresentFits(this, value);
      SmallPowers();
      PowerGrows(encoding.Width(), 4);
      var words := BitsToWords(coded.value, encoding.Width(), byteOrder, wordOrder);
      return Success(words);
    }
  }

  /** The checked cast to an unsigned integer of at most `max`. */
  method CheckedUnsigned(raw: int, max: U64) returns (coded: Coded<nat>)
    ensures coded.Success? <==> UnsignedBits(raw, max + 1).Some?
    ensures coded.Success? ==> coded.value == UnsignedBits(raw, max + 1).value
    ensures coded.Failure? ==> coded.error == OutOfRange
  {
    if raw < 0 || raw > max {
      return Failure(OutOfRange);
    }
    return Success(raw);
  }

  /** The checked cast to a signed integer between `min` and `max`, reinterpreted as unsigned bits. */
  method CheckedSigned(raw: int, min: int, max: int) returns (coded: Coded<nat>)
    requires min == -max - 1 && max > 0
    ensures coded.Success? <==> SignedBits(raw, 2 * max + 2).Some?
    ensures coded.Success? ==> coded.value == SignedBits(raw, 2 * max + 2).value
    ensures coded.Failure? ==> coded.error == OutOfRange
  {
    if raw < min || raw > max {
      return Failure(OutOfRange);
    }
    return Success(AsUnsigned(raw, max - min + 1));
  }

  /** No value beyond 64 bits has that few decimal digits. */
  lemma PackedRange(raw: int, digits: nat)
    requires digits == 4 || digits == 8
    ensures raw >= 0 && ToBcd(raw, digits).Some? ==> raw <= U64_MAX
  {
    SmallBcd();
    if raw >= 0 {
      BcdFits(raw, digits);
    }
  }

  function NewCodec(encoding: Encoding, byteOrder: ByteOrder, wordOrder: WordOrder, fixedScale: Option<FixedScale>)
    : (codec: Coded<RegisterCodec>)
    requires fixedScale.Some? ==> fixedScale.value.Valid()
    ensures codec.Success? <==> RegisterCodec(encoding, byteOrder, wordOrder, fixedScale).Valid()
    ensures codec.Success? ==> codec.value == RegisterCodec(encoding, byteOrder, wordOrder, fixedScale)
  {
    if fixedScale.Some? && !encoding.SupportsScale() then Failure(UnexpectedScale)
    else Success(RegisterCodec(encoding, byteOrder, wordOrder, fixedScale))
  }

  lemma RepresentFits(codec: RegisterCodec, value: EngineeringValue)
    requires codec.Valid() && codec.Represent(value).Some?
    ensures codec.Represent(value).value < Modulus(codec.encoding.Width())
  {
    SmallPowers();
    if codec.encoding.SupportsScale() {
      IntegerDecodes(codec.encoding, codec.ScaledDown(value.decimal));
    }
  }

  /** Whether the engineering value of a raw integer scales back to the same integer. */
  ghost predicate RawReturns(codec: RegisterCodec, raw: int)
    requires codec.Valid()
  {
    codec.ScaledDown(codec.ScaledUp(raw)) == raw
  }

  lemma UnscaledReturns(codec: RegisterCodec, raw: int)
    requires codec.Valid() && (codec.fixedScale.Some? ==> codec.fixedScale.value.Reversible())
    ensures RawReturns(codec, raw)
  {
    if codec.fixedScale.None? {
      RoundingKeepsIntegers(raw, MidpointNearestEven);
    }
  }

  /** What decodes encodes back to the same words exactly when the scale, if there is one, gives the raw
      integer in these words back. */
  lemma DecodedWordsEncodeBack(codec: RegisterCodec, registers: seq<Word>)
    requires codec.Valid() && codec.Decoded(registers).Some?
    ensures codec.fixedScale.Some? ==> RawInteger(codec.encoding, codec.BitsIn(registers)).Some?
    ensures codec.Encoded(codec.Decoded(registers).value) == Some(registers) <==>
            (codec.fixedScale.Some? ==> RawReturns(codec, RawInteger(codec.encoding, codec.BitsIn(registers)).value))
  {
    hide RawInteger, BitsOfInteger, RawReturns;
    var bits := codec.BitsIn(registers);
    RawBitsFit(registers, codec.byteOrder, codec.wordOrder);
    SmallPowers();
    WordsOfRawBits(registers, codec.byteOrder, codec.wordOrder);
    if codec.encoding.SupportsScale() {
      IntegerReturns(codec, bits);
      if codec.fixedScale.None? {
        UnscaledReturns(codec, RawInteger(codec.encoding, bits).value);
      }
      SameWordsSameBits(codec, codec.Decoded(registers).value, registers);
    } else {
      assert codec.Represent(codec.Decoded(registers).value) == Some(bits);
    }
  }

  /** The scaled integer has the bits it came from exactly if it is the integer it came from. */
  lemma IntegerReturns(codec: RegisterCodec, bits: nat)
    requires codec.Valid() && codec.encoding.SupportsScale() && bits < Modulus(codec.encoding.Width())
    requires RawInteger(codec.encoding, bits).Some?
    ensures var raw := RawInteger(codec.encoding, bits).value;
            BitsOfInteger(codec.encoding, codec.ScaledDown(codec.ScaledUp(raw))) == Some(bits) <==> RawReturns(codec, raw)
  {
    hide RawInteger, BitsOfInteger;
    IntegerEncodes(codec.encoding, bits);
    var back := codec.ScaledDown(codec.ScaledUp(RawInteger(codec.encoding, bits).value));
    if BitsOfInteger(codec.encoding, back) == Some(bits) {
      IntegerDecodes(codec.encoding, back);
    }
  }

  /** A value encodes to given words exactly if it has their bits. */
  lemma SameWordsSameBits(codec: RegisterCodec, value: EngineeringValue, registers: seq<Word>)
    requires codec.Valid() && |registers| == codec.encoding.Width()
    ensures codec.Encoded(value) == Some(registers) <==> codec.Represent(value) == Some(codec.BitsIn(registers))
  {
    WordsOfRawBits(registers, codec.byteOrder, codec.wordOrder);
    if codec.Represent(value).Some? {
      RepresentFits(codec, value);
      RawBitsOfWords(codec.Represent(value).value, codec.encoding.Width(), codec.byteOrder, codec.wordOrder);
    }
  }

  /** Every word group that decodes encodes back to itself exactly when the codec has no scale, or one that
      gives back every raw integer the encoding can hold. */
  lemma AllWordsReturnExactlyWhen(codec: RegisterCodec)
    requires codec.Valid()
    ensures (forall registers :: codec.Decoded(registers).Some? ==> codec.Encoded(codec.Decoded(registers).value) == Some(registers))
            <==> (codec.fixedScale.Some? ==> forall raw :: LowestInteger(codec.encoding) <= raw <= HighestInteger(codec.encoding) ==>
                                              RawReturns(codec, raw))
  {
    hide RawReturns, LowestInteger, HighestInteger, RegisterCodec.Decoded, RegisterCodec.Encoded;
    if forall registers :: codec.Decoded(registers).Some? ==> codec.Encoded(codec.Decoded(registers).value) == Some(registers) {
      if codec.fixedScale.Some? {
        forall raw | LowestInteger(codec.encoding) <= raw <= HighestInteger(codec.encoding) ensures RawReturns(codec, raw) {
          var registers := WordsHolding(codec, raw);
          DecodedWordsEncodeBack(codec, registers);
        }
      }
    } else {
      var registers :| codec.Decoded(registers).Some? && codec.Encoded(codec.Decoded(registers).value) != Some(registers);
      DecodedWordsEncodeBack(codec, registers);
      DecodedIsInRange(codec, registers);
    }
  }

  /** Every integer in the range of the encoding is held by some words. */
  lemma WordsHolding(codec: RegisterCodec, raw: int) returns (registers: seq<Word>)
    requires codec.Valid() && codec.encoding.SupportsScale()
    requires LowestInteger(codec.encoding) <= raw <= HighestInteger(codec.encoding)
    ensures codec.Decoded(registers).Some? && RawInteger(codec.encoding, codec.BitsIn(registers)) == Some(raw)
  {
    hide RawInteger, BitsOfInteger, LowestInteger, HighestInteger;
    IntegerRange(codec.encoding, raw);
    IntegerDecodes(codec.encoding, raw);
    var bits := BitsOfInteger(codec.encoding, raw).value;
    registers := Words(bits, codec.encoding.Width(), codec.byteOrder, codec.wordOrder);
    RawBitsOfWords(bits, codec.encoding.Width(), codec.byteOrder, codec.wordOrder);
  }

  lemma DecodedIsInRange(codec: RegisterCodec, registers: seq<Word>)
    requires codec.Valid() && codec.fixedScale.Some? && codec.Decoded(registers).Some?
    ensures RawInteger(codec.encoding, codec.BitsIn(registers)).Some?
    ensures LowestInteger(codec.encoding) <= RawInteger(codec.encoding, codec.BitsIn(registers)).value <= HighestInteger(codec.encoding)
  {
    hide RawInteger, BitsOfInteger, LowestInteger, HighestInteger;
    RawBitsFit(registers, codec.byteOrder, codec.wordOrder);
    IntegerEncodes(codec.encoding, codec.BitsIn(registers));
    IntegerRange(codec.encoding, RawInteger(codec.encoding, codec.BitsIn(registers)).value);
  }

  /** A codec without a scale can always be made, and never changes the words it decodes. */
  lemma UnscaledCodecsReturnWords(encoding: Encoding, byteOrder: ByteOrder, wordOrder: WordOrder, registers: seq<Word>)
    ensures var codec := NewCodec(encoding, byteOrder, wordOrder, None);
            codec.Success? && codec.value.Valid()
            && (codec.value.Decoded(registers).Some? ==> codec.value.Encoded(codec.value.Decoded(registers).value) == Some(registers))
  {
    var codec := RegisterCodec(encoding, byteOrder, wordOrder, None);
    if codec.Decoded(registers).Some? {
      DecodedWordsEncodeBack(codec, registers);
    }
  }

  /** A scale that gives every raw integer back gives every word group back. */
  lemma ReversibleScalesReturnWords(codec: RegisterCodec, registers: seq<Word>)
    requires codec.Valid() && codec.fixedScale.Some? && codec.fixedScale.value.Reversible() && codec.Decoded(registers).Some?
    ensures codec.Encoded(codec.Decoded(registers).value) == Some(registers)
  {
    hide RawInteger, FixedScale.Decode, FixedScale.Encode;
    DecodedWordsEncodeBack(codec, registers);
    UnscaledReturns(codec, RawInteger(codec.encoding, codec.BitsIn(registers)).value);
  }

  /** What encodes decodes back to the same value exactly when it is not a fixed-point value with a
      fraction, which an unscaled encoding rounds away. */
  lemma EncodedValuesDecodeBack(codec: RegisterCodec, value: EngineeringValue)
    requires codec.Valid() && codec.fixedScale.None? && codec.Encoded(value).Some?
    ensures codec.Decoded(codec.Encoded(value).value) == Some(value) <==> (value.Fixed? ==> Integral(value.decimal))
  {
    hide RawInteger, BitsOfInteger;
    var bits := codec.Represent(value).value;
    RepresentFits(codec, value);
    SmallPowers();
    RawBitsOfWords(bits, codec.encoding.Width(), codec.byteOrder, codec.wordOrder);
    if codec.encoding.SupportsScale() {
      IntegerDecodes(codec.encoding, codec.ScaledDown(value.decimal));
      UnscaledEncode(value.decimal);
    }
  }

  /** One half is lost: an unsigned 16-bit codec encodes it as zero. */
  lemma HalfIsLost()
    ensures var codec := RegisterCodec(Unsigned16, BigEndian, MostSignificantFirst, None);
            && codec.Valid()
            && codec.Encoded(Fixed(0.5)) == Some([0])
            && codec.Decoded([0]) == Some(Fixed(0.0))
  {
    var codec := RegisterCodec(Unsigned16, BigEndian, MostSignificantFirst, None);
    assert codec.ScaledDown(0.5) == 0;
    assert codec.Represent(Fixed(0.5)) == Some(0);
    SmallPowers();
    RawBitsOfWords(0, 1, BigEndian, MostSignificantFirst);
    WordsOfRawBits([0], BigEndian, MostSignificantFirst);
    assert Words(0, 1, BigEndian, MostSignificantFirst) == [0];
  }

  lemma UnscaledEncode(x: real)
    ensures Identity().Encode(x) as real == x <==> Integral(x)
  {
    RoundingIsClose(x, MidpointNearestEven);
  }

  /** A value can be encoded exactly when its kind suits the encoding and its number is in range. */
  lemma EncodableExactlyWhen(codec: RegisterCodec, value: EngineeringValue)
    requires codec.Valid()
    ensures codec.Encoded(value).Some? <==>
            && codec.KindSuits(value)
            && (value.Fixed? ==> LowestInteger(codec.encoding) <= codec.ScaledDown(value.decimal) <= HighestInteger(codec.encoding))
            && (value.EnumRaw? ==> 0 <= value.enumRaw < Modulus(codec.encoding.Width()))
            && (value.BitfieldRaw? ==> value.mask < Modulus(codec.encoding.Width()))
  {
    hide BitsOfInteger;
    SmallPowers();
    if codec.encoding.SupportsScale() && value.Fixed? {
      IntegerRange(codec.encoding, codec.ScaledDown(value.decimal));
    }
  }
}
