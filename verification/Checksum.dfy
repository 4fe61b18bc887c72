/** The checksum of sections 2.5.1.2 and 6.2.2 of the MODBUS over Serial Line Specification V1.02. */
module Checksums {
  type Bytes = seq<bv8>

  // ---------------------------------------------------------------- the checksum

  const POLYNOMIAL: bv16 := 0xA001

  function Xor(x: bv16, y: bv16): bv16 {
    x ^ y
  }

  function Widen(byte: bv8): bv16 {
    byte as bv16
  }

  function Shift(crc: bv16): bv16 {
    if crc & 1 == 1 then Xor(crc >> 1, POLYNOMIAL) else crc >> 1
  }

  function Shifts(crc: bv16, times: nat): bv16 {
    if times == 0 then crc else Shift(Shifts(crc, times - 1))
  }

  function Absorb(crc: bv16, byte: bv8): bv16 {
    Shifts(Xor(crc, Widen(byte)), 8)
  }

  function AbsorbAll(crc: bv16, bytes: Bytes): bv16 {
    if bytes == [] then crc else Absorb(AbsorbAll(crc, bytes[..|bytes| - 1]), bytes[|bytes| - 1])
  }

  function Crc(bytes: Bytes): bv16 {
    AbsorbAll(0xFFFF, bytes)
  }

  method ModbusCrc(bytes: Bytes) returns (crc: bv16)
    ensures crc == Crc(bytes)
  {
    hide Xor;
    crc := 0xFFFF;
    for i := 0 to |bytes|
      invariant crc == AbsorbAll(0xFFFF, bytes[..i])
    {
      assert bytes[..i + 1][..i] == bytes[..i];
      crc := Xor(crc, Widen(bytes[i]));
      ghost var mixed := crc;
      for k := 0 to 8
        invariant crc == Shifts(mixed, k)
      {
        crc := if crc & 1 == 1 then Xor(crc >> 1, POLYNOMIAL) else crc >> 1;
      }
    }
    assert bytes[..|bytes|] == bytes;
  }

  function Unshift(crc: bv16): bv16 {
    if crc & 0x8000 == 0x8000 then (Xor(crc, POLYNOMIAL) << 1) | 1 else crc << 1
  }

  lemma ShiftUndone(crc: bv16)
    ensures Unshift(Shift(crc)) == crc
  {
  }

  lemma {:induction false} ShiftsInjective(x: bv16, y: bv16, times: nat)
    requires Shifts(x, times) == Shifts(y, times)
    ensures x == y
  {
    hide Shift, Unshift;
    if times > 0 {
      ShiftUndone(Shifts(x, times - 1));
      ShiftUndone(Shifts(y, times - 1));
      ShiftsInjective(x, y, times - 1);
    }
  }

  lemma XorUndone(x: bv16, z: bv16)
    ensures Xor(Xor(x, z), z) == x && Xor(Xor(z, x), z) == x
  {
  }

  lemma WidenInjective(x: bv8, y: bv8)
    requires Widen(x) == Widen(y)
    ensures x == y
  {
  }

  lemma AbsorbInjective(x: bv16, y: bv16, byte: bv8)
    requires Absorb(x, byte) == Absorb(y, byte)
    ensures x == y
  {
    hide Shifts, Xor, Widen;
    var b := Widen(byte);
    ShiftsInjective(Xor(x, b), Xor(y, b), 8);
    XorUndone(x, b);
    XorUndone(y, b);
  }

  lemma {:induction false} AbsorbAllInjective(x: bv16, y: bv16, bytes: Bytes)
    requires AbsorbAll(x, bytes) == AbsorbAll(y, bytes)
    ensures x == y
  {
    hide Absorb;
    if bytes != [] {
      var n := |bytes| - 1;
      AbsorbInjective(AbsorbAll(x, bytes[..n]), AbsorbAll(y, bytes[..n]), bytes[n]);
      AbsorbAllInjective(x, y, bytes[..n]);
    }
  }

  /** A different byte leads to a different state. */
  lemma DifferentByte(crc: bv16, x: bv8, y: bv8)
    requires Absorb(crc, x) == Absorb(crc, y)
    ensures x == y
  {
    hide Shifts, Xor, Widen;
    ShiftsInjective(Xor(crc, Widen(x)), Xor(crc, Widen(y)), 8);
    XorUndone(Widen(x), crc);
    XorUndone(Widen(y), crc);
    WidenInjective(x, y);
  }

  lemma {:induction false} AbsorbInParts(crc: bv16, front: Bytes, back: Bytes)
    ensures AbsorbAll(crc, front + back) == AbsorbAll(AbsorbAll(crc, front), back)
  {
    hide Absorb;
    if back == [] {
      assert front + back == front;
    } else {
      var n := |back| - 1;
      AbsorbInParts(crc, front, back[..n]);
      assert (front + back)[..|front| + n] == front + back[..n];
    }
  }

  lemma AbsorbOne(crc: bv16, byte: bv8)
    ensures AbsorbAll(crc, [byte]) == Absorb(crc, byte)
  {
    hide Absorb;
    assert [byte][..0] == [];
  }

  /** Messages of equal length that differ in exactly one byte never share a checksum. */
  lemma OneByteChangesCrc(front: Bytes, x: bv8, y: bv8, back: Bytes)
    requires x != y
    ensures Crc(front + [x] + back) != Crc(front + [y] + back)
  {
    hide Absorb, AbsorbAll;
    var before := AbsorbAll(0xFFFF, front);
    forall b: bv8 ensures Crc(front + [b] + back) == AbsorbAll(Absorb(before, b), back) {
      AbsorbInParts(0xFFFF, front + [b], back);
      AbsorbInParts(0xFFFF, front, [b]);
      AbsorbOne(before, b);
    }
    if Crc(front + [x] + back) == Crc(front + [y] + back) {
      AbsorbAllInjective(Absorb(before, x), Absorb(before, y), back);
      DifferentByte(before, x, y);
    }
  }

  // ---------------------------------------------------------------- bursts of two bytes

  lemma XorAssociates(x: bv16, y: bv16, z: bv16)
    ensures Xor(Xor(x, y), z) == Xor(x, Xor(y, z))
  {
    assert (x ^ y) ^ z == x ^ (y ^ z);
  }

  lemma XorCommutes(x: bv16, y: bv16)
    ensures Xor(x, y) == Xor(y, x)
  {
  }

  lemma XorSelf(x: bv16)
    ensures Xor(x, x) == 0 && Xor(x, 0) == x
  {
  }

  lemma XorShifted(x: bv16, y: bv16)
    ensures Xor(x, y) >> 1 == Xor(x >> 1, y >> 1)
  {
    RawXorShifted(x, y);
  }

  lemma RawXorShifted(x: bv16, y: bv16)
    ensures (x ^ y) >> 1 == (x >> 1) ^ (y >> 1)
  {
  }

  lemma XorLowBit(x: bv16, y: bv16)
    ensures (Xor(x, y) & 1 == 1) <==> ((x & 1 == 1) != (y & 1 == 1))
  {
  }

  lemma CommonCancels(c: bv16, x: bv16, y: bv16)
    ensures Xor(Xor(c, x), Xor(c, y)) == Xor(x, y)
  {
    hide Xor;
    XorCommutes(c, x);
    XorAssociates(x, c, Xor(c, y));
    XorAssociates(c, c, y);
    XorSelf(c);
    XorCommutes(0, y);
    XorSelf(y);
  }

  lemma XorWithPolynomial(x: bv16, y: bv16)
    ensures Xor(Xor(x, POLYNOMIAL), Xor(y, POLYNOMIAL)) == Xor(x, y)
    ensures Xor(Xor(x, POLYNOMIAL), y) == Xor(Xor(x, y), POLYNOMIAL) == Xor(x, Xor(y, POLYNOMIAL))
  {
    hide Xor;
    XorCommutes(x, POLYNOMIAL);
    XorCommutes(y, POLYNOMIAL);
    CommonCancels(POLYNOMIAL, x, y);
    XorAssociates(x, POLYNOMIAL, y);
    XorAssociates(x, y, POLYNOMIAL);
  }

  lemma ShiftLinear(x: bv16, y: bv16)
    ensures Shift(Xor(x, y)) == Xor(Shift(x), Shift(y))
  {
    hide Xor;
    XorShifted(x, y);
    XorLowBit(x, y);
    XorWithPolynomial(x >> 1, y >> 1);
  }

  lemma {:induction false} ShiftsLinear(x: bv16, y: bv16, times: nat)
    ensures Shifts(Xor(x, y), times) == Xor(Shifts(x, times), Shifts(y, times))
  {
    hide Shift, Xor;
    if times > 0 {
      ShiftsLinear(x, y, times - 1);
      ShiftLinear(Shifts(x, times - 1), Shifts(y, times - 1));
    }
  }

  /** `x` undone `times` shifts. */
  function Unshifts(x: bv16, times: nat): bv16
    decreases times
  {
    if times == 0 then x else Unshifts(Unshift(x), times - 1)
  }

  lemma {:induction false} ShiftsUndone(x: bv16, times: nat)
    ensures Unshifts(Shifts(x, times), times) == x
  {
    hide Shift, Unshift;
    if times > 0 {
      ShiftUndone(Shifts(x, times - 1));
      ShiftsUndone(x, times - 1);
    }
  }

  /** Eight shifts of a non-zero byte reach the upper half of the register. */
  lemma ByteSpreads(x: bv16)
    requires x & 0xFF00 == 0 && Shifts(x, 8) & 0xFF00 == 0
    ensures x == 0
  {
    hide Shifts, Unshift;
    ShiftsUndone(x, 8);
    LowByteUnshifts(Shifts(x, 8));
    LowAndHigh(x, Shifts(x, 8));
  }

  lemma LowAndHigh(x: bv16, y: bv16)
    requires x & 0xFF00 == 0 && x == y << 8
    ensures x == 0
  {
  }

  lemma LowByteUnshifts(y: bv16)
    requires y & 0xFF00 == 0
    ensures Unshifts(y, 8) == y << 8
  {
    hide Unshift;
    UnshiftFree(y);
    assert Unshifts(y, 8) == Unshifts(Unshift(Unshift(y)), 6);
    assert Unshifts(y << 2, 6) == Unshifts(Unshift(Unshift(y << 2)), 4);
    assert Unshifts(y << 4, 4) == Unshifts(Unshift(Unshift(y << 4)), 2);
    assert Unshifts(y << 6, 2) == Unshifts(Unshift(Unshift(y << 6)), 0);
  }

  lemma UnshiftFree(y: bv16)
    requires y & 0xFF00 == 0
    ensures Unshift(Unshift(y)) == y << 2 && Unshift(Unshift(y << 2)) == y << 4
    ensures Unshift(Unshift(y << 4)) == y << 6 && Unshift(Unshift(y << 6)) == y << 8
  {
  }

  /** Two bytes in a row leave the register in different states unless both are equal. */
  lemma DifferentPair(crc: bv16, x0: bv8, x1: bv8, y0: bv8, y1: bv8)
    requires Absorb(Absorb(crc, x0), x1) == Absorb(Absorb(crc, y0), y1)
    ensures x0 == y0 && x1 == y1
  {
    hide Shifts, Xor, Widen;
    var a, b := Absorb(crc, x0), Absorb(crc, y0);
    ShiftsInjective(Xor(a, Widen(x1)), Xor(b, Widen(y1)), 8);
    var u, v := Xor(crc, Widen(x0)), Xor(crc, Widen(y0));
    ShiftsLinear(u, v, 8);
    XorMoves(a, Widen(x1), b, Widen(y1));
    CommonCancels(crc, Widen(x0), Widen(y0));
    WidenedIsLow(x0, y0);
    WidenedIsLow(x1, y1);
    ByteSpreads(Xor(Widen(x0), Widen(y0)));
    XorZero(Widen(x0), Widen(y0));
    WidenInjective(x0, y0);
    DifferentByte(a, x1, y1);
  }

  lemma XorMoves(a: bv16, x: bv16, b: bv16, y: bv16)
    requires Xor(a, x) == Xor(b, y)
    ensures Xor(a, b) == Xor(x, y)
  {
    hide Xor;
    var c := Xor(a, x);
    XorUndone(x, a);
    XorUndone(y, b);
    assert x == Xor(a, c) by { XorCommutes(a, c); XorCommutes(a, x); }
    assert y == Xor(b, c) by { XorCommutes(b, c); XorCommutes(b, y); }
    XorCommutes(a, c);
    XorCommutes(b, c);
    CommonCancels(c, a, b);
  }

  lemma WidenedIsLow(x: bv8, y: bv8)
    ensures Xor(Widen(x), Widen(y)) & 0xFF00 == 0
  {
  }

  lemma XorZero(x: bv16, y: bv16)
    requires Xor(x, y) == 0
    ensures x == y
  {
  }

  /** Neither do messages that differ only within two adjacent bytes. */
  lemma TwoBytesChangeCrc(front: Bytes, x0: bv8, x1: bv8, y0: bv8, y1: bv8, back: Bytes)
    requires x0 != y0 || x1 != y1
    ensures Crc(front + [x0, x1] + back) != Crc(front + [y0, y1] + back)
  {
    hide Absorb, AbsorbAll;
    var before := AbsorbAll(0xFFFF, front);
    AroundPair(front, x0, x1, back);
    AroundPair(front, y0, y1, back);
    if Crc(front + [x0, x1] + back) == Crc(front + [y0, y1] + back) {
      AbsorbAllInjective(Absorb(Absorb(before, x0), x1), Absorb(Absorb(before, y0), y1), back);
      DifferentPair(before, x0, x1, y0, y1);
    }
  }

  lemma AroundPair(front: Bytes, x: bv8, y: bv8, back: Bytes)
    ensures Crc(front + [x, y] + back) == AbsorbAll(Absorb(Absorb(AbsorbAll(0xFFFF, front), x), y), back)
  {
    hide Absorb, AbsorbAll;
    var before := AbsorbAll(0xFFFF, front);
    AbsorbInParts(0xFFFF, front + [x, y], back);
    AbsorbInParts(0xFFFF, front, [x, y]);
    AbsorbInParts(before, [x], [y]);
    assert [x] + [y] == [x, y];
    AbsorbOne(before, x);
    AbsorbOne(Absorb(before, x), y);
  }

  // ---------------------------------------------------------------- residue

  function Low(crc: bv16): bv8 {
    (crc & 0xFF) as bv8
  }

  function High(crc: bv16): bv8 {
    (crc >> 8) as bv8
  }

  /** The two checksum bytes, least significant first. */
  function CrcBytes(bytes: Bytes): (crc: Bytes)
    ensures |crc| == 2
  {
    [Low(Crc(bytes)), High(Crc(bytes))]
  }

  function Sealed(bytes: Bytes): Bytes {
    bytes + CrcBytes(bytes)
  }

  lemma LowCancels(crc: bv16)
    ensures Xor(crc, Widen(Low(crc))) == (crc >> 8) << 8
  {
  }

  lemma HighCancels(crc: bv16)
    ensures Xor(crc >> 8, Widen(High(crc))) == 0
  {
  }

  lemma UpperFalls(y: bv16)
    requires y & 0xFF00 == 0
    ensures Shifts(y << 8, 8) == y
  {
    hide Shifts, Unshift;
    FallingByte(y);
    UnrollShifts(y << 8);
  }

  lemma UnrollShifts(x: bv16)
    ensures Shifts(x, 8) == Shift(Shift(Shift(Shift(Shift(Shift(Shift(Shift(x))))))))
  {
    hide Shift;
    assert Shifts(x, 1) == Shift(x);
    assert Shifts(x, 3) == Shift(Shift(Shifts(x, 1)));
    assert Shifts(x, 5) == Shift(Shift(Shifts(x, 3)));
    assert Shifts(x, 7) == Shift(Shift(Shifts(x, 5)));
  }

  lemma FallingByte(y: bv16)
    requires y & 0xFF00 == 0
    ensures Shift(Shift(Shift(Shift(Shift(Shift(Shift(Shift(y << 8)))))))) == y
  {
  }

  lemma ShiftsOfZero()
    ensures Shifts(0, 8) == 0
  {
    UnrollShifts(0);
  }

  lemma UpperIsByte(crc: bv16)
    ensures (crc >> 8) & 0xFF00 == 0
  {
  }

  /** A frame that ends with its own checksum has checksum zero. */
  lemma SealedHasNoResidue(bytes: Bytes)
    ensures Crc(Sealed(bytes)) == 0
  {
    hide Shifts, Xor, Widen, Low, High, AbsorbAll;
    var crc := Crc(bytes);
    AroundPair(bytes, Low(crc), High(crc), []);
    assert bytes + [Low(crc), High(crc)] + [] == Sealed(bytes);
    LowCancels(crc);
    UpperIsByte(crc);
    UpperFalls(crc >> 8);
    HighCancels(crc);
    ShiftsOfZero();
    AbsorbNothing(Absorb(Absorb(crc, Low(crc)), High(crc)));
  }

  lemma AbsorbNothing(crc: bv16)
    ensures AbsorbAll(crc, []) == crc
  {
  }

  // ---------------------------------------------------------------- reference values

  lemma AbsorbMeans(crc: bv16, byte: bv8)
    ensures Absorb(crc, byte) == Shift(Shift(Shift(Shift(Shift(Shift(Shift(Shift(Xor(crc, Widen(byte))))))))))
  {
    hide Shift, Xor, Widen, Shifts;
    UnrollShifts(Xor(crc, Widen(byte)));
  }

  lemma AbsorbNext(bytes: Bytes, byte: bv8)
    ensures Crc(bytes + [byte]) == Absorb(Crc(bytes), byte)
  {
    hide Absorb;
    assert (bytes + [byte])[..|bytes|] == bytes;
  }

  lemma FirstSteps()
    ensures Absorb(0xFFFF, 0x01) == 0x807E
    ensures Absorb(0x807E, 0x03) == 0x2140
    ensures Absorb(0x2140, 0x00) == 0xF020
  {
    AbsorbMeans(0xFFFF, 0x01);
    AbsorbMeans(0x807E, 0x03);
    AbsorbMeans(0x2140, 0x00);
    hide Absorb, Shifts;
  }

  lemma LastSteps()
    ensures Absorb(0xF020, 0x00) == 0xD8F1
    ensures Absorb(0xD8F1, 0x00) == 0x8419
    ensures Absorb(0x8419, 0x0A) == 0xCDC5
  {
    AbsorbMeans(0xF020, 0x00);
    AbsorbMeans(0xD8F1, 0x00);
    AbsorbMeans(0x8419, 0x0A);
    hide Absorb, Shifts;
  }

  lemma FirstThreeBytes()
    ensures Crc([0x01, 0x03, 0x00]) == 0xF020
  {
    assert Crc([]) == 0xFFFF;
    hide Crc, Absorb;
    FirstSteps();
    AbsorbNext([], 0x01);
    AbsorbNext([0x01], 0x03);
    AbsorbNext([0x01, 0x03], 0x00);
    assert [] + [0x01 as bv8] == [0x01];
    assert [0x01 as bv8] + [0x03] == [0x01, 0x03];
    assert [0x01 as bv8, 0x03] + [0x00] == [0x01, 0x03, 0x00];
  }

  /** The reference vector: reading ten holding registers from slave one. */
  lemma ReferenceChecksum()
    ensures Crc([0x01, 0x03, 0x00, 0x00, 0x00, 0x0A]) == 0xCDC5
  {
    hide Crc, Absorb;
    FirstThreeBytes();
    LastSteps();
    AbsorbNext([0x01, 0x03, 0x00], 0x00);
    AbsorbNext([0x01, 0x03, 0x00, 0x00], 0x00);
    AbsorbNext([0x01, 0x03, 0x00, 0x00, 0x00], 0x0A);
    assert [0x01 as bv8, 0x03, 0x00] + [0x00] == [0x01, 0x03, 0x00, 0x00];
    assert [0x01 as bv8, 0x03, 0x00, 0x00] + [0x00] == [0x01, 0x03, 0x00, 0x00, 0x00];
    assert [0x01 as bv8, 0x03, 0x00, 0x00, 0x00] + [0x0A] == [0x01, 0x03, 0x00, 0x00, 0x00, 0x0A];
  }

  /** On the wire the low byte of the checksum comes first. */
  lemma ReferenceFrame()
    ensures Sealed([0x01, 0x03, 0x00, 0x00, 0x00, 0x0A]) == [0x01, 0x03, 0x00, 0x00, 0x00, 0x0A, 0xC5, 0xCD]
  {
    hide Crc;
    ReferenceChecksum();
    assert Low(0xCDC5) == 0xC5 && High(0xCDC5) == 0xCD;
  }
}
