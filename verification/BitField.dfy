/**
 BITFIELD (bitops.c): integers of any width up to 64 bits at any bit offset,
 read and written bit by bit, and the detection of overflows with 64-bit
 arithmetic that itself wraps around.
 */
module BitField {
  import opened Counting
  import opened Options
  import opened Bitmaps
  import opened BitStrings

  // ------------------------------------------------------------------
  // Two's complement
  // ------------------------------------------------------------------

  /** An unsigned number of some width as a signed one. */
  function ToSigned(u: nat, bits: nat): int
    requires bits > 0
  {
    if u < Pow2(bits - 1) then u else u - Pow2(bits)
  }

  predicate FitsSigned(v: int, bits: nat)
    requires bits > 0
  {
    0 - Pow2(bits - 1) <= v < Pow2(bits - 1)
  }

  predicate FitsUnsigned(v: int, bits: nat) {
    0 <= v < Pow2(bits)
  }

  /** The cast to uint64_t, and to int64_t. */
  function U64(v: int): (u: nat)
    ensures u < Pow2(64)
  {
    v % Pow2(64)
  }

  function S64(v: int): (s: int)
    ensures FitsSigned(s, 64)
  {
    ToSigned(U64(v), 64)
  }

  /** The number of some width congruent to `v`. */
  function WrapUnsigned(v: int, bits: nat): (u: nat)
    ensures FitsUnsigned(u, bits)
  {
    v % Pow2(bits)
  }

  function WrapSigned(v: int, bits: nat): (s: int)
    requires bits > 0
    ensures FitsSigned(s, bits)
  {
    ToSigned(WrapUnsigned(v, bits), bits)
  }

  lemma Modulo(v: int, d: nat, q: int, r: nat)
    requires d > 0 && v == q * d + r && r < d
    ensures v % d == r
  {
    var q2 := v / d;
    assert v == q2 * d + v % d;
    FarInt(q, q2, d);
    FarInt(q2, q, d);
  }

  lemma FarInt(q: int, p: int, d: nat)
    ensures p < q ==> q * d >= p * d + d
  {
    if p < q {
      Far(q - p, 0, d);
      assert (q - p) * d == q * d - p * d;
    }
  }

  /** A value that fits is its own wrapped form. */
  lemma WrapFits(v: int, bits: nat)
    requires bits > 0
    ensures FitsUnsigned(v, bits) ==> WrapUnsigned(v, bits) == v
    ensures FitsSigned(v, bits) ==> WrapSigned(v, bits) == v
  {
    if FitsUnsigned(v, bits) {
      Modulo(v, Pow2(bits), 0, v);
    }
    if FitsSigned(v, bits) && v < 0 {
      Modulo(v, Pow2(bits), -1, v + Pow2(bits));
    } else if FitsSigned(v, bits) {
      Modulo(v, Pow2(bits), 0, v);
    }
  }

  lemma Regroup(q: int, q2: int, d: nat, e: nat, r: int)
    ensures q * (d * e) + (q2 * d + r) == (q * e + q2) * d + r
  {
    assert q * (d * e) == (q * e) * d;
    assert (q * e) * d + q2 * d == (q * e + q2) * d;
  }

  lemma Nested(v: int, d: nat, e: nat)
    requires d > 0 && e > 0 && d * e > 0
    ensures v % (d * e) % d == v % d
  {
    var q, u := v / (d * e), v % (d * e);
    var q2, r := u / d, u % d;
    assert v == q * (d * e) + u;
    assert u == q2 * d + r;
    Regroup(q, q2, d, e, r);
    Modulo(v, d, q * e + q2, r);
  }

  /** Going through 64 bits loses nothing that is kept. */
  lemma ThroughU64(v: int, bits: nat)
    requires bits <= 64
    ensures U64(v) % Pow2(bits) == v % Pow2(bits)
  {
    Pow2Add(bits, 64 - bits);
    Nested(v, Pow2(bits), Pow2(64 - bits));
  }

  lemma {:induction false} Pow2Grows(m: nat, n: nat)
    requires m <= n
    ensures Pow2(m) <= Pow2(n)
    decreases n - m
  {
    if m < n {
      Pow2Grows(m, n - 1);
    }
  }

  // ------------------------------------------------------------------
  // Reading and writing
  // ------------------------------------------------------------------

  /** The unsigned number in a field of the zero-padded string. */
  function Unsigned(s: seq<bv8>, offset: nat, bits: nat): (v: nat)
    ensures v < Pow2(bits)
  {
    Value(Bits(s, offset, bits))
  }

  function Signed(s: seq<bv8>, offset: nat, bits: nat): (v: int)
    requires bits > 0
    ensures FitsSigned(v, bits)
  {
    ToSigned(Unsigned(s, offset, bits), bits)
  }

  /** The string after a field has been given a value: nothing else changes. */
  ghost predicate Written(before: seq<bv8>, after: seq<bv8>, offset: nat, bits: nat, v: nat) {
    && |after| == |before|
    && (forall p | 0 <= p < 8 * |after| && (p < offset || p >= offset + bits) ::
       StringBit(after, p) == StringBit(before, p))
    && (forall p | offset <= p < offset + bits && p < 8 * |after| ::
       StringBit(after, p) == BitOf(v, offset + bits - 1 - p))
  }

  /** The byte arithmetic of one turn of setUnsignedBitfield. */
  function PutByte(b: bv8, k: nat, on: bool): bv8
    requires k < 8
  {
    if on then WithBit(WithoutBit(b, k), k) else WithoutBit(b, k)
  }

  lemma PutBit(b: bv8, k: nat, on: bool, i: nat)
    requires k < 8 && i < 8
    ensures ByteBit(PutByte(b, k, on), i) == if i == k then on else ByteBit(b, i)
  {
    hide ByteBit, WithBit, WithoutBit;
    ByteBitClear(b, k, i);
    ByteBitSet(WithoutBit(b, k), k, i);
  }

  lemma PutInString(s: seq<bv8>, pos: nat, on: bool)
    requires pos < 8 * |s|
    ensures var next := s[pos / 8 := PutByte(s[pos / 8], 7 - pos % 8, on)];
            forall p | 0 <= p < 8 * |s| :: StringBit(next, p) == if p == pos then on else StringBit(s, p)
  {
    forall i | 0 <= i < 8
      ensures ByteBit(PutByte(s[pos / 8], 7 - pos % 8, on), i)
              == if i == 7 - pos % 8 then on else ByteBit(s[pos / 8], i)
    {
      PutBit(s[pos / 8], 7 - pos % 8, on, i);
    }
    hide ByteBit, PutByte;
    var next := s[pos / 8 := PutByte(s[pos / 8], 7 - pos % 8, on)];
    forall p | 0 <= p < 8 * |s| ensures StringBit(next, p) == if p == pos then on else StringBit(s, p) {
      assert p / 8 == pos / 8 && 7 - p % 8 == 7 - pos % 8 ==> p == pos;
    }
  }

  method PutOne(p: array<bv8>, pos: nat, on: bool)
    requires pos < 8 * p.Length
    modifies p
    ensures forall i | 0 <= i < 8 * p.Length :: StringBit(p[..], i) == if i == pos then on else old(StringBit(p[..], i))
  {
    hide StringBit, PutByte;
    var byte, bit := pos / 8, 7 - pos % 8;
    PutInString(p[..], pos, on);
    ghost var next := p[..][byte := PutByte(p[byte], bit, on)];
    p[byte] := PutByte(p[byte], bit, on);
    assert p[..] == next;
  }

  /** setUnsignedBitfield */
  method SetUnsignedBitfield(p: array<bv8>, offset: nat, bits: nat, value: nat)
    requires offset + bits <= 8 * p.Length
    modifies p
    ensures Written(old(p[..]), p[..], offset, bits, value)
  {
    hide StringBit, BitOf;
    for j := 0 to bits
      invariant forall i | 0 <= i < 8 * p.Length ::
          StringBit(p[..], i)
          == if offset <= i < offset + j then BitOf(value, offset + bits - 1 - i) else old(StringBit(p[..], i))
    {
      PutOne(p, offset + j, BitOf(value, bits - 1 - j));
    }
  }

  /** A field that was written reads as the value modulo its width. */
  lemma ReadsBack(before: seq<bv8>, after: seq<bv8>, offset: nat, bits: nat, v: nat)
    requires Written(before, after, offset, bits, v) && offset + bits <= 8 * |after|
    ensures Unsigned(after, offset, bits) == v % Pow2(bits)
  {
    hide StringBit, BitOf, Value;
    forall j | 0 <= j < bits ensures Bits(after, offset, bits)[j] == BitsOf(v, bits)[j] {
      var p := offset + j;
      BitsOfAt(v, bits, j);
      assert StringBit(after, p) == BitOf(v, offset + bits - 1 - p);
      assert Bits(after, offset, bits)[j] == PaddedBit(after, p);
    }
    assert Bits(after, offset, bits) == BitsOf(v, bits);
    ValueOfBits(v, bits);
  }

  /** Every field that does not overlap reads as before. */
  lemma OthersKept(before: seq<bv8>, after: seq<bv8>, offset: nat, bits: nat, v: nat, other: nat, width: nat)
    requires Written(before, after, offset, bits, v) && (other + width <= offset || other >= offset + bits)
    ensures Unsigned(after, other, width) == Unsigned(before, other, width)
  {
    hide StringBit, BitOf;
    forall j | 0 <= j < width ensures Bits(after, other, width)[j] == Bits(before, other, width)[j] {
      var p := other + j;
      assert p < 8 * |after| ==> StringBit(after, p) == StringBit(before, p);
      assert Bits(after, other, width)[j] == PaddedBit(after, p)
             && Bits(before, other, width)[j] == PaddedBit(before, p);
    }
    assert Bits(after, other, width) == Bits(before, other, width);
  }

  /** getUnsignedBitfield */
  method GetUnsignedBitfield(p: array<bv8>, offset: nat, bits: nat) returns (value: nat)
    requires offset + bits <= 8 * p.Length
    ensures value == Unsigned(p[..], offset, bits)
  {
    hide ByteBit, Value;
    value := 0;
    NoBitsYet(p[..], offset);
    for j := 0 to bits
      invariant value == Unsigned(p[..], offset, j)
    {
      var pos := offset + j;
      var byte, bit := pos / 8, 7 - pos % 8;
      var bitval := if ByteBit(p[byte], bit) then 1 else 0;
      NextBit(p[..], offset, j);
      assert PaddedBit(p[..], pos) == ByteBit(p[byte], bit);
      value := value * 2 + bitval;
    }
  }

  lemma NoBitsYet(s: seq<bv8>, offset: nat)
    ensures Unsigned(s, offset, 0) == 0
  {
  }

  lemma NextBit(s: seq<bv8>, offset: nat, j: nat)
    ensures Unsigned(s, offset, j + 1) == 2 * Unsigned(s, offset, j) + if PaddedBit(s, offset + j) then 1 else 0
  {
    hide PaddedBit;
    assert Bits(s, offset, j + 1)[..j] == Bits(s, offset, j);
  }

  /** setSignedBitfield: the cast makes the value unsigned first. */
  method SetSignedBitfield(p: array<bv8>, offset: nat, bits: nat, value: int)
    requires offset + bits <= 8 * p.Length
    modifies p
    ensures Written(old(p[..]), p[..], offset, bits, U64(value))
  {
    SetUnsignedBitfield(p, offset, bits, U64(value));
  }

  lemma TopBit(u: nat, bits: nat)
    requires bits > 0 && u < Pow2(bits)
    ensures BitOf(u, bits - 1) <==> u >= Pow2(bits - 1)
    decreases bits
  {
    if bits > 1 {
      TopBit(u / 2, bits - 1);
    } else {
      assert Pow2(1) == 2 && Pow2(0) == 1;
    }
  }

  /** getSignedBitfield: the top bit is propagated to the higher ones. */
  method GetSignedBitfield(p: array<bv8>, offset: nat, bits: nat) returns (value: int)
    requires 0 < bits <= 64 && offset + bits <= 8 * p.Length
    ensures value == Signed(p[..], offset, bits)
  {
    hide Value, Bits, BitOf;
    var u := GetUnsignedBitfield(p, offset, bits);
    TopBit(u, bits);
    SignExtension(u, bits);
    value := ToSigned(u, 64);
    if bits < 64 && BitOf(u, bits - 1) {
      value := S64(u + (Pow2(64) - Pow2(bits)));
    }
  }

  lemma SignExtension(u: nat, bits: nat)
    requires 0 < bits <= 64 && u < Pow2(bits)
    ensures Pow2(bits) <= Pow2(64)
    ensures bits < 64 && u >= Pow2(bits - 1) ==> S64(u + (Pow2(64) - Pow2(bits))) == ToSigned(u, bits)
    ensures bits < 64 && u < Pow2(bits - 1) ==> ToSigned(u, 64) == ToSigned(u, bits)
  {
    Pow2Grows(bits, 64);
    if bits < 64 {
      Pow2Grows(bits, 63);
      Pow2Grows(bits - 1, 63);
      Modulo(u + (Pow2(64) - Pow2(bits)), Pow2(64), 0, u + (Pow2(64) - Pow2(bits)));
    }
  }

  /** Writing a signed value and reading the field back gives the value wrapped
      to the width: the value itself if it fits. */
  lemma SignedReadsBack(before: seq<bv8>, after: seq<bv8>, offset: nat, bits: nat, v: int)
    requires 0 < bits <= 64 && Written(before, after, offset, bits, U64(v)) && offset + bits <= 8 * |after|
    ensures Signed(after, offset, bits) == WrapSigned(v, bits)
    ensures FitsSigned(v, bits) ==> Signed(after, offset, bits) == v
  {
    ReadsBack(before, after, offset, bits, U64(v));
    ThroughU64(v, bits);
    WrapFits(v, bits);
  }

  // ------------------------------------------------------------------
  // Overflow
  // ------------------------------------------------------------------

  datatype Overflow = Wrap | Sat | Fail

  lemma S64Fits(v: int)
    ensures FitsSigned(v, 64) ==> S64(v) == v
    ensures Pow2(63) <= v < Pow2(64) ==> S64(v) == v - Pow2(64)
  {
    WrapFits(v, 64);
    if Pow2(63) <= v < Pow2(64) {
      Modulo(v, Pow2(64), 0, v);
    }
  }

  /** What the tests of checkUnsignedBitfieldOverflow find out for a value in
      range. */
  lemma UnsignedTests(value: nat, incr: int, bits: nat)
    requires 0 < bits <= 63 && FitsSigned(incr, 64)
    ensures value < Pow2(bits) ==>
              var maxincr, minincr := S64(Pow2(bits) - 1 - value), S64(0 - value);
              && (incr > 0 && incr > maxincr <==> value + incr >= Pow2(bits))
              && (incr < 0 && incr < minincr <==> value + incr < 0)
  {
    hide Pow2, S64;
    Pow2Grows(bits, 63);
    S64Fits(Pow2(bits) - 1 - value);
    S64Fits(0 - value);
  }

  /** checkUnsignedBitfieldOverflow.  A value out of range to start with, which
      only SET can pass, counts as an overflow whatever its sign was before the
      cast. */
  method CheckUnsignedBitfieldOverflow(value: nat, incr: int, bits: nat, owtype: Overflow) returns (r: int, limit: nat)
    requires 0 < bits <= 63 && value < Pow2(64) && FitsSigned(incr, 64)
    ensures value < Pow2(bits) ==> (r == 0 <==> FitsUnsigned(value + incr, bits))
    ensures value < Pow2(bits) && r != 0 && owtype == Sat ==> limit == if value + incr < 0 then 0 else Pow2(bits) - 1
    ensures value >= Pow2(bits) ==> r == 1 && (owtype == Sat ==> limit == Pow2(bits) - 1)
    ensures r != 0 && owtype == Wrap ==> limit == WrapUnsigned(value + incr, bits)
  {
    hide Pow2, S64, U64;
    UnsignedTests(value, incr, bits);
    ThroughU64(value + incr, bits);
    var max := Pow2(bits) - 1;
    var maxincr, minincr := S64(max - value), S64(0 - value);
    limit := 0;
    if value > max || (incr > 0 && incr > maxincr) {
      if owtype == Wrap {
        limit := U64(value + incr) % Pow2(bits);
      } else if owtype == Sat {
        limit := max;
      }
      return 1, limit;
    } else if incr < 0 && incr < minincr {
      if owtype == Wrap {
        limit := U64(value + incr) % Pow2(bits);
        return 1, limit;
      }
      return -1, limit;
    }
    r := 0;
  }

  lemma TopBitOfLow(c: nat, bits: nat)
    requires bits > 0
    ensures BitOf(c, bits - 1) <==> c % Pow2(bits) >= Pow2(bits - 1)
  {
    hide BitOf;
    ValueOfBits(c, bits);
    BitsOfAt(c, bits, 0);
    ValueBit(BitsOf(c, bits), 0);
    TopBit(c % Pow2(bits), bits);
  }

  /** The wrapping branch of checkSignedBitfieldOverflow: an unsigned addition,
      and the sign bit propagated or the high bits cleared. */
  method HandleWrap(value: int, incr: int, bits: nat) returns (limit: int)
    requires 0 < bits <= 64
    ensures limit == WrapSigned(value + incr, bits)
  {
    var c := U64(value + incr);
    ThroughU64(value + incr, bits);
    TopBitOfLow(c, bits);
    SignExtension(c % Pow2(bits), bits);
    hide BitOf;
    if bits < 64 {
      var low := c % Pow2(bits);
      if BitOf(c, bits - 1) {
        return S64(low + (Pow2(64) - Pow2(bits)));
      }
      return ToSigned(low, 64);
    }
    limit := ToSigned(c, 64);
  }

  /** What the two tests of checkSignedBitfieldOverflow find out.  `half` is the
      least value above the range, `q` the least above 64 bits, and `maxincr`
      and `minincr` are the differences as computed. */
  lemma SignedTests(value: int, incr: int, narrow: bool, half: int, q: int, maxincr: int, minincr: int)
    requires 0 < half <= q && (if narrow then 2 * half <= q else half == q)
    requires 0 - q <= value < q && 0 - q <= incr < q && (0 - half <= value < half || incr == 0)
    requires maxincr == if half - 1 - value < q then half - 1 - value else half - 1 - value - 2 * q
    requires 0 - half - value >= 0 - q ==> minincr == 0 - half - value
    ensures var above := value > half - 1 || (narrow && incr > maxincr) || (value >= 0 && incr > 0 && incr > maxincr);
            var below := value < 0 - half || (narrow && incr < minincr) || (value < 0 && incr < 0 && incr < minincr);
            && (above <==> value + incr >= half || (narrow && half - 1 - value >= q))
            && (!above ==> (below <==> value + incr < 0 - half))
  {
  }

  /** The powers the tests compare with. */
  lemma SignedScale(bits: nat)
    requires 0 < bits <= 64
    ensures 0 < Pow2(bits - 1) <= Pow2(63) && Pow2(64) == 2 * Pow2(63)
    ensures if bits != 64 then 2 * Pow2(bits - 1) <= Pow2(63) else Pow2(bits - 1) == Pow2(63)
  {
    Pow2Grows(bits - 1, 63);
    if bits < 64 {
      Pow2Grows(bits, 63);
    }
  }

  lemma SignedDifferences(value: int, bits: nat)
    requires 0 < bits <= 64 && FitsSigned(value, 64)
    ensures var half, q := Pow2(bits - 1), Pow2(63);
            && S64(half - 1 - value) == (if half - 1 - value < q then half - 1 - value else half - 1 - value - 2 * q)
            && (0 - half - value >= 0 - q ==> S64(0 - half - value) == 0 - half - value)
  {
    hide Pow2, S64;
    SignedScale(bits);
    S64Fits(Pow2(bits - 1) - 1 - value);
    S64Fits(0 - Pow2(bits - 1) - value);
  }

  /** The two tests of checkSignedBitfieldOverflow: 1, -1 or 0 for an overflow,
      an underflow or neither.  The subtractions wrap around. */
  method SignedOverflow(value: int, incr: int, bits: nat) returns (r: int)
    requires 0 < bits <= 64 && FitsSigned(value, 64) && FitsSigned(incr, 64)
    requires FitsSigned(value, bits) || incr == 0
    ensures r == 0 <==> FitsSigned(value + incr, bits)
    ensures r == 1 <==> value + incr >= Pow2(bits - 1) || (bits < 64 && Pow2(bits - 1) - 1 - value >= Pow2(63))
    ensures r == 0 || r == 1 || r == -1
  {
    hide Pow2, S64;
    SignedScale(bits);
    SignedDifferences(value, bits);
    var max := Pow2(bits - 1) - 1;
    var min := 0 - max - 1;
    var maxincr, minincr := S64(max - value), S64(min - value);
    SignedTests(value, incr, bits != 64, Pow2(bits - 1), Pow2(63), maxincr, minincr);
    if value > max || (bits != 64 && incr > maxincr) || (value >= 0 && incr > 0 && incr > maxincr) {
      return 1;
    } else if value < min || (bits != 64 && incr < minincr) || (value < 0 && incr < 0 && incr < minincr) {
      return -1;
    }
    r := 0;
  }

  /** checkSignedBitfieldOverflow.  INCRBY passes a value in range; SET passes
      any value and no increment. */
  method CheckSignedBitfieldOverflow(value: int, incr: int, bits: nat, owtype: Overflow) returns (r: int, limit: int)
    requires 0 < bits <= 64 && FitsSigned(value, 64) && FitsSigned(incr, 64)
    requires FitsSigned(value, bits) || incr == 0
    ensures r == 0 <==> FitsSigned(value + incr, bits)
    ensures r != 0 && owtype == Wrap ==> limit == WrapSigned(value + incr, bits)
    ensures r != 0 && owtype == Sat ==>
              limit == if value + incr >= Pow2(bits - 1) || (bits < 64 && Pow2(bits - 1) - 1 - value >= Pow2(63))
                       then Pow2(bits - 1) - 1 else 0 - Pow2(bits - 1)
  {
    hide Pow2, WrapSigned, FitsSigned;
    r := SignedOverflow(value, incr, bits);
    limit := 0;
    if r != 0 && owtype == Wrap {
      limit := HandleWrap(value, incr, bits);
      return 1, limit;
    }
    if owtype == Sat {
      limit := if r == 1 then Pow2(bits - 1) - 1 else 0 - Pow2(bits - 1);
    }
  }

  // ------------------------------------------------------------------
  // The operations of BITFIELD
  // ------------------------------------------------------------------

  /** SET or INCRBY: `arg` is the value or the increment. */
  datatype WriteOp = WriteOp(incrby: bool, signed: bool, bits: nat, offset: nat, arg: int, owtype: Overflow)

  /** What getBitfieldTypeFromArgument lets through. */
  predicate ValidOp(op: WriteOp) {
    0 < op.bits <= (if op.signed then 64 else 63) && FitsSigned(op.arg, 64)
  }

  function Held(s: seq<bv8>, signed: bool, offset: nat, bits: nat): int
    requires bits > 0
  {
    if signed then Signed(s, offset, bits) else Unsigned(s, offset, bits)
  }

  function Max(op: WriteOp): int
    requires op.bits > 0
  {
    if op.signed then Pow2(op.bits - 1) - 1 else Pow2(op.bits) - 1
  }

  function Min(op: WriteOp): int
    requires op.bits > 0
  {
    if op.signed then 0 - Pow2(op.bits - 1) else 0
  }

  function Target(op: WriteOp, held: int): int {
    if op.incrby then held + op.arg else op.arg
  }

  /** The value an operation should leave: the exact one if it fits, or else the
      wrapped or the nearest one, or none. */
  function Ideal(op: WriteOp, held: int): Option<int>
    requires op.bits > 0
  {
    var v := Target(op, held);
    if Min(op) <= v <= Max(op) then Some(v)
    else match op.owtype
      case Wrap => Some(if op.signed then WrapSigned(v, op.bits) else WrapUnsigned(v, op.bits))
      case Sat => Some(if v < Min(op) then Min(op) else Max(op))
      case Fail => None
  }

  /** Where SET saturates at the wrong end: a negative value for an unsigned
      field, and one so negative that its distance to the maximum wraps around
      for a signed one. */
  predicate WrongEnd(op: WriteOp)
    requires op.bits > 0
  {
    !op.incrby && op.owtype == Sat &&
    if op.signed then op.bits < 64 && Max(op) - op.arg >= Pow2(63) else op.arg < 0
  }

  /** What an operation leaves when it stores `v`: the field holds it and no
      other bit has changed; the reply of SET is the old value, that of INCRBY
      the new one.  When it stores nothing, nothing has changed and the reply is
      null. */
  ghost predicate Leaves(op: WriteOp, was: seq<bv8>, now: seq<bv8>, reply: Option<int>, v: Option<int>)
    requires op.bits > 0
  {
    match v
    case None => reply == None && now == was
    case Some(x) =>
      && reply == Some(if op.incrby then x else Held(was, op.signed, op.offset, op.bits))
      && Held(now, op.signed, op.offset, op.bits) == x
      && exists u :: Written(was, now, op.offset, op.bits, u)
  }

  /** The value the code stores. */
  function Stored(op: WriteOp, held: int): Option<int>
    requires op.bits > 0
  {
    if WrongEnd(op) then Some(Max(op)) else Ideal(op, held)
  }

  /** At the wrong end another value would have been right. */
  lemma WrongEndDiffers(op: WriteOp, held: int)
    requires ValidOp(op) && WrongEnd(op)
    ensures Ideal(op, held).Some? && Ideal(op, held) != Some(Max(op))
  {
    if op.signed && op.bits < 64 {
      Pow2Grows(op.bits, 63);
    }
    assert Pow2(op.bits) == 2 * Pow2(op.bits - 1);
  }

  /** SET or INCRBY on a string long enough for the field.  It leaves what it
      should on exactly the inputs that do not saturate at the wrong end; on those
      that do it leaves the maximum. */
  method Execute(a: array<bv8>, op: WriteOp) returns (reply: Option<int>)
    requires ValidOp(op) && op.offset + op.bits <= 8 * a.Length
    modifies a
    ensures var was := old(a[..]);
            var ideal := Ideal(op, Held(was, op.signed, op.offset, op.bits));
            && (Leaves(op, was, a[..], reply, ideal) <==> !WrongEnd(op))
            && (WrongEnd(op) ==> Leaves(op, was, a[..], reply, Some(Max(op))))
  {
    ghost var was := a[..];
    if op.signed {
      reply := ExecuteSigned(a, op);
    } else {
      reply := ExecuteUnsigned(a, op);
    }
    hide Written, Held, Ideal, Max;
    if WrongEnd(op) {
      WrongEndDiffers(op, Held(was, op.signed, op.offset, op.bits));
    }
  }

  lemma LeastForByte(op: WriteOp)
    requires op == WriteOp(false, true, 8, 0, 0 - Pow2(63), Sat)
    ensures ValidOp(op) && WrongEnd(op) && Max(op) == 127 && forall held :: Ideal(op, held) == Some(-128)
  {
    assert Pow2(3) == 8;
    assert Pow2(7) == 128;
    Pow2Grows(7, 63);
  }

  /** SET i8 to the least 64-bit integer leaves 127, not -128. */
  method SaturatesWrongly(a: array<bv8>) returns (op: WriteOp)
    requires a.Length > 0
    modifies a
    ensures op == WriteOp(false, true, 8, 0, 0 - Pow2(63), Sat) && ValidOp(op)
    ensures Signed(a[..], 0, 8) == 127 && forall held :: Ideal(op, held) == Some(-128)
  {
    op := WriteOp(false, true, 8, 0, 0 - Pow2(63), Sat);
    LeastForByte(op);
    hide Pow2, Ideal, WrongEnd, ValidOp, Max;
    var _ := Execute(a, op);
  }

  lemma SumFits(held: int, arg: int, bits: nat)
    requires 0 < bits <= 64 && FitsSigned(held, bits) && FitsSigned(arg, 64)
    ensures FitsSigned(held, 64)
  {
    Pow2Grows(bits - 1, 63);
  }

  method ExecuteSigned(a: array<bv8>, op: WriteOp) returns (reply: Option<int>)
    requires ValidOp(op) && op.signed && op.offset + op.bits <= 8 * a.Length
    modifies a
    ensures var held := Signed(old(a[..]), op.offset, op.bits);
            match Stored(op, held)
            case None => reply == None && a[..] == old(a[..])
            case Some(v) =>
              && reply == Some(if op.incrby then v else held)
              && Signed(a[..], op.offset, op.bits) == v
              && Written(old(a[..]), a[..], op.offset, op.bits, U64(v))
  {
    hide Written, Signed, WrapSigned, Stored, Pow2;
    var oldval := GetSignedBitfield(a, op.offset, op.bits);
    SumFits(oldval, op.arg, op.bits);
    var r, wrapped;
    if op.incrby {
      r, wrapped := CheckSignedBitfieldOverflow(oldval, op.arg, op.bits, op.owtype);
    } else {
      r, wrapped := CheckSignedBitfieldOverflow(op.arg, 0, op.bits, op.owtype);
    }
    var newval := if r != 0 then wrapped else if op.incrby then oldval + op.arg else op.arg;
    if r != 0 && op.owtype == Fail {
      SignedRefusal(op, oldval);
      return None;
    }
    ghost var before := a[..];
    assert FitsSigned(newval, op.bits) && Stored(op, oldval) == Some(newval) by {
      SignedOutcome(op, oldval, r, wrapped, newval);
    }
    SetSignedBitfield(a, op.offset, op.bits, newval);
    SignedReadsBack(before, a[..], op.offset, op.bits, newval);
    reply := Some(if op.incrby then newval else oldval);
  }

  lemma SignedRefusal(op: WriteOp, held: int)
    requires ValidOp(op) && op.signed && op.owtype == Fail && !FitsSigned(Target(op, held), op.bits)
    ensures Stored(op, held) == None
  {
    hide Pow2;
  }

  lemma SignedOutcome(op: WriteOp, held: int, r: int, wrapped: int, newval: int)
    requires ValidOp(op) && op.signed && FitsSigned(held, op.bits) && !(r != 0 && op.owtype == Fail)
    requires r == 0 <==> FitsSigned(Target(op, held), op.bits)
    requires r != 0 && op.owtype == Wrap ==> wrapped == WrapSigned(Target(op, held), op.bits)
    requires r != 0 && op.owtype == Sat ==>
               wrapped == if Target(op, held) >= Pow2(op.bits - 1)
                             || (op.bits < 64
                                && Pow2(op.bits - 1) - 1 - (if op.incrby then held else op.arg) >= Pow2(63))
                          then Pow2(op.bits - 1) - 1 else 0 - Pow2(op.bits - 1)
    requires newval == if r != 0 then wrapped else Target(op, held)
    ensures FitsSigned(newval, op.bits) && Stored(op, held) == Some(newval)
  {
    if op.bits < 64 {
      Pow2Grows(op.bits, 63);
      assert Pow2(op.bits) == 2 * Pow2(op.bits - 1);
    }
    hide Pow2, WrapSigned;
  }

  /** The value an unsigned INCRBY goes on with, and whether it overflowed. */
  method NextIncrement(op: WriteOp, oldval: nat) returns (r: int, newval: nat)
    requires ValidOp(op) && !op.signed && op.incrby && oldval < Pow2(op.bits)
    ensures r != 0 && op.owtype == Fail ==> Stored(op, oldval) == None
    ensures !(r != 0 && op.owtype == Fail) ==> FitsUnsigned(newval, op.bits) && Stored(op, oldval) == Some(newval)
  {
    hide Pow2, WrapUnsigned;
    Pow2Grows(op.bits, 64);
    var wrapped;
    r, wrapped := CheckUnsignedBitfieldOverflow(oldval, op.arg, op.bits, op.owtype);
    newval := if r != 0 then wrapped else oldval + op.arg;
    if !(r != 0 && op.owtype == Fail) {
      UnsignedOutcome(op, oldval, r, wrapped, newval);
    }
  }

  /** The same for SET, whose argument is cast first. */
  method NextSet(op: WriteOp, oldval: nat) returns (r: int, newval: nat)
    requires ValidOp(op) && !op.signed && !op.incrby && oldval < Pow2(op.bits)
    ensures r != 0 && op.owtype == Fail ==> Stored(op, oldval) == None
    ensures !(r != 0 && op.owtype == Fail) ==> FitsUnsigned(newval, op.bits) && Stored(op, oldval) == Some(newval)
  {
    hide Pow2, U64, WrapUnsigned;
    CastArg(op);
    ZeroFits();
    var wrapped;
    r, wrapped := CheckUnsignedBitfieldOverflow(U64(op.arg), 0, op.bits, op.owtype);
    newval := if r != 0 then wrapped else U64(op.arg);
    if !(r != 0 && op.owtype == Fail) {
      UnsignedOutcome(op, oldval, r, wrapped, newval);
    }
  }

  lemma ZeroFits()
    ensures FitsSigned(0, 64)
  {
    Pow2Grows(0, 63);
  }

  method ExecuteUnsigned(a: array<bv8>, op: WriteOp) returns (reply: Option<int>)
    requires ValidOp(op) && !op.signed && op.offset + op.bits <= 8 * a.Length
    modifies a
    ensures var held := Unsigned(old(a[..]), op.offset, op.bits);
            match Stored(op, held)
            case None => reply == None && a[..] == old(a[..])
            case Some(v) =>
              && reply == Some(if op.incrby then v else held)
              && Unsigned(a[..], op.offset, op.bits) == v
              && v >= 0 && Written(old(a[..]), a[..], op.offset, op.bits, v)
  {
    hide Written, Unsigned, Stored, Pow2;
    var oldval := GetUnsignedBitfield(a, op.offset, op.bits);
    var r, newval;
    if op.incrby {
      r, newval := NextIncrement(op, oldval);
    } else {
      r, newval := NextSet(op, oldval);
    }
    if r != 0 && op.owtype == Fail {
      return None;
    }
    ghost var before := a[..];
    SetUnsignedBitfield(a, op.offset, op.bits, newval);
    ReadsBack(before, a[..], op.offset, op.bits, newval);
    WrapFits(newval, op.bits);
    reply := Some(if op.incrby then newval else oldval);
  }

  lemma UnsignedOutcome(op: WriteOp, held: nat, r: int, wrapped: nat, newval: int)
    requires ValidOp(op) && !op.signed && held < Pow2(op.bits) && !(r != 0 && op.owtype == Fail)
    requires r == 0 <==> FitsUnsigned(Target(op, held), op.bits)
    requires r != 0 && op.owtype == Wrap ==> wrapped == WrapUnsigned(Target(op, held), op.bits)
    requires r != 0 && op.owtype == Sat ==>
               wrapped == if op.incrby && Target(op, held) < 0 then 0 else Pow2(op.bits) - 1
    requires newval == if r != 0 then wrapped else Target(op, held)
    ensures FitsUnsigned(newval, op.bits) && Stored(op, held) == Some(newval)
  {
    hide Pow2;
  }

  /** The argument of an unsigned SET after the cast. */
  lemma CastArg(op: WriteOp)
    requires ValidOp(op) && !op.signed
    ensures U64(op.arg) < Pow2(op.bits) <==> 0 <= op.arg < Pow2(op.bits)
    ensures 0 <= op.arg ==> U64(op.arg) == op.arg
    ensures op.arg < 0 ==> U64(op.arg) >= Pow2(63) >= Pow2(op.bits)
    ensures WrapUnsigned(U64(op.arg), op.bits) == WrapUnsigned(op.arg, op.bits)
  {
    Pow2Grows(op.bits, 63);
    ThroughU64(op.arg, op.bits);
    if op.arg < 0 {
      Modulo(op.arg, Pow2(64), -1, op.arg + Pow2(64));
    } else {
      Modulo(op.arg, Pow2(64), 0, op.arg);
    }
  }

  // ------------------------------------------------------------------
  // GET
  // ------------------------------------------------------------------

  /** GET: up to nine bytes are copied to a buffer of zeros, from which the
      field is read as if the string went on with zeros for ever. */
  method Get(src: seq<bv8>, signed: bool, offset: nat, bits: nat) returns (v: int)
    requires 0 < bits <= if signed then 64 else 63
    ensures v == Held(src, signed, offset, bits)
  {
    var buf := new bv8[9](_ => 0);
    var byte := offset / 8;
    var i: nat := 0;
    while i < 9 && i + byte < |src|
      invariant i <= 9 && (i + byte <= |src| || i == 0)
      invariant forall k | 0 <= k < i :: buf[k] == src[k + byte]
      invariant forall k | i <= k < 9 :: buf[k] == 0
    {
      buf[i] := src[i + byte];
      i := i + 1;
    }
    BufferReads(src, buf[..], i, offset, bits);
    hide Bits;
    if signed {
      v := GetSignedBitfield(buf, offset - byte * 8, bits);
    } else {
      v := GetUnsignedBitfield(buf, offset - byte * 8, bits);
    }
  }

  lemma BufferReads(src: seq<bv8>, buf: seq<bv8>, n: nat, offset: nat, bits: nat)
    requires |buf| == 9 && bits <= 64 && n <= 9 && (n == 9 || n + offset / 8 >= |src|)
    requires n == 0 || n + offset / 8 <= |src|
    requires forall k | 0 <= k < n :: buf[k] == src[k + offset / 8]
    requires forall k | n <= k < 9 :: buf[k] == 0
    ensures offset % 8 + bits <= 72 && Bits(buf, offset - offset / 8 * 8, bits) == Bits(src, offset, bits)
  {
    hide PaddedBit;
    var byte := offset / 8;
    forall j | 0 <= j < bits ensures Bits(buf, offset - byte * 8, bits)[j] == Bits(src, offset, bits)[j] {
      BufferBit(src, buf, n, byte, offset - byte * 8 + j);
      assert Bits(buf, offset - byte * 8, bits)[j] == PaddedBit(buf, offset - byte * 8 + j);
      assert Bits(src, offset, bits)[j] == PaddedBit(src, offset + j);
    }
  }

  lemma BufferBit(src: seq<bv8>, buf: seq<bv8>, n: nat, byte: nat, p: nat)
    requires |buf| == 9 && p < 72 && n <= 9 && (n == 9 || n + byte >= |src|)
    requires n == 0 || n + byte <= |src|
    requires forall k | 0 <= k < n :: buf[k] == src[k + byte]
    requires forall k | n <= k < 9 :: buf[k] == 0
    ensures PaddedBit(buf, p) == PaddedBit(src, p + 8 * byte)
  {
    var i := p / 8;
    assert (p + 8 * byte) / 8 == i + byte && (p + 8 * byte) % 8 == p % 8;
    ZeroByte(7 - p % 8);
    hide ByteBit;
    if i < n {
      assert buf[i] == src[i + byte];
    } else {
      assert buf[i] == 0;
    }
  }

  lemma ZeroByte(k: nat)
    requires k < 8
    ensures !ByteBit(0, k)
  {
  }
}
