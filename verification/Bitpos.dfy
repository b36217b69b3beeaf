/**
 redisBitpos and BITPOS (bitops.c): bytes that cannot hold the bit wanted are
 skipped one by one up to a word boundary and then a word at a time, and the
 next eight bytes are scanned bit by bit.
 */
module Bitpos {
  import opened Counting
  import opened Bitmaps
  import opened BitStrings

  /** The byte that holds no bit equal to `bit`. */
  function Skip(bit: bool): bv8 {
    if bit then 0 else 255
  }

  lemma SkipByte(b: bv8, bit: bool)
    ensures b == Skip(bit) <==>
            ByteBit(b, 0) != bit && ByteBit(b, 1) != bit && ByteBit(b, 2) != bit && ByteBit(b, 3) != bit
            && ByteBit(b, 4) != bit && ByteBit(b, 5) != bit && ByteBit(b, 6) != bit && ByteBit(b, 7) != bit
  {
  }

  /** A byte is skipped exactly if none of its bits is wanted. */
  lemma SkippedIff(s: seq<bv8>, i: nat, bit: bool)
    requires i < |s|
    ensures s[i] == Skip(bit) <==> forall p | 8 * i <= p < 8 * i + 8 :: PaddedBit(s, p) != bit
  {
    SkipByte(s[i], bit);
    hide ByteBit;
    forall p | 8 * i <= p < 8 * i + 8 ensures PaddedBit(s, p) == ByteBit(s[i], 7 - (p - 8 * i)) {
      assert p / 8 == i && p % 8 == p - 8 * i;
    }
    assert PaddedBit(s, 8 * i) == ByteBit(s[i], 7) && PaddedBit(s, 8 * i + 1) == ByteBit(s[i], 6)
        && PaddedBit(s, 8 * i + 2) == ByteBit(s[i], 5) && PaddedBit(s, 8 * i + 3) == ByteBit(s[i], 4)
        && PaddedBit(s, 8 * i + 4) == ByteBit(s[i], 3) && PaddedBit(s, 8 * i + 5) == ByteBit(s[i], 2)
        && PaddedBit(s, 8 * i + 6) == ByteBit(s[i], 1) && PaddedBit(s, 8 * i + 7) == ByteBit(s[i], 0);
  }

  /** `bit` occurs nowhere before position `p`. */
  ghost predicate NoneBefore(s: seq<bv8>, bit: bool, p: nat) {
    forall q | 0 <= q < p :: PaddedBit(s, q) != bit
  }

  /** `p` is the least position that holds `bit`. */
  ghost predicate First(s: seq<bv8>, bit: bool, p: nat) {
    PaddedBit(s, p) == bit && NoneBefore(s, bit, p)
  }

  lemma SkipMore(s: seq<bv8>, i: nat, bit: bool)
    requires i < |s| && s[i] == Skip(bit) && NoneBefore(s, bit, 8 * i)
    ensures NoneBefore(s, bit, 8 * i + 8)
  {
    SkippedIff(s, i, bit);
  }

  // ------------------------------------------------------------------
  // The word
  // ------------------------------------------------------------------

  lemma NextByte(s: seq<bv8>, at: nat, j: nat)
    ensures Bits(s, 8 * at, 8 * j + 8) == Bits(s, 8 * at, 8 * j) + Bits(s, 8 * (at + j), 8)
  {
  }

  lemma EightAt(s: seq<bv8>, i: nat)
    requires i < |s|
    ensures Bits(s, 8 * i, 8) == ByteBits(s[i])
  {
    hide ByteBit;
    var bits := Bits(s, 8 * i, 8);
    forall j | 0 <= j < 8 ensures bits[j] == ByteBits(s[i])[j] {
      var p := 8 * i + j;
      assert bits[j] == PaddedBit(s, p);
      assert p / 8 == i && p % 8 == j;
    }
  }

  lemma ByteAt(s: seq<bv8>, i: nat)
    ensures Value(Bits(s, 8 * i, 8)) == if i < |s| then s[i] as nat else 0
  {
    hide Value, ByteBits;
    if i < |s| {
      EightAt(s, i);
      ByteValue(s[i]);
    } else {
      var bits := Bits(s, 8 * i, 8);
      forall j | 0 <= j < 8 ensures !bits[j] {
        assert bits[j] == PaddedBit(s, 8 * i + j);
      }
      ZeroValue(bits);
    }
  }

  lemma {:induction false} ZeroValue(bits: seq<bool>)
    ensures Value(bits) == 0 <==> forall i | 0 <= i < |bits| :: !bits[i]
  {
    if bits != [] {
      ZeroValue(bits[..|bits| - 1]);
    }
  }

  /** Loading a byte: the word is shifted by eight bits and the byte, or a zero
      behind the end, comes in. */
  lemma LoadNext(s: seq<bv8>, at: nat, j: nat)
    ensures Value(Bits(s, 8 * at, 8 * j + 8))
            == 256 * Value(Bits(s, 8 * at, 8 * j)) + if at + j < |s| then s[at + j] as nat else 0
  {
    hide Value, Bits;
    NextByte(s, at, j);
    ValueAppend(Bits(s, 8 * at, 8 * j), Bits(s, 8 * (at + j), 8));
    ByteAt(s, at + j);
    Pow8();
  }

  lemma Pow8()
    ensures Pow2(8) == 256
  {
    assert Pow2(4) == 16;
  }

  /** The loop that loads the next eight bytes: they fit in 64 bits. */
  method LoadWord(s: seq<bv8>, at: nat) returns (word: nat)
    requires at <= |s|
    ensures word == Value(Bits(s, 8 * at, 64)) && word < Pow2(64)
  {
    hide Value, Bits;
    word := 0;
    var c: nat, left: nat := at, |s| - at;
    NoValue(s, at);
    for j: nat := 0 to 8
      invariant word == Value(Bits(s, 8 * at, 8 * j))
      invariant c + left == |s| && c == if at + j < |s| then at + j else |s|
    {
      LoadNext(s, at, j);
      word := word * 256;
      if left > 0 {
        word := word + s[c] as nat;
        c, left := c + 1, left - 1;
      }
    }
  }

  lemma NoValue(s: seq<bv8>, at: nat)
    ensures Value(Bits(s, 8 * at, 0)) == 0
  {
  }

  /** The loop that scans a word from its most significant bit; None is the
      panic at its end. */
  method ScanWord(s: seq<bv8>, at: nat, word: nat, bit: bool) returns (i: nat)
    requires word == Value(Bits(s, 8 * at, 64))
    requires exists p :: 8 * at <= p < 8 * at + 64 && PaddedBit(s, p) == bit
    ensures i < 64 && PaddedBit(s, 8 * at + i) == bit
    ensures forall p | 8 * at <= p < 8 * at + i :: PaddedBit(s, p) != bit
  {
    hide Value, PaddedBit;
    i := 0;
    while true
      invariant i <= 64
      invariant forall p | 8 * at <= p < 8 * at + i :: PaddedBit(s, p) != bit
      decreases 64 - i
    {
      if i == 64 {
        assert false;
        break;
      }
      ValueBit(Bits(s, 8 * at, 64), i);
      if BitOf(word, 63 - i) == bit {
        break;
      }
      i := i + 1;
    }
  }

  // ------------------------------------------------------------------
  // redisBitpos
  // ------------------------------------------------------------------

  /** Skipping bytes: the index of the first byte that cannot be skipped, or
      one from which fewer than eight are left. */
  method SkipBytes(s: seq<bv8>, bit: bool, address: nat) returns (c: nat)
    ensures c <= |s| && NoneBefore(s, bit, 8 * c)
    ensures |s| - c < 8 || exists i :: c <= i < c + 8 && i < |s| && s[i] != Skip(bit)
  {
    hide NoneBefore, Skip;
    c := 0;
    NothingBefore(s, bit);
    var found := false;
    while (address + c) % 8 != 0 && c < |s|
      invariant c <= |s| && NoneBefore(s, bit, 8 * c)
      decreases |s| - c
    {
      if s[c] != Skip(bit) {
        found := true;
        break;
      }
      SkipMore(s, c, bit);
      c := c + 1;
    }
    if found {
      return;
    }
    while |s| - c >= 8
      invariant c <= |s| && NoneBefore(s, bit, 8 * c)
      decreases |s| - c
    {
      if !(forall i | c <= i < c + 8 :: s[i] == Skip(bit)) {
        break;
      }
      SkipWord(s, c, bit);
      c := c + 8;
    }
  }

  lemma NothingBefore(s: seq<bv8>, bit: bool)
    ensures NoneBefore(s, bit, 0)
  {
  }

  lemma SkipWord(s: seq<bv8>, c: nat, bit: bool)
    requires c + 8 <= |s| && NoneBefore(s, bit, 8 * c) && forall i | c <= i < c + 8 :: s[i] == Skip(bit)
    ensures NoneBefore(s, bit, 8 * (c + 8))
  {
    hide NoneBefore, Skip;
    SkipMore(s, c, bit);
    SkipMore(s, c + 1, bit);
    SkipMore(s, c + 2, bit);
    SkipMore(s, c + 3, bit);
    SkipMore(s, c + 4, bit);
    SkipMore(s, c + 5, bit);
    SkipMore(s, c + 6, bit);
    SkipMore(s, c + 7, bit);
  }

  /** Where the skipping stops, the next 64 bits hold the bit wanted, unless it
      is a one and the rest is zero. */
  lemma WithinWord(s: seq<bv8>, c: nat, bit: bool)
    requires c <= |s|
    requires |s| - c < 8 || exists i :: c <= i < c + 8 && i < |s| && s[i] != Skip(bit)
    ensures (exists p :: 8 * c <= p < 8 * c + 64 && PaddedBit(s, p) == bit)
            || (bit && forall p | p >= 8 * c :: !PaddedBit(s, p))
  {
    if i :| c <= i < c + 8 && i < |s| && s[i] != Skip(bit) {
      SkippedIff(s, i, bit);
      var p :| 8 * i <= p < 8 * i + 8 && PaddedBit(s, p) == bit;
      assert 8 * c <= p < 8 * c + 64;
    } else if !bit {
      assert !PaddedBit(s, 8 * |s|);
      assert 8 * c <= 8 * |s| < 8 * c + 64;
    } else {
      hide PaddedBit;
      forall p | p >= 8 * c && PaddedBit(s, p) ensures 8 * c <= p < 8 * c + 64 {
        BeyondIsZero(s, p);
      }
    }
  }

  lemma BeyondIsZero(s: seq<bv8>, p: nat)
    ensures PaddedBit(s, p) ==> p < 8 * |s|
  {
  }

  lemma WordZero(s: seq<bv8>, c: nat)
    ensures Value(Bits(s, 8 * c, 64)) == 0 <==> forall p | 8 * c <= p < 8 * c + 64 :: !PaddedBit(s, p)
  {
    hide Value, PaddedBit;
    var bits := Bits(s, 8 * c, 64);
    ZeroValue(bits);
    if forall i | 0 <= i < 64 :: !bits[i] {
      forall p | 8 * c <= p < 8 * c + 64 ensures !PaddedBit(s, p) {
        assert bits[p - 8 * c] == PaddedBit(s, p);
      }
    }
  }

  /** redisBitpos on a string whose first byte has an address congruent to
      `address` modulo eight: the least position that holds the bit, the length
      in bits if a zero is wanted and there is none, -1 if a one is. */
  method RedisBitpos(s: seq<bv8>, bit: bool, address: nat) returns (pos: int)
    ensures if bit && (forall p | 0 <= p < 8 * |s| :: !StringBit(s, p)) then pos == -1
            else pos >= 0 && First(s, bit, pos)
    ensures pos <= 8 * |s|
  {
    hide Value, Bits, Skip, StringBit, PaddedBit, NoneBefore, First;
    var c := SkipBytes(s, bit, address);
    var word := LoadWord(s, c);
    WithinWord(s, c, bit);
    WordZero(s, c);
    if bit && word == 0 {
      NoOnes(s, c);
      return -1;
    }
    var i := ScanWord(s, c, word, bit);
    pos := 8 * c + i;
    FirstFound(s, bit, c, i);
  }

  /** No one in the skipped bytes and none behind them. */
  lemma NoOnes(s: seq<bv8>, c: nat)
    requires NoneBefore(s, true, 8 * c) && forall p | p >= 8 * c :: !PaddedBit(s, p)
    ensures forall p | 0 <= p < 8 * |s| :: !StringBit(s, p)
  {
    hide StringBit;
    forall p | 0 <= p < 8 * |s| ensures !StringBit(s, p) {
      assert !PaddedBit(s, p);
    }
  }

  lemma FirstFound(s: seq<bv8>, bit: bool, c: nat, i: nat)
    requires NoneBefore(s, bit, 8 * c) && PaddedBit(s, 8 * c + i) == bit
    requires forall p | 8 * c <= p < 8 * c + i :: PaddedBit(s, p) != bit
    ensures First(s, bit, 8 * c + i) && 8 * c + i <= 8 * |s|
    ensures bit ==> exists p :: 0 <= p < 8 * |s| && StringBit(s, p)
  {
    hide StringBit;
    assert NoneBefore(s, bit, 8 * c + i);
    FirstFits(s, bit, 8 * c + i);
    if bit {
      assert StringBit(s, 8 * c + i);
    }
  }

  lemma FirstFits(s: seq<bv8>, bit: bool, p: nat)
    requires First(s, bit, p)
    ensures p <= 8 * |s| && (bit ==> p < 8 * |s|)
  {
    assert !PaddedBit(s, 8 * |s|);
  }

  // ------------------------------------------------------------------
  // BITPOS
  // ------------------------------------------------------------------

  /** The bytes a range names once negative indexes have been converted and
      clamped: from the first to the second, inclusive. */
  function Range(length: nat, start: int, end: int): (int, int) {
    var s := if start < 0 then length + start else start;
    var e := if end < 0 then length + end else end;
    var s0 := if s < 0 then 0 else s;
    var e0 := if e < 0 then 0 else e;
    (s0, if e0 >= length then length - 1 else e0)
  }

  datatype Ends = WholeString | From(start: int) | Between(start: int, end: int)

  function Named(length: nat, ends: Ends): (int, int) {
    match ends
    case WholeString => (0, length - 1)
    case From(start) => Range(length, start, length - 1)
    case Between(start, end) => Range(length, start, end)
  }

  /** The answer for the bytes from `start` to `end`: no position holds the bit,
      or the least one that does, or the one behind the range for a zero that was
      looked for without an explicit end. */
  ghost predicate Answer(o: seq<bv8>, start: int, end: int, bit: bool, explicit: bool, r: int) {
    && 0 <= start <= end < |o| && r >= -1
    && (r == -1 <==>
          (forall p | 8 * start <= p < 8 * end + 8 :: StringBit(o, p) != bit) && (bit || explicit))
    && (0 <= r < 8 * end + 8 ==>
          r >= 8 * start && StringBit(o, r) == bit && forall p | 8 * start <= p < r :: StringBit(o, p) != bit)
    && (r >= 8 * end + 8 ==>
          r == 8 * end + 8 && !bit && !explicit && forall p | 8 * start <= p < 8 * end + 8 :: StringBit(o, p))
  }

  /** bitposCommand on a string, or on a missing key. */
  method BitposCommand(o: seq<bv8>, present: bool, bit: bool, ends: Ends, address: nat) returns (r: int)
    ensures !present ==> r == if bit then -1 else 0
    ensures present ==>
              var (start, end) := Named(|o|, ends);
              if start > end then r == -1 else Answer(o, start, end, bit, ends.Between?, r)
  {
    if !present {
      return if bit then -1 else 0;
    }
    var (start, end) := Named(|o|, ends);
    if start > end {
      return -1;
    }
    var bytes := end - start + 1;
    var part := o[start..end + 1];
    hide StringBit, First, Answer;
    r := RedisBitpos(part, bit, address + start);
    if r == -1 {
      NoneInPart(o, start, end, ends.Between?);
    } else {
      FirstInPart(o, start, end, bit, ends.Between?, r);
    }
    if ends.Between? && !bit && r == bytes * 8 {
      return -1;
    }
    if r != -1 {
      r := r + start * 8;
    }
  }

  lemma PartBits(o: seq<bv8>, start: nat, end: nat)
    requires start <= end < |o|
    ensures forall p | 8 * start <= p < 8 * end + 8 :: StringBit(o, p) == StringBit(o[start..end + 1], p - 8 * start)
  {
    hide ByteBit;
  }

  lemma NoneInPart(o: seq<bv8>, start: nat, end: nat, explicit: bool)
    requires start <= end < |o|
    requires var part := o[start..end + 1];
             forall p | 0 <= p < 8 * |part| :: !StringBit(part, p)
    ensures Answer(o, start, end, true, explicit, -1)
  {
    hide StringBit;
    PartBits(o, start, end);
  }

  lemma FirstInPart(o: seq<bv8>, start: nat, end: nat, bit: bool, explicit: bool, r: nat)
    requires start <= end < |o| && First(o[start..end + 1], bit, r)
    ensures Answer(o, start, end, bit, explicit,
                   if explicit && !bit && r == (end - start + 1) * 8 then -1 else r + start * 8)
  {
    var part := o[start..end + 1];
    FirstFits(part, bit, r);
    PartBits(o, start, end);
    hide StringBit;
    forall p | 8 * start <= p < 8 * start + r ensures StringBit(o, p) != bit {
      assert PaddedBit(part, p - 8 * start) != bit;
    }
    if r < 8 * |part| {
      assert StringBit(o, r + 8 * start) == bit;
    }
  }
}
