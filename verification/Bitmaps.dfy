/**
 Slot bitmaps: bit `pos` of a byte string is bit `pos & 7` of byte `pos / 8`,
 counted from the least significant end (bitmapTestBit and its companions in
 server/src/cluster.c).
 */
module Bitmaps {

  predicate ByteBit(b: bv8, k: nat)
    requires k < 8
  {
    b & (1 << k) != 0
  }

  function WithBit(b: bv8, k: nat): bv8
    requires k < 8
  {
    b | (1 << k)
  }

  function WithoutBit(b: bv8, k: nat): bv8
    requires k < 8
  {
    b & !(1 << k)
  }

  /** Setting one bit of a byte leaves the other seven alone. */
  lemma ByteBitSet(b: bv8, k: nat, i: nat)
    requires k < 8 && i < 8
    ensures ByteBit(WithBit(b, k), i) == (i == k || ByteBit(b, i))
  {
  }

  /** So does clearing one. */
  lemma ByteBitClear(b: bv8, k: nat, i: nat)
    requires k < 8 && i < 8
    ensures ByteBit(WithoutBit(b, k), i) == (i != k && ByteBit(b, i))
  {
  }

  predicate Bit(s: seq<bv8>, pos: nat)
    requires pos < 8 * |s|
  {
    ByteBit(s[pos / 8], pos % 8)
  }

  /** The number of bits set below `n`. */
  function Count(s: seq<bv8>, n: nat): nat
    requires n <= 8 * |s|
  {
    if n == 0 then 0 else Count(s, n - 1) + if Bit(s, n - 1) then 1 else 0
  }

  lemma {:induction false} CountSame(s: seq<bv8>, t: seq<bv8>, n: nat)
    requires n <= 8 * |s| && n <= 8 * |t|
    requires forall i | 0 <= i < n :: Bit(s, i) == Bit(t, i)
    ensures Count(s, n) == Count(t, n)
  {
    if n > 0 {
      CountSame(s, t, n - 1);
    }
  }

  /** Setting one more bit counts one more. */
  lemma {:induction false} CountOneMore(s: seq<bv8>, t: seq<bv8>, n: nat, pos: nat)
    requires n <= 8 * |s| && n <= 8 * |t| && pos < n
    requires !Bit(s, pos) && Bit(t, pos)
    requires forall i | 0 <= i < n && i != pos :: Bit(s, i) == Bit(t, i)
    ensures Count(t, n) == Count(s, n) + 1
  {
    if pos == n - 1 {
      CountSame(s, t, n - 1);
    } else {
      CountOneMore(s, t, n - 1, pos);
    }
  }

  lemma {:induction false} CountZero(s: seq<bv8>, n: nat)
    requires n <= 8 * |s|
    ensures Count(s, n) == 0 <==> forall i | 0 <= i < n :: !Bit(s, i)
  {
    if n > 0 {
      CountZero(s, n - 1);
    }
  }

  /** bitmapTestBit */
  method TestBit(bitmap: array<bv8>, pos: nat) returns (b: bool)
    requires pos < 8 * bitmap.Length
    ensures b == Bit(bitmap[..], pos)
  {
    var byte, bit := pos / 8, pos % 8;
    b := bitmap[byte] & (1 << bit) != 0;
  }

  /** bitmapSetBit */
  method SetBit(bitmap: array<bv8>, pos: nat)
    requires pos < 8 * bitmap.Length
    modifies bitmap
    ensures forall i | 0 <= i < 8 * bitmap.Length :: Bit(bitmap[..], i) == (i == pos || old(Bit(bitmap[..], i)))
  {
    hide ByteBit, WithBit, WithoutBit;
    var byte, bit := pos / 8, pos % 8;
    forall i | 0 <= i < 8 { ByteBitSet(bitmap[byte], bit, i); }
    bitmap[byte] := WithBit(bitmap[byte], bit);
    forall i | 0 <= i < 8 * bitmap.Length
      ensures Bit(bitmap[..], i) == (i == pos || old(Bit(bitmap[..], i)))
    {
      assert i / 8 == byte && i % 8 == bit ==> i == pos;
    }
  }

  /** bitmapClearBit */
  method ClearBit(bitmap: array<bv8>, pos: nat)
    requires pos < 8 * bitmap.Length
    modifies bitmap
    ensures forall i | 0 <= i < 8 * bitmap.Length :: Bit(bitmap[..], i) == (i != pos && old(Bit(bitmap[..], i)))
  {
    hide ByteBit, WithBit, WithoutBit;
    var byte, bit := pos / 8, pos % 8;
    forall i | 0 <= i < 8 { ByteBitClear(bitmap[byte], bit, i); }
    bitmap[byte] := WithoutBit(bitmap[byte], bit);
    forall i | 0 <= i < 8 * bitmap.Length
      ensures Bit(bitmap[..], i) == (i != pos && old(Bit(bitmap[..], i)))
    {
      assert i / 8 == byte && i % 8 == bit ==> i == pos;
    }
  }
}
