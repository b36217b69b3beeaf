/**
 Strings of bits as bitops.c sees them: bit 0 is the most significant bit of
 the first byte, and a run of bits is read as a number, first bit highest.
 */
module BitStrings {
  import opened Counting
  import opened Bitmaps

  predicate StringBit(s: seq<bv8>, pos: nat)
    requires pos < 8 * |s|
  {
    ByteBit(s[pos / 8], 7 - pos % 8)
  }

  /** The same for the string padded with zero bits for ever. */
  predicate PaddedBit(s: seq<bv8>, pos: nat) {
    pos < 8 * |s| && StringBit(s, pos)
  }

  function BitValue(b: bool): nat {
    if b then 1 else 0
  }

  /** A run of bits as a number. */
  function Value(bits: seq<bool>): (v: nat)
    ensures v < Pow2(|bits|)
  {
    if bits == [] then 0 else 2 * Value(bits[..|bits| - 1]) + BitValue(bits[|bits| - 1])
  }

  /** Bit `k` of a number, bit 0 lowest. */
  predicate BitOf(v: nat, k: nat) {
    if k == 0 then v % 2 == 1 else BitOf(v / 2, k - 1)
  }

  lemma {:induction false} Pow2Add(m: nat, n: nat)
    ensures Pow2(m + n) == Pow2(m) * Pow2(n)
  {
    if m > 0 {
      Pow2Add(m - 1, n);
      assert Pow2(m) * Pow2(n) == 2 * (Pow2(m - 1) * Pow2(n));
    }
  }

  lemma {:induction false} Far(q: nat, p: nat, d: nat)
    ensures p < q ==> q * d >= p * d + d
  {
    if p < q {
      assert q * d == (q - 1) * d + d;
      if p < q - 1 {
        Far(q - 1, p, d);
      }
    }
  }

  /** Division is what division by hand gives. */
  lemma Quotient(v: nat, d: nat, q: nat, r: nat)
    requires d > 0 && v == q * d + r && r < d
    ensures v / d == q && v % d == r
  {
    assert v == v / d * d + v % d;
    Far(q, v / d, d);
    Far(v / d, q, d);
  }

  /** Bit for bit, a number read from a run of bits is that run. */
  lemma {:induction false} ValueBit(bits: seq<bool>, i: nat)
    requires i < |bits|
    ensures BitOf(Value(bits), |bits| - 1 - i) == bits[i]
  {
    var front := bits[..|bits| - 1];
    if i < |bits| - 1 {
      ValueBit(front, i);
    }
  }

  /** The low `n` bits of a number, highest first. */
  function BitsOf(v: nat, n: nat): (bits: seq<bool>)
    ensures |bits| == n
  {
    if n == 0 then [] else BitsOf(v / 2, n - 1) + [v % 2 == 1]
  }

  lemma {:induction false} BitsOfAt(v: nat, n: nat, j: nat)
    requires j < n
    ensures BitsOf(v, n)[j] == BitOf(v, n - 1 - j)
  {
    if j < n - 1 {
      BitsOfAt(v / 2, n - 1, j);
    }
  }

  /** What is above the low `n` bits. */
  function High(v: nat, n: nat): nat {
    if n == 0 then v else High(v / 2, n - 1)
  }

  lemma Double(h: nat, p: nat)
    ensures 2 * (h * p) == h * (2 * p)
  {
  }

  lemma {:induction false} HighAndLow(v: nat, n: nat)
    ensures v == High(v, n) * Pow2(n) + Value(BitsOf(v, n))
  {
    if n > 0 {
      var low := BitsOf(v / 2, n - 1);
      HighAndLow(v / 2, n - 1);
      assert BitsOf(v, n)[..n - 1] == low;
      assert Value(BitsOf(v, n)) == 2 * Value(low) + v % 2;
      Double(High(v, n), Pow2(n - 1));
      assert v == 2 * (v / 2) + v % 2;
    }
  }

  /** Read back, the low bits of a number are the number modulo a power of two. */
  lemma ValueOfBits(v: nat, n: nat)
    ensures Value(BitsOf(v, n)) == v % Pow2(n)
  {
    HighAndLow(v, n);
    Quotient(v, Pow2(n), High(v, n), Value(BitsOf(v, n)));
  }

  lemma {:induction false} ValueAppend(a: seq<bool>, b: seq<bool>)
    ensures Value(a + b) == Value(a) * Pow2(|b|) + Value(b)
  {
    if b == [] {
      assert a + b == a;
    } else {
      var front := b[..|b| - 1];
      ValueAppend(a, front);
      assert (a + b)[..|a + b| - 1] == a + front;
      Double(Value(a), Pow2(|front|));
      assert Value(a + b) == 2 * Value(a + front) + BitValue(b[|b| - 1]);
      assert Value(b) == 2 * Value(front) + BitValue(b[|b| - 1]);
    }
  }

  /** The eight bits of a byte. */
  function ByteBits(b: bv8): seq<bool> {
    [ByteBit(b, 7), ByteBit(b, 6), ByteBit(b, 5), ByteBit(b, 4), ByteBit(b, 3), ByteBit(b, 2), ByteBit(b, 1),
        ByteBit(b, 0)]
  }

  lemma ByteSum(b: bv8)
    ensures b as nat == 128 * BitValue(ByteBit(b, 7)) + 64 * BitValue(ByteBit(b, 6)) + 32 * BitValue(ByteBit(b, 5))
                        + 16 * BitValue(ByteBit(b, 4)) + 8 * BitValue(ByteBit(b, 3)) + 4 * BitValue(ByteBit(b, 2))
                        + 2 * BitValue(ByteBit(b, 1)) + BitValue(ByteBit(b, 0))
  {
  }

  lemma ByteValue(b: bv8)
    ensures Value(ByteBits(b)) == b as nat
  {
    hide Value, BitValue, ByteBit;
    var s := ByteBits(b);
    EightBits(s);
    assert s[0] == ByteBit(b, 7) && s[1] == ByteBit(b, 6) && s[2] == ByteBit(b, 5) && s[3] == ByteBit(b, 4);
    assert s[4] == ByteBit(b, 3) && s[5] == ByteBit(b, 2) && s[6] == ByteBit(b, 1) && s[7] == ByteBit(b, 0);
    ByteSum(b);
  }

  lemma FourBits(s: seq<bool>, n: nat)
    requires n + 4 <= |s|
    ensures Value(s[..n + 4]) == 16 * Value(s[..n]) + 8 * BitValue(s[n]) + 4 * BitValue(s[n + 1])
                                 + 2 * BitValue(s[n + 2]) + BitValue(s[n + 3])
  {
    hide Value, BitValue;
    ValueNext(s, n);
    ValueNext(s, n + 1);
    ValueNext(s, n + 2);
    ValueNext(s, n + 3);
  }

  lemma NoBits(s: seq<bool>)
    requires s == []
    ensures Value(s) == 0
  {
  }

  lemma EightBits(s: seq<bool>)
    requires |s| == 8
    ensures Value(s) == 128 * BitValue(s[0]) + 64 * BitValue(s[1]) + 32 * BitValue(s[2]) + 16 * BitValue(s[3])
                        + 8 * BitValue(s[4]) + 4 * BitValue(s[5]) + 2 * BitValue(s[6]) + BitValue(s[7])
  {
    hide Value, BitValue;
    NoBits(s[..0]);
    FourBits(s, 0);
    FourBits(s, 4);
    assert s[..8] == s;
  }

  lemma ValueNext(s: seq<bool>, n: nat)
    requires n < |s|
    ensures Value(s[..n + 1]) == 2 * Value(s[..n]) + BitValue(s[n])
  {
    assert s[..n + 1][..n] == s[..n];
  }

  /** The first `n` bits of a string, padded with zeros. */
  function Bits(s: seq<bv8>, from: nat, n: nat): (bits: seq<bool>)
    ensures |bits| == n
  {
    seq(n, j requires 0 <= j < n => PaddedBit(s, from + j))
  }
}
