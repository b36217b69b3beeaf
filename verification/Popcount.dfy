/**
 redisPopcount (bitops.c): bytes are counted one by one up to a word boundary,
 then seven 32-bit words at a time, then one by one again.
 */
module Popcount {
  import opened Bitmaps

  function OneAt(b: bv8, k: nat): (n: nat)
    requires k < 8
    ensures n <= 1
  {
    if ByteBit(b, k) then 1 else 0
  }

  /** The number of bits set in a byte; bitsinbyte tabulates it. */
  function OnesIn(b: bv8): (n: nat)
    ensures n <= 8
  {
    OneAt(b, 0) + OneAt(b, 1) + OneAt(b, 2) + OneAt(b, 3) + OneAt(b, 4) + OneAt(b, 5) + OneAt(b, 6) + OneAt(b, 7)
  }

  /** The number of bits set in a string. */
  function Ones(s: seq<bv8>): nat {
    if s == [] then 0 else Ones(s[..|s| - 1]) + OnesIn(s[|s| - 1])
  }

  lemma {:induction false} OnesAppend(a: seq<bv8>, b: seq<bv8>)
    ensures Ones(a + b) == Ones(a) + Ones(b)
  {
    hide OnesIn;
    if b == [] {
      assert a + b == a;
    } else {
      assert (a + b)[..|a + b| - 1] == a + b[..|b| - 1];
      OnesAppend(a, b[..|b| - 1]);
    }
  }

  // ------------------------------------------------------------------
  // Counting inside a word
  // ------------------------------------------------------------------

  /** The bits of the low byte added up. */
  function Pop(x: bv32): bv32 {
    (x & 1) + ((x >> 1) & 1) + ((x >> 2) & 1) + ((x >> 3) & 1)
    + ((x >> 4) & 1) + ((x >> 5) & 1) + ((x >> 6) & 1) + ((x >> 7) & 1)
  }

  function Byte(w: bv32, k: nat): bv32
    requires k < 4
  {
    if k == 0 then w & 0xff else if k == 1 then (w >> 8) & 0xff else if k == 2 then (w >> 16) & 0xff else w >> 24
  }

  function Wide(b: bv8): bv32 {
    b as bv32
  }

  /** The word four bytes make on a little-endian machine; the count does not
      depend on their order. */
  function Pack(b0: bv8, b1: bv8, b2: bv8, b3: bv8): bv32 {
    Wide(b0) | (Wide(b1) << 8) | (Wide(b2) << 16) | (Wide(b3) << 24)
  }

  function WordAt(s: seq<bv8>, p: nat): bv32
    requires p + 4 <= |s|
  {
    Pack(s[p], s[p + 1], s[p + 2], s[p + 3])
  }

  /** What each aux variable goes through before the sum. */
  function Swar(w: bv32): bv32 {
    var a := w - ((w >> 1) & 0x55555555);
    var b := (a & 0x33333333) + ((a >> 2) & 0x33333333);
    (b + (b >> 4)) & 0x0F0F0F0F
  }

  lemma WordBytes(b0: bv8, b1: bv8, b2: bv8, b3: bv8)
    ensures var w := Pack(b0, b1, b2, b3);
            Byte(w, 0) == Wide(b0) && Byte(w, 1) == Wide(b1) && Byte(w, 2) == Wide(b2) && Byte(w, 3) == Wide(b3)
  {
  }

  function Num(x: bv32): nat {
    x as nat
  }

  function Add(x: bv32, y: bv32): bv32 {
    x + y
  }

  /** The value of a byte of a word. */
  function Val(w: bv32, k: nat): nat
    requires k < 4
  {
    Num(Byte(w, k))
  }

  lemma Below8(x: bv32)
    requires Num(x) <= 8
    ensures x <= 8
  {
  }

  lemma Below48(x: bv32)
    requires Num(x) <= 48
    ensures x <= 48
  {
  }

  lemma Below254(x: bv32)
    requires Num(x) <= 254
    ensures x <= 254
  {
  }

  lemma Inc(x: bv32)
    requires Num(x) < 255
    ensures Num(Add(x, 1)) == Num(x) + 1
  {
  }

  lemma Dec(x: bv32) returns (y: bv32)
    requires 0 < Num(x) < 255
    ensures Add(y, 1) == x && Num(y) == Num(x) - 1
  {
    y := x - 1;
  }

  lemma Carry(x: bv32, y: bv32)
    requires x <= 254 && y <= 254
    ensures Add(Add(x, 1), y) == Add(x, Add(y, 1))
  {
  }

  lemma Zero(x: bv32, y: bv32)
    ensures Num(y) == 0 ==> Add(x, y) == x
  {
  }

  /** Small words add like numbers. */
  lemma {:induction false} AddNum(x: bv32, y: bv32)
    requires Num(x) + Num(y) < 255
    ensures Num(Add(x, y)) == Num(x) + Num(y)
    decreases Num(y)
  {
    hide Num, Add;
    if Num(y) == 0 {
      Zero(x, y);
    } else {
      var z := Dec(y);
      Inc(x);
      AddNum(Add(x, 1), z);
      Below254(x);
      Below254(z);
      Carry(x, z);
    }
  }

  // Every byte of the word an aux variable ends as is the count of the same
  // byte of the word it started as.

  lemma Swar0(w: bv32)
    ensures Byte(Swar(w), 0) == Pop(Byte(w, 0))
  {
  }

  lemma Swar1(w: bv32)
    ensures Byte(Swar(w), 1) == Pop(Byte(w, 1))
  {
  }

  lemma Swar2(w: bv32)
    ensures Byte(Swar(w), 2) == Pop(Byte(w, 2))
  {
  }

  lemma Swar3(w: bv32)
    ensures Byte(Swar(w), 3) == Pop(Byte(w, 3))
  {
  }

  function Nth(b: bv8, k: nat): bv32
    requires k < 8
  {
    (Wide(b) >> k) & 1
  }

  lemma PopSum(b: bv8)
    ensures Pop(Wide(b)) == Add(Add(Add(Add(Add(Add(Add(Nth(b, 0), Nth(b, 1)), Nth(b, 2)), Nth(b, 3)),
                                                    Nth(b, 4)), Nth(b, 5)), Nth(b, 6)), Nth(b, 7))
  {
  }

  lemma NthIs(b: bv8, k: nat)
    requires k < 8
    ensures Num(Nth(b, k)) == OneAt(b, k)
  {
  }

  lemma AddBit(x: bv32, b: bv8, k: nat)
    requires k < 8 && Num(x) <= 8
    ensures Num(Add(x, Nth(b, k))) == Num(x) + OneAt(b, k)
  {
    hide Num, Add, Nth, OneAt;
    NthIs(b, k);
    AddNum(x, Nth(b, k));
  }

  lemma PopIs(b: bv8)
    ensures Num(Pop(Wide(b))) == OnesIn(b)
  {
    hide Num, Add, Nth, Pop, Wide, OneAt;
    PopSum(b);
    NthIs(b, 0);
    var s1 := Add(Nth(b, 0), Nth(b, 1));
    AddBit(Nth(b, 0), b, 1);
    var s2 := Add(s1, Nth(b, 2));
    AddBit(s1, b, 2);
    var s3 := Add(s2, Nth(b, 3));
    AddBit(s2, b, 3);
    var s4 := Add(s3, Nth(b, 4));
    AddBit(s3, b, 4);
    var s5 := Add(s4, Nth(b, 5));
    AddBit(s4, b, 5);
    var s6 := Add(s5, Nth(b, 6));
    AddBit(s5, b, 6);
    AddBit(s6, b, 7);
  }

  lemma WordByte(s: seq<bv8>, p: nat, k: nat)
    requires p + 4 <= |s| && k < 4
    ensures Byte(WordAt(s, p), k) == Wide(s[p + k])
  {
    hide Wide, Byte, Pack;
    WordBytes(s[p], s[p + 1], s[p + 2], s[p + 3]);
  }

  /** The counts of a word's bytes. */
  lemma SwarCounts(s: seq<bv8>, p: nat, k: nat)
    requires p + 4 <= |s| && k < 4
    ensures Val(Swar(WordAt(s, p)), k) == OnesIn(s[p + k])
  {
    WordByte(s, p, k);
    PopIs(s[p + k]);
    Swar0(WordAt(s, p));
    Swar1(WordAt(s, p));
    Swar2(WordAt(s, p));
    Swar3(WordAt(s, p));
    hide Num, Byte, Swar, Pop, Wide, WordAt, OnesIn;
  }

  // ------------------------------------------------------------------
  // Seven words at a time
  // ------------------------------------------------------------------

  /** The sum of the first `n` words, each one counted. */
  function SumWords(s: seq<bv8>, n: nat): bv32
    requires 4 * n <= |s|
  {
    if n == 0 then 0 else Add(SumWords(s, n - 1), Swar(WordAt(s, 4 * (n - 1))))
  }

  /** The number of bits set in the bytes `k` of the first `n` words. */
  function Column(s: seq<bv8>, k: nat, n: nat): (c: nat)
    requires k < 4 && 4 * n <= |s|
    ensures c <= 8 * n
  {
    if n == 0 then 0 else Column(s, k, n - 1) + OnesIn(s[4 * (n - 1) + k])
  }

  ghost predicate Low(x: bv32, n: bv32) {
    Byte(x, 0) <= n && Byte(x, 1) <= n && Byte(x, 2) <= n && Byte(x, 3) <= n
  }

  lemma Apart0(x: bv32, y: bv32)
    requires Low(x, 48) && Low(y, 8)
    ensures Byte(Add(x, y), 0) == Add(Byte(x, 0), Byte(y, 0))
  {
  }

  lemma Apart1(x: bv32, y: bv32)
    requires Low(x, 48) && Low(y, 8)
    ensures Byte(Add(x, y), 1) == Add(Byte(x, 1), Byte(y, 1))
  {
  }

  lemma Apart2(x: bv32, y: bv32)
    requires Low(x, 48) && Low(y, 8)
    ensures Byte(Add(x, y), 2) == Add(Byte(x, 2), Byte(y, 2))
  {
  }

  lemma Apart3(x: bv32, y: bv32)
    requires Low(x, 48) && Low(y, 8)
    ensures Byte(Add(x, y), 3) == Add(Byte(x, 3), Byte(y, 3))
  {
  }

  /** No carry crosses a byte. */
  lemma AddWords(x: bv32, y: bv32)
    requires forall k | 0 <= k < 4 :: Val(x, k) <= 48 && Val(y, k) <= 8
    ensures forall k | 0 <= k < 4 :: Val(Add(x, y), k) == Val(x, k) + Val(y, k)
  {
    hide Num, Add, Byte;
    forall k | 0 <= k < 4 ensures Byte(x, k) <= 48 && Byte(y, k) <= 8 {
      assert Val(x, k) <= 48 && Val(y, k) <= 8;
      Below48(Byte(x, k));
      Below8(Byte(y, k));
    }
    Apart0(x, y);
    Apart1(x, y);
    Apart2(x, y);
    Apart3(x, y);
    forall k | 0 <= k < 4 ensures Val(Add(x, y), k) == Val(x, k) + Val(y, k) {
      assert Val(x, k) <= 48 && Val(y, k) <= 8;
      AddNum(Byte(x, k), Byte(y, k));
    }
  }

  lemma NoSum(k: nat)
    requires k < 4
    ensures Val(0, k) == 0
  {
  }

  /** The four byte columns of up to seven words do not run into each other. */
  lemma {:induction false} ColumnsCount(s: seq<bv8>, n: nat)
    requires n <= 7 && 4 * n <= |s|
    ensures forall k | 0 <= k < 4 :: Val(SumWords(s, n), k) == Column(s, k, n)
  {
    hide Val, Add, Swar, OnesIn, WordAt;
    if n == 0 {
      NoSum(0);
      NoSum(1);
      NoSum(2);
      NoSum(3);
    } else {
      var x, y := SumWords(s, n - 1), Swar(WordAt(s, 4 * (n - 1)));
      ColumnsCount(s, n - 1);
      forall k | 0 <= k < 4 ensures Val(x, k) <= 48 && Val(y, k) == OnesIn(s[4 * (n - 1) + k]) {
        SwarCounts(s, 4 * (n - 1), k);
      }
      AddWords(x, y);
    }
  }

  lemma {:induction false} ColumnsAreOnes(s: seq<bv8>, n: nat)
    requires 4 * n <= |s|
    ensures Column(s, 0, n) + Column(s, 1, n) + Column(s, 2, n) + Column(s, 3, n) == Ones(s[..4 * n])
  {
    hide OnesIn, Ones, Column;
    if n == 0 {
      NoColumns(s);
      NoOnes(s[..0]);
    } else {
      var p, q := 4 * (n - 1), 4 * n;
      ColumnsAreOnes(s, n - 1);
      ColumnsNext(s, p, n);
      FourMore(s, p, q);
    }
  }

  lemma NoColumns(s: seq<bv8>)
    ensures Column(s, 0, 0) == Column(s, 1, 0) == Column(s, 2, 0) == Column(s, 3, 0) == 0
  {
  }

  lemma ColumnsNext(s: seq<bv8>, p: nat, n: nat)
    requires 0 < n && p == 4 * (n - 1) && p + 4 <= |s|
    ensures Column(s, 0, n) == Column(s, 0, n - 1) + OnesIn(s[p])
    ensures Column(s, 1, n) == Column(s, 1, n - 1) + OnesIn(s[p + 1])
    ensures Column(s, 2, n) == Column(s, 2, n - 1) + OnesIn(s[p + 2])
    ensures Column(s, 3, n) == Column(s, 3, n - 1) + OnesIn(s[p + 3])
  {
    hide OnesIn;
  }

  lemma FourMore(s: seq<bv8>, p: nat, q: nat)
    requires q == p + 4 <= |s|
    ensures Ones(s[..q]) == Ones(s[..p]) + OnesIn(s[p]) + OnesIn(s[p + 1]) + OnesIn(s[p + 2]) + OnesIn(s[p + 3])
  {
    hide OnesIn, Ones;
    OnesNext(s, 0, p);
    OnesNext(s, 0, p + 1);
    OnesNext(s, 0, p + 2);
    OnesNext(s, 0, p + 3);
  }

  lemma OnesNext(s: seq<bv8>, from: nat, p: nat)
    requires from <= p < |s|
    ensures Ones(s[from..p + 1]) == Ones(s[from..p]) + OnesIn(s[p])
  {
    hide OnesIn;
    assert s[from..p + 1][..p - from] == s[from..p];
  }

  /** The multiplication that adds the bytes up in the top one. */
  function Times(x: bv32): bv32 {
    x * 0x01010101
  }

  function Top(x: bv32): bv32 {
    Times(x) >> 24
  }

  /** One more in byte `k`, and in byte `k` and every higher one. */
  function Up(x: bv32, k: nat): bv32
    requires k < 4
  {
    if k == 0 then x + 1 else if k == 1 then x + 0x100 else if k == 2 then x + 0x10000 else x + 0x1000000
  }

  function UpAll(p: bv32, k: nat): bv32
    requires k < 4
  {
    if k == 0 then p + 0x01010101
    else if k == 1 then p + 0x01010100
    else if k == 2 then p + 0x01010000
    else p + 0x01000000
  }

  lemma TimesMore(x: bv32, k: nat)
    requires k < 4
    ensures Times(Up(x, k)) == UpAll(Times(x), k)
  {
    hide Times;
    if k == 0 {
      TimesMore0(x);
    } else if k == 1 {
      TimesMore1(x);
    } else if k == 2 {
      TimesMore2(x);
    } else {
      TimesMore3(x);
    }
  }

  lemma TimesMore0(x: bv32)
    ensures Times(x + 1) == Times(x) + 0x01010101
  {
  }

  lemma TimesMore1(x: bv32)
    ensures Times(x + 0x100) == Times(x) + 0x01010100
  {
  }

  lemma TimesMore2(x: bv32)
    ensures Times(x + 0x10000) == Times(x) + 0x01010000
  {
  }

  lemma TimesMore3(x: bv32)
    ensures Times(x + 0x1000000) == Times(x) + 0x01000000
  {
  }

  lemma Raise0(p: bv32)
    requires Low(p, 254)
    ensures Byte(UpAll(p, 0), 0) == Add(Byte(p, 0), 1)
    ensures Byte(UpAll(p, 0), 1) == Add(Byte(p, 1), 1)
    ensures Byte(UpAll(p, 0), 2) == Add(Byte(p, 2), 1)
    ensures Byte(UpAll(p, 0), 3) == Add(Byte(p, 3), 1)
  {
  }

  lemma Raise1(p: bv32)
    requires Low(p, 254)
    ensures Byte(UpAll(p, 1), 0) == Byte(p, 0)
    ensures Byte(UpAll(p, 1), 1) == Add(Byte(p, 1), 1)
    ensures Byte(UpAll(p, 1), 2) == Add(Byte(p, 2), 1)
    ensures Byte(UpAll(p, 1), 3) == Add(Byte(p, 3), 1)
  {
  }

  lemma Raise2(p: bv32)
    requires Low(p, 254)
    ensures Byte(UpAll(p, 2), 0) == Byte(p, 0)
    ensures Byte(UpAll(p, 2), 1) == Byte(p, 1)
    ensures Byte(UpAll(p, 2), 2) == Add(Byte(p, 2), 1)
    ensures Byte(UpAll(p, 2), 3) == Add(Byte(p, 3), 1)
  {
  }

  lemma Raise3(p: bv32)
    requires Low(p, 254)
    ensures Byte(UpAll(p, 3), 0) == Byte(p, 0)
    ensures Byte(UpAll(p, 3), 1) == Byte(p, 1)
    ensures Byte(UpAll(p, 3), 2) == Byte(p, 2)
    ensures Byte(UpAll(p, 3), 3) == Add(Byte(p, 3), 1)
  {
  }

  lemma RaiseByte(p: bv32, k: nat, j: nat)
    requires Low(p, 254) && k < 4 && j < 4
    ensures Byte(UpAll(p, k), j) == if j >= k then Add(Byte(p, j), 1) else Byte(p, j)
  {
    hide Byte, UpAll, Add, Low;
    if k == 0 { Raise0(p); } else if k == 1 { Raise1(p); } else if k == 2 { Raise2(p); } else { Raise3(p); }
  }

  function Down(x: bv32, k: nat): bv32
    requires k < 4
  {
    if k == 0 then x - 1 else if k == 1 then x - 0x100 else if k == 2 then x - 0x10000 else x - 0x1000000
  }

  lemma DownUp0(x: bv32)
    ensures Up(Down(x, 0), 0) == x
  {
  }

  lemma DownUp1(x: bv32)
    ensures Up(Down(x, 1), 1) == x
  {
  }

  lemma DownUp2(x: bv32)
    ensures Up(Down(x, 2), 2) == x
  {
  }

  lemma DownUp3(x: bv32)
    ensures Up(Down(x, 3), 3) == x
  {
  }

  lemma DownUp(x: bv32, k: nat)
    requires k < 4
    ensures Up(Down(x, k), k) == x
  {
    hide Up, Down;
    if k == 0 { DownUp0(x); } else if k == 1 { DownUp1(x); } else if k == 2 { DownUp2(x); } else { DownUp3(x); }
  }

  lemma Down0(x: bv32)
    requires Byte(x, 0) != 0
    ensures Add(Byte(Down(x, 0), 0), 1) == Byte(x, 0) && Byte(Down(x, 0), 0) < 255
    ensures Byte(Down(x, 0), 1) == Byte(x, 1)
    ensures Byte(Down(x, 0), 2) == Byte(x, 2)
    ensures Byte(Down(x, 0), 3) == Byte(x, 3)
  {
  }

  lemma Down1(x: bv32)
    requires Byte(x, 1) != 0
    ensures Byte(Down(x, 1), 0) == Byte(x, 0)
    ensures Add(Byte(Down(x, 1), 1), 1) == Byte(x, 1) && Byte(Down(x, 1), 1) < 255
    ensures Byte(Down(x, 1), 2) == Byte(x, 2)
    ensures Byte(Down(x, 1), 3) == Byte(x, 3)
  {
  }

  lemma Down2(x: bv32)
    requires Byte(x, 2) != 0
    ensures Byte(Down(x, 2), 0) == Byte(x, 0)
    ensures Byte(Down(x, 2), 1) == Byte(x, 1)
    ensures Add(Byte(Down(x, 2), 2), 1) == Byte(x, 2) && Byte(Down(x, 2), 2) < 255
    ensures Byte(Down(x, 2), 3) == Byte(x, 3)
  {
  }

  lemma Down3(x: bv32)
    requires Byte(x, 3) != 0
    ensures Byte(Down(x, 3), 0) == Byte(x, 0)
    ensures Byte(Down(x, 3), 1) == Byte(x, 1)
    ensures Byte(Down(x, 3), 2) == Byte(x, 2)
    ensures Add(Byte(Down(x, 3), 3), 1) == Byte(x, 3) && Byte(Down(x, 3), 3) < 255
  {
  }

  lemma DownByte(x: bv32, k: nat, j: nat)
    requires k < 4 && j < 4 && Byte(x, k) != 0
    ensures if j == k then Add(Byte(Down(x, k), j), 1) == Byte(x, j) && Byte(Down(x, k), j) < 255
            else Byte(Down(x, k), j) == Byte(x, j)
  {
    hide Byte, Down, Add;
    if k == 0 { Down0(x); } else if k == 1 { Down1(x); } else if k == 2 { Down2(x); } else { Down3(x); }
  }

  lemma IncWhen(x: bv32)
    requires x < 255
    ensures Num(Add(x, 1)) == Num(x) + 1
  {
  }

  lemma LowVals(p: bv32)
    requires Val(p, 0) <= 254 && Val(p, 1) <= 254 && Val(p, 2) <= 254 && Val(p, 3) <= 254
    ensures Low(p, 254)
  {
    hide Num, Byte;
    Below254(Byte(p, 0));
    Below254(Byte(p, 1));
    Below254(Byte(p, 2));
    Below254(Byte(p, 3));
  }

  lemma RaiseVal(p: bv32, k: nat, j: nat)
    requires Low(p, 254) && k < 4 && j < 4 && Val(p, j) <= 254
    ensures Val(UpAll(p, k), j) == Val(p, j) + if j >= k then 1 else 0
  {
    hide Num, Byte, Add, UpAll, Low;
    RaiseByte(p, k, j);
    Inc(Byte(p, j));
  }

  lemma Raise(p: bv32, k: nat)
    requires k < 4 && Val(p, 0) <= 254 && Val(p, 1) <= 254 && Val(p, 2) <= 254 && Val(p, 3) <= 254
    ensures forall j | 0 <= j < 4 :: Val(UpAll(p, k), j) == Val(p, j) + if j >= k then 1 else 0
  {
    hide Val, UpAll, Low;
    LowVals(p);
    forall j | 0 <= j < 4 ensures Val(UpAll(p, k), j) == Val(p, j) + if j >= k then 1 else 0 {
      RaiseVal(p, k, j);
    }
  }

  lemma DownVal(x: bv32, k: nat)
    requires k < 4 && Val(x, k) > 0
    ensures forall j | 0 <= j < 4 :: Val(x, j) == Val(Down(x, k), j) + if j == k then 1 else 0
  {
    hide Num, Byte, Add, Down;
    NotZero(Byte(x, k));
    forall j | 0 <= j < 4 ensures Val(x, j) == Val(Down(x, k), j) + if j == k then 1 else 0 {
      DownByte(x, k, j);
      if j == k {
        IncWhen(Byte(Down(x, k), k));
      }
    }
  }

  lemma NotZero(x: bv32)
    requires Num(x) > 0
    ensures x != 0
  {
  }

  lemma AllZero(x: bv32)
    requires Val(x, 0) == 0 && Val(x, 1) == 0 && Val(x, 2) == 0 && Val(x, 3) == 0
    ensures x == 0
  {
    ZeroNum(Byte(x, 0));
    ZeroNum(Byte(x, 1));
    ZeroNum(Byte(x, 2));
    ZeroNum(Byte(x, 3));
    ZeroBytes(x);
  }

  lemma ZeroNum(x: bv32)
    ensures Num(x) == 0 ==> x == 0
  {
  }

  lemma ZeroBytes(x: bv32)
    requires Low(x, 0)
    ensures x == 0
  {
  }

  lemma TimesZero(k: nat)
    requires k < 4
    ensures Val(Times(0), k) == 0
  {
  }

  /** As long as the bytes add up to less than 256, the product holds their
      running sums. */
  lemma {:induction false} TimesCounts(x: bv32)
    requires Val(x, 0) + Val(x, 1) + Val(x, 2) + Val(x, 3) <= 255
    ensures Val(Times(x), 0) == Val(x, 0) && Val(Times(x), 1) == Val(x, 0) + Val(x, 1)
    ensures Val(Times(x), 2) == Val(x, 0) + Val(x, 1) + Val(x, 2)
    ensures Val(Times(x), 3) == Val(x, 0) + Val(x, 1) + Val(x, 2) + Val(x, 3)
    decreases Val(x, 0) + Val(x, 1) + Val(x, 2) + Val(x, 3)
  {
    hide Val, Times, Up, UpAll, Down;
    if Val(x, 0) + Val(x, 1) + Val(x, 2) + Val(x, 3) == 0 {
      AllZero(x);
      TimesZero(0);
      TimesZero(1);
      TimesZero(2);
      TimesZero(3);
    } else {
      var k := if Val(x, 0) > 0 then 0 else if Val(x, 1) > 0 then 1 else if Val(x, 2) > 0 then 2 else 3;
      var y := Down(x, k);
      DownVal(x, k);
      DownUp(x, k);
      assert Val(x, 0) == Val(y, 0) + (if 0 == k then 1 else 0) && Val(x, 1) == Val(y, 1) + (if 1 == k then 1 else 0);
      assert Val(x, 2) == Val(y, 2) + (if 2 == k then 1 else 0) && Val(x, 3) == Val(y, 3) + (if 3 == k then 1 else 0);
      TimesCounts(y);
      TimesMore(y, k);
      Raise(Times(y), k);
      var t := Times(x);
      assert Val(t, 0) == Val(Times(y), 0) + (if 0 >= k then 1 else 0)
             && Val(t, 1) == Val(Times(y), 1) + (if 1 >= k then 1 else 0);
      assert Val(t, 2) == Val(Times(y), 2) + (if 2 >= k then 1 else 0)
             && Val(t, 3) == Val(Times(y), 3) + (if 3 >= k then 1 else 0);
    }
  }

  lemma TopVal(x: bv32)
    ensures Num(Top(x)) == Val(Times(x), 3)
  {
    hide Times, Num;
  }

  /** The seven-word step counts its 28 bytes, and never more than 224. */
  lemma SevenWords(s: seq<bv8>)
    requires |s| == 28
    ensures Num(Top(SumWords(s, 7))) == Ones(s) <= 224
  {
    hide Val, Column, SumWords, Num, Top, Times;
    ColumnsCount(s, 7);
    ColumnsAreOnes(s, 7);
    assert s[..28] == s;
    TimesCounts(SumWords(s, 7));
    TopVal(SumWords(s, 7));
  }

  /** Eight words would not do: on 32 bytes of ones the same step gives zero. */
  lemma EightWordsOverflow()
    ensures var ones := Swar(0xFFFF_FFFF);
            Top(ones + ones + ones + ones + ones + ones + ones + ones) == 0
  {
  }

  /** What one turn of the fast loop adds to `bits`. */
  function CountSeven(aux1: bv32, aux2: bv32, aux3: bv32, aux4: bv32, aux5: bv32, aux6: bv32, aux7: bv32): nat {
    Num(Top(Add(Add(Add(Add(Add(Add(Swar(aux1), Swar(aux2)), Swar(aux3)), Swar(aux4)), Swar(aux5)), Swar(aux6)),
        Swar(aux7))))
  }

  lemma CountsSeven(s: seq<bv8>)
    requires |s| == 28
    ensures CountSeven(WordAt(s, 0), WordAt(s, 4), WordAt(s, 8), WordAt(s, 12),
                       WordAt(s, 16), WordAt(s, 20), WordAt(s, 24)) == Ones(s)
  {
    hide WordAt, Ones, Swar, Add, Top, Num;
    SevenWords(s);
    SumUnrolled(s);
  }

  /** redisPopcount on `count` bytes from index `from` of a memory whose first
      byte has an address congruent to `address` modulo four. */
  method RedisPopcount(mem: array<bv8>, from: nat, count: nat, address: nat) returns (bits: nat)
    requires from + count <= mem.Length
    ensures bits == Ones(mem[from..from + count])
  {
    hide OnesIn, WordAt, Ones, CountSeven;
    var p: nat, left: nat := from, count;
    bits := 0;
    NoOnes(mem[from..from]);
    while (address + p) % 4 != 0 && left > 0
      invariant from <= p && p + left == from + count
      invariant bits == Ones(mem[..][from..p])
      decreases left
    {
      OnesNext(mem[..], from, p);
      bits := bits + OnesIn(mem[p]);
      p, left := p + 1, left - 1;
    }
    while left >= 28
      invariant from <= p && p + left == from + count
      invariant bits == Ones(mem[..][from..p])
      decreases left
    {
      var aux1, aux2, aux3, aux4 := WordAt(mem[..], p), WordAt(mem[..], p + 4), WordAt(mem[..], p + 8),
          WordAt(mem[..], p + 12);
      var aux5, aux6, aux7 := WordAt(mem[..], p + 16), WordAt(mem[..], p + 20), WordAt(mem[..], p + 24);
      BlockCounts(mem[..], from, p);
      bits := bits + CountSeven(aux1, aux2, aux3, aux4, aux5, aux6, aux7);
      p, left := p + 28, left - 28;
    }
    while left > 0
      invariant from <= p && p + left == from + count
      invariant bits == Ones(mem[..][from..p])
      decreases left
    {
      OnesNext(mem[..], from, p);
      bits := bits + OnesIn(mem[p]);
      p, left := p + 1, left - 1;
    }
    assert mem[..][from..p] == mem[from..from + count];
  }

  lemma NoOnes(s: seq<bv8>)
    requires s == []
    ensures Ones(s) == 0
  {
  }

  lemma BlockCounts(s: seq<bv8>, from: nat, p: nat)
    requires from <= p && p + 28 <= |s|
    ensures Ones(s[from..p + 28]) == Ones(s[from..p])
            + CountSeven(WordAt(s, p), WordAt(s, p + 4), WordAt(s, p + 8), WordAt(s, p + 12),
                         WordAt(s, p + 16), WordAt(s, p + 20), WordAt(s, p + 24))
  {
    hide Ones, CountSeven, Pack;
    var block := s[p..p + 28];
    CountsSeven(block);
    OnesAppend(s[from..p], block);
    assert s[from..p] + block == s[from..p + 28];
    SameWords(s, p);
    hide WordAt;
  }

  lemma SameWords(s: seq<bv8>, p: nat)
    requires p + 28 <= |s|
    ensures var b := s[p..p + 28];
            && WordAt(b, 0) == WordAt(s, p) && WordAt(b, 4) == WordAt(s, p + 4) && WordAt(b, 8) == WordAt(s, p + 8)
            && WordAt(b, 12) == WordAt(s, p + 12) && WordAt(b, 16) == WordAt(s, p + 16)
            && WordAt(b, 20) == WordAt(s, p + 20) && WordAt(b, 24) == WordAt(s, p + 24)
  {
    hide Pack;
  }

  lemma SumUnrolled(s: seq<bv8>)
    requires |s| == 28
    ensures SumWords(s, 7) ==
            Add(Add(Add(Add(Add(Add(Swar(WordAt(s, 0)), Swar(WordAt(s, 4))), Swar(WordAt(s, 8))), Swar(WordAt(s, 12))),
                        Swar(WordAt(s, 16))), Swar(WordAt(s, 20))), Swar(WordAt(s, 24)))
  {
    hide Swar, WordAt, Add;
    FromZero(Swar(WordAt(s, 0)));
    SumNext(s, 0);
    SumNext(s, 1);
    SumNext(s, 2);
    SumNext(s, 3);
    SumNext(s, 4);
    SumNext(s, 5);
    SumNext(s, 6);
  }

  lemma FromZero(x: bv32)
    ensures Add(0, x) == x
  {
  }

  lemma SumNext(s: seq<bv8>, n: nat)
    requires 4 * n + 4 <= |s|
    ensures SumWords(s, n + 1) == Add(SumWords(s, n), Swar(WordAt(s, 4 * n))) && SumWords(s, 0) == 0
  {
    hide Swar, WordAt, Add;
  }
}
