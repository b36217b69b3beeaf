/**
 BITOP (bitops.c): the byte loop, with its early exit, and the fast path that
 handles 32 bytes of every source at a time.
 */
module BitOp {

  datatype Op = And | Or | Xor | Not

  function Combine(op: Op, a: bv8, b: bv8): bv8 {
    match op
    case And => a & b
    case Or => a | b
    case Xor => a ^ b
    case Not => a
  }

  /** Byte `j` of a source, zero behind its end. */
  function At(s: seq<bv8>, j: nat): bv8 {
    if j < |s| then s[j] else 0
  }

  /** Byte `j` of the result over the first `n` sources. */
  function Fold(op: Op, src: seq<seq<bv8>>, j: nat, n: nat): bv8
    requires 0 < n <= |src|
  {
    if n == 1 then (if op == Not then !At(src[0], j) else At(src[0], j))
    else Combine(op, Fold(op, src, j, n - 1), At(src[n - 1], j))
  }

  function MaxLen(src: seq<seq<bv8>>): (m: nat)
    ensures forall i | 0 <= i < |src| :: |src[i]| <= m
    ensures m == 0 || exists i :: 0 <= i < |src| && |src[i]| == m
  {
    if src == [] then 0 else
      var m := MaxLen(src[1..]);
      assert src == [src[0]] + src[1..];
      if |src[0]| > m then |src[0]| else m
  }

  /** The byte that no further source can change. */
  predicate Settled(op: Op, b: bv8) {
    (op == And && b == 0) || (op == Or && b == 0xff)
  }

  lemma SettledStays(op: Op, a: bv8, b: bv8)
    requires Settled(op, a)
    ensures Combine(op, a, b) == a
  {
  }

  lemma {:induction false} SettledFold(op: Op, src: seq<seq<bv8>>, j: nat, m: nat, n: nat)
    requires 0 < m <= n <= |src| && Settled(op, Fold(op, src, j, m))
    ensures Fold(op, src, j, n) == Fold(op, src, j, m)
    decreases n
  {
    if m < n {
      SettledFold(op, src, j, m, n - 1);
      SettledStays(op, Fold(op, src, j, n - 1), At(src[n - 1], j));
    }
  }

  /** The byte loop for one byte: leaving early skips only sources that change
      nothing. */
  method OneByte(op: Op, src: seq<seq<bv8>>, j: nat) returns (output: bv8)
    requires src != []
    ensures output == Fold(op, src, j, |src|)
  {
    output := At(src[0], j);
    if op == Not {
      output := !output;
    }
    for i := 1 to |src|
      invariant output == Fold(op, src, j, i)
    {
      output := Combine(op, output, At(src[i], j));
      if Settled(op, output) {
        SettledFold(op, src, j, i + 1, |src|);
        return;
      }
    }
  }

  // ------------------------------------------------------------------
  // Words
  // ------------------------------------------------------------------

  function CombineWords(op: Op, a: bv64, b: bv64): bv64 {
    match op
    case And => a & b
    case Or => a | b
    case Xor => a ^ b
    case Not => a
  }

  function Invert(w: bv64): bv64 {
    !w
  }

  function Low(w: bv64): bv8 {
    (w & 0xff) as bv8
  }

  function Above(w: bv64): bv64 {
    w >> 8
  }

  function Put(b: bv8, w: bv64): bv64 {
    b as bv64 | (w << 8)
  }

  /** A word without its lowest `k` bytes. */
  function Shifted(w: bv64, k: nat): bv64 {
    if k == 0 then w else Shifted(Above(w), k - 1)
  }

  /** Byte `k` of a word, the lowest first. */
  function ByteOf(w: bv64, k: nat): bv8 {
    Low(Shifted(w, k))
  }

  /** The word in some bytes. */
  function Pack(s: seq<bv8>): bv64 {
    if s == [] then 0 else Put(s[0], Pack(s[1..]))
  }

  function Word(s: seq<bv8>, at: nat): bv64
    requires at + 8 <= |s|
  {
    Pack(s[at..at + 8])
  }

  lemma LowAnd(a: bv64, b: bv64)
    ensures Low(a & b) == Low(a) & Low(b)
  {
  }

  lemma LowOr(a: bv64, b: bv64)
    ensures Low(a | b) == Low(a) | Low(b)
  {
  }

  lemma LowXor(a: bv64, b: bv64)
    ensures Low(a ^ b) == Low(a) ^ Low(b)
  {
  }

  lemma AboveAnd(a: bv64, b: bv64)
    ensures Above(a & b) == Above(a) & Above(b)
  {
  }

  lemma AboveOr(a: bv64, b: bv64)
    ensures Above(a | b) == Above(a) | Above(b)
  {
  }

  lemma AboveXor(a: bv64, b: bv64)
    ensures Above(a ^ b) == Above(a) ^ Above(b)
  {
  }

  lemma LowFacts(op: Op, a: bv64, b: bv64)
    ensures Low(CombineWords(op, a, b)) == Combine(op, Low(a), Low(b))
  {
    hide Low;
    LowAnd(a, b);
    LowOr(a, b);
    LowXor(a, b);
  }

  lemma AboveFacts(op: Op, a: bv64, b: bv64)
    ensures Above(CombineWords(op, a, b)) == CombineWords(op, Above(a), Above(b))
  {
    hide Above;
    AboveAnd(a, b);
    AboveOr(a, b);
    AboveXor(a, b);
  }

  lemma PutLow(b: bv8, w: bv64)
    ensures Low(Put(b, w)) == b
  {
  }

  lemma PutAbove(b: bv8, w: bv64)
    requires Shifted(w, 7) == 0
    ensures Above(Put(b, w)) == w
  {
    ShiftedSeven(w);
  }

  lemma ShiftedSeven(w: bv64)
    ensures Shifted(w, 7) == w >> 56
  {
    ShiftedThrice(w, 4);
    ShiftedThrice(Above(Above(Above(w))), 1);
    SevenAbove(w);
    hide Above;
  }

  lemma ShiftedThrice(w: bv64, k: nat)
    ensures Shifted(w, k + 3) == Shifted(Above(Above(Above(w))), k)
  {
    hide Above;
    var v := Above(w);
    assert Shifted(w, k + 3) == Shifted(v, k + 2);
    assert Shifted(v, k + 2) == Shifted(Above(v), k + 1);
  }

  lemma SevenAbove(w: bv64)
    ensures Above(Above(Above(Above(Above(Above(Above(w))))))) == w >> 56
  {
  }

  lemma {:induction false} NothingAbove(k: nat)
    ensures Shifted(0, k) == 0
  {
    if k > 0 {
      assert Above(0) == 0;
      NothingAbove(k - 1);
    }
  }

  lemma {:induction false} ShiftedMore(w: bv64, k: nat, m: nat)
    requires k <= m && Shifted(w, k) == 0
    ensures Shifted(w, m) == 0
    decreases k
  {
    hide Above;
    if k == 0 {
      NothingAbove(m);
    } else {
      ShiftedMore(Above(w), k - 1, m - 1);
    }
  }

  lemma {:induction false} PackFits(s: seq<bv8>)
    requires |s| <= 8
    ensures Shifted(Pack(s), |s|) == 0
    ensures s != [] ==> Above(Pack(s)) == Pack(s[1..])
  {
    hide Above, Put;
    if s != [] {
      PackFits(s[1..]);
      ShiftedMore(Pack(s[1..]), |s| - 1, 7);
      PutAbove(s[0], Pack(s[1..]));
    }
  }

  lemma {:induction false} PackBytes(s: seq<bv8>, k: nat)
    requires k < |s| <= 8
    ensures ByteOf(Pack(s), k) == s[k]
  {
    hide Above, Put, Low;
    PackFits(s);
    if k == 0 {
      PutLow(s[0], Pack(s[1..]));
    } else {
      PackBytes(s[1..], k - 1);
    }
  }

  lemma WordBytes(s: seq<bv8>, at: nat, k: nat)
    requires at + 8 <= |s| && k < 8
    ensures ByteOf(Word(s, at), k) == s[at + k]
  {
    hide ByteOf, Pack;
    PackBytes(s[at..at + 8], k);
  }

  /** A bitwise operation on words is one on each of their bytes. */
  lemma {:induction false} CombinedBytes(op: Op, a: bv64, b: bv64, k: nat)
    ensures ByteOf(CombineWords(op, a, b), k) == Combine(op, ByteOf(a, k), ByteOf(b, k))
    decreases k
  {
    hide Above, Low, CombineWords, Combine;
    if k == 0 {
      LowFacts(op, a, b);
    } else {
      AboveFacts(op, a, b);
      CombinedBytes(op, Above(a), Above(b), k - 1);
    }
  }

  /** `n` bytes of ones. */
  function Full(n: nat): seq<bv8> {
    if n == 0 then [] else [0xff] + Full(n - 1)
  }

  lemma {:induction false} FullIs(n: nat)
    ensures |Full(n)| == n && forall k | 0 <= k < n :: Full(n)[k] == 0xff
  {
    if n > 0 {
      FullIs(n - 1);
    }
  }

  lemma PackedFull(n: nat)
    requires n > 0
    ensures Pack(Full(n)) == Put(0xff, Pack(Full(n - 1)))
  {
    assert Full(n)[1..] == Full(n - 1);
  }

  lemma Ones()
    ensures Pack(Full(8)) == 0xffff_ffff_ffff_ffff
  {
    PackedFull(1);
    PackedFull(2);
    PackedFull(3);
    PackedFull(4);
    PackedFull(5);
    PackedFull(6);
    PackedFull(7);
    PackedFull(8);
    assert Pack(Full(0)) == 0;
    hide Pack, Full;
  }

  lemma InvertIsXor(a: bv64)
    ensures Invert(a) == CombineWords(Xor, a, 0xffff_ffff_ffff_ffff)
  {
  }

  lemma InvertedByte(b: bv8)
    ensures Combine(Xor, b, 0xff) == !b
  {
  }

  lemma InvertedBytes(a: bv64, k: nat)
    requires k < 8
    ensures ByteOf(Invert(a), k) == !ByteOf(a, k)
  {
    hide ByteOf, Pack, Full, Invert, CombineWords, Combine;
    Ones();
    FullIs(8);
    InvertIsXor(a);
    CombinedBytes(Xor, a, Pack(Full(8)), k);
    PackBytes(Full(8), k);
    InvertedByte(ByteOf(a, k));
  }

  method StoreWord(res: array<bv8>, at: nat, w: bv64)
    requires at + 8 <= res.Length
    modifies res
    ensures forall k | 0 <= k < res.Length :: res[k] == if at <= k < at + 8 then ByteOf(w, k - at) else old(res[k])
  {
    hide ByteOf;
    for k := 0 to 8
      invariant forall i | 0 <= i < res.Length :: res[i] == if at <= i < at + k then ByteOf(w, i - at) else old(res[i])
    {
      res[at + k] := ByteOf(w, k);
    }
  }

  /** One source combined into 32 bytes of the result, as four words. */
  method CombineBlock(op: Op, res: array<bv8>, at: nat, s: seq<bv8>)
    requires at + 32 <= res.Length && at + 32 <= |s|
    modifies res
    ensures forall k | 0 <= k < res.Length ::
              res[k] == if at <= k < at + 32 then Combine(op, old(res[k]), s[k]) else old(res[k])
  {
    hide ByteOf, Word, Combine, CombineWords;
    for i := 0 to 4
      invariant forall k | 0 <= k < res.Length ::
                  res[k] == if at <= k < at + 8 * i then Combine(op, old(res[k]), s[k]) else old(res[k])
    {
      var here := at + 8 * i;
      var w, v := Word(res[..], here), Word(s, here);
      forall k | here <= k < here + 8
        ensures ByteOf(CombineWords(op, w, v), k - here) == Combine(op, res[k], s[k])
      {
        CombinedBytes(op, w, v, k - here);
        WordBytes(res[..], here, k - here);
        WordBytes(s, here, k - here);
      }
      StoreWord(res, here, CombineWords(op, w, v));
    }
  }

  method InvertBlock(res: array<bv8>, at: nat)
    requires at + 32 <= res.Length
    modifies res
    ensures forall k | 0 <= k < res.Length :: res[k] == if at <= k < at + 32 then !old(res[k]) else old(res[k])
  {
    hide ByteOf, Word, Invert;
    for i := 0 to 4
      invariant forall k | 0 <= k < res.Length ::
                  res[k] == if at <= k < at + 8 * i then !old(res[k]) else old(res[k])
    {
      var here := at + 8 * i;
      var w := Word(res[..], here);
      forall k | here <= k < here + 8
        ensures ByteOf(Invert(w), k - here) == !res[k]
      {
        InvertedBytes(w, k - here);
        WordBytes(res[..], here, k - here);
      }
      StoreWord(res, here, Invert(w));
    }
  }

  /** The fast path: `minlen` bytes of the first source are copied, and as many
      blocks of 32 bytes as all sources have are combined. */
  method FastPath(op: Op, src: seq<seq<bv8>>, minlen: nat, res: array<bv8>) returns (j: nat)
    requires src != [] && (op == Not ==> |src| == 1)
    requires minlen <= res.Length && forall i | 0 <= i < |src| :: minlen <= |src[i]|
    modifies res
    ensures j <= minlen
    ensures forall k | 0 <= k < j :: res[k] == Fold(op, src, k, |src|)
  {
    forall k | 0 <= k < minlen {
      res[k] := src[0][k];
    }
    j := 0;
    while minlen - j >= 32
      invariant j <= minlen
      invariant forall k | 0 <= k < j :: res[k] == Fold(op, src, k, |src|)
      invariant forall k | j <= k < minlen :: res[k] == src[0][k]
      decreases minlen - j
    {
      if op == Not {
        InvertBlock(res, j);
      } else {
        OneBlock(op, src, minlen, res, j);
      }
      j := j + 32;
    }
  }

  method OneBlock(op: Op, src: seq<seq<bv8>>, minlen: nat, res: array<bv8>, j: nat)
    requires src != [] && op != Not && j + 32 <= minlen
    requires minlen <= res.Length && forall i | 0 <= i < |src| :: minlen <= |src[i]|
    requires forall k | j <= k < j + 32 :: res[k] == src[0][k]
    modifies res
    ensures forall k | j <= k < j + 32 :: res[k] == Fold(op, src, k, |src|)
    ensures forall k | 0 <= k < res.Length && (k < j || k >= j + 32) :: res[k] == old(res[k])
  {
    hide Combine;
    for i := 1 to |src|
      invariant forall k | j <= k < j + 32 :: res[k] == Fold(op, src, k, i)
      invariant forall k | 0 <= k < res.Length && (k < j || k >= j + 32) :: res[k] == old(res[k])
    {
      CombineBlock(op, res, j, src[i]);
    }
  }

  /** The computation of bitopCommand for the values of the source keys, a missing
      key being None.  With or without the fast path every byte is the fold of
      the sources, padded with zeros, and the result is as long as the longest
      one; None is an empty result, for which the target key is deleted. */
  method Compute(op: Op, src: seq<seq<bv8>>, missing: seq<bool>, aligned: bool) returns (res: seq<bv8>)
    requires src != [] && (op == Not ==> |src| == 1)
    requires |missing| == |src| && forall i | 0 <= i < |src| && missing[i] :: src[i] == []
    ensures |res| == MaxLen(src)
    ensures forall j | 0 <= j < |res| :: res[j] == Fold(op, src, j, |src|)
  {
    var maxlen: nat, minlen: nat := 0, 0;
    for j := 0 to |src|
      invariant forall i | 0 <= i < j :: |src[i]| <= maxlen && minlen <= |src[i]|
      invariant maxlen == 0 || exists i :: 0 <= i < j && |src[i]| == maxlen
      invariant j == 0 ==> minlen == 0
    {
      if missing[j] {
        minlen := 0;
        continue;
      }
      if |src[j]| > maxlen {
        maxlen := |src[j]|;
      }
      if j == 0 || |src[j]| < minlen {
        minlen := |src[j]|;
      }
    }
    assert maxlen == MaxLen(src);
    if maxlen == 0 {
      return [];
    }
    var out := new bv8[maxlen](_ => 0);
    var at: nat := 0;
    if !aligned && minlen >= 32 && |src| <= 16 {
      at := FastPath(op, src, minlen, out);
    }
    for j := at to maxlen
      invariant forall k | 0 <= k < j :: out[k] == Fold(op, src, k, |src|)
    {
      out[j] := OneByte(op, src, j);
    }
    res := out[..];
  }
}
