/**
 Decimal numbers as the C library prints and reads them, on bytes.
 */
module Decimal {

  newtype byte = x: int | 0 <= x < 256

  type bytes = seq<byte>

  predicate IsDigit(b: byte) {
    48 <= b <= 57
  }

  /** The bytes of an ASCII string literal. */
  function Ascii(s: string): bytes
    requires forall i | 0 <= i < |s| :: s[i] < 128 as char
  {
    seq(|s|, i requires 0 <= i < |s| => s[i] as int as byte)
  }

  /** `%i` of a number that is not negative; ll2string. */
  function Print(n: nat): (r: bytes)
    ensures |r| > 0 && forall i | 0 <= i < |r| :: IsDigit(r[i])
  {
    var last := (48 + n % 10) as byte;
    if n < 10 then [last] else Print(n / 10) + [last]
  }

  /** The value of a string of digits. */
  function Value(s: bytes): nat
    requires forall i | 0 <= i < |s| :: IsDigit(s[i])
  {
    if s == [] then 0 else
      assert IsDigit(s[|s| - 1]);
      10 * Value(s[..|s| - 1]) + (s[|s| - 1] as int - 48)
  }

  /** The length of the leading run of digits. */
  function DigitRun(s: bytes): (k: nat)
    ensures k <= |s| && forall i | 0 <= i < k :: IsDigit(s[i])
    ensures k < |s| ==> !IsDigit(s[k])
  {
    if s == [] || !IsDigit(s[0]) then 0 else 1 + DigitRun(s[1..])
  }

  predicate IsSpace(b: byte) {
    b == 32 || 9 <= b <= 13
  }

  /** atoi and strtol in base ten: white space, a sign, then digits as far as
      they go; the text that stands after them, if any, is ignored. */
  function Atoi(s: bytes): int
    decreases |s|
  {
    if s != [] && IsSpace(s[0]) then Atoi(s[1..])
    else if s != [] && s[0] == 45 then 0 - Value(s[1..][..DigitRun(s[1..])])
    else if s != [] && s[0] == 43 then Value(s[1..][..DigitRun(s[1..])])
    else Value(s[..DigitRun(s)])
  }

  lemma {:induction false} PrintValue(n: nat)
    ensures Value(Print(n)) == n
  {
    if n >= 10 {
      PrintValue(n / 10);
      assert Print(n)[..|Print(n)| - 1] == Print(n / 10);
    } else {
      assert Print(n)[..0] == [];
    }
  }

  lemma {:induction false} DigitRunIs(s: bytes, t: bytes)
    requires forall i | 0 <= i < |s| :: IsDigit(s[i])
    requires t == [] || !IsDigit(t[0])
    ensures DigitRun(s + t) == |s|
  {
    if s == [] {
      assert s + t == t;
    } else {
      assert (s + t)[1..] == s[1..] + t;
      DigitRunIs(s[1..], t);
    }
  }

  /** Reading back a printed number, whatever follows it. */
  lemma AtoiPrint(n: nat, t: bytes)
    requires t == [] || !IsDigit(t[0])
    ensures Atoi(Print(n) + t) == n
  {
    var s := Print(n) + t;
    DigitRunIs(Print(n), t);
    assert s[..|Print(n)|] == Print(n);
    PrintValue(n);
    assert s[0] == Print(n)[0];
  }

  /** A proper prefix of a printed number reads as a smaller or equal one. */
  lemma {:induction false} ValuePrefix(s: bytes, k: nat)
    requires k <= |s| && forall i | 0 <= i < |s| :: IsDigit(s[i])
    ensures Value(s[..k]) <= Value(s)
  {
    if k < |s| {
      ValuePrefix(s[..|s| - 1], k);
      assert s[..|s| - 1][..k] == s[..k];
    } else {
      assert s[..k] == s;
    }
  }

  function Pow10(k: nat): nat {
    if k == 0 then 1 else 10 * Pow10(k - 1)
  }

  /** The number of digits of a number below a power of ten. */
  lemma {:induction false} PrintLength(n: nat, k: nat)
    requires k > 0 && n < Pow10(k)
    ensures |Print(n)| <= k
  {
    if n >= 10 {
      PrintLength(n / 10, k - 1);
    }
  }
}
