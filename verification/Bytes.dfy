/** Bytes and decimal numbers as text. */
module Bytes {
  type Byte = b: int | 0 <= b < 256

  const CR: Byte := 13
  const LF: Byte := 10

  /** The bytes of a text in ASCII. */
  function Ascii(text: string): seq<Byte> {
    seq(|text|, i requires 0 <= i < |text| => text[i] as int % 128)
  }

  predicate IsDigit(b: Byte) { 48 <= b <= 57 }

  /** `isspace` in the C locale. */
  predicate IsSpace(b: Byte) { b == 32 || 9 <= b <= 13 }

  /** A number in decimal, as `ll2string` writes a non-negative one. */
  function Dec(n: nat): (s: seq<Byte>)
    ensures s != [] && forall i :: 0 <= i < |s| ==> IsDigit(s[i])
    ensures s[0] == 48 ==> n == 0
  {
    if n < 10 then [48 + n] else Dec(n / 10) + [48 + n % 10]
  }

  /** The digits at the front of a text, after the number `acc`. */
  function Digits(s: seq<Byte>, acc: nat): (r: nat)
    ensures r >= acc
  {
    if s == [] || !IsDigit(s[0]) then acc else Digits(s[1..], acc * 10 + (s[0] - 48))
  }

  /** `strtol` in base 10, for values that fit: leading spaces, a sign, digits; 0 if there are none. */
  function Strtol(s: seq<Byte>): int {
    if s == [] then 0
    else if IsSpace(s[0]) then Strtol(s[1..])
    else if s[0] == 45 then -(Digits(s[1..], 0) as int)
    else if s[0] == 43 then Digits(s[1..], 0)
    else Digits(s, 0)
  }

  function Pow10(k: nat): nat { if k == 0 then 1 else 10 * Pow10(k - 1) }

  lemma {:induction false} DigitsShift(a: seq<Byte>, b: seq<Byte>, acc: nat)
    requires forall i :: 0 <= i < |a| ==> IsDigit(a[i])
    ensures Digits(a + b, acc) == Digits(b, Digits(a, acc))
  {
    if a == [] {
      assert a + b == b;
    } else {
      assert (a + b)[1..] == a[1..] + b;
      DigitsShift(a[1..], b, acc * 10 + (a[0] - 48));
    }
  }

  /** Reading back what `Dec` wrote, up to the first byte that is not a digit. */
  lemma {:induction false} DecRoundTrip(n: nat, rest: seq<Byte>)
    requires rest == [] || !IsDigit(rest[0])
    ensures Digits(Dec(n) + rest, 0) == n
  {
    if n < 10 {
      assert (Dec(n) + rest)[1..] == rest;
    } else {
      var d: seq<Byte> := [48 + n % 10];
      assert Dec(n) + rest == Dec(n / 10) + (d + rest);
      DigitsShift(Dec(n / 10), d + rest, 0);
      DigitsShift(Dec(n / 10), [], 0);
      assert Dec(n / 10) + [] == Dec(n / 10);
      DecRoundTrip(n / 10, []);
      assert (d + rest)[1..] == rest;
    }
  }

  lemma StrtolDec(n: nat, rest: seq<Byte>)
    requires rest == [] || !IsDigit(rest[0])
    ensures Strtol(Dec(n) + rest) == n
  {
    DecRoundTrip(n, rest);
    assert (Dec(n) + rest)[0] == Dec(n)[0];
    assert IsDigit(Dec(n)[0]);
  }

  const LONG_MAX := 0x7FFF_FFFF_FFFF_FFFF
  const INT_MAX := 0x7FFF_FFFF

  /** A `long` stored in an `int`: its low 32 bits, signed. */
  function AsInt(n: int): (r: int)
    ensures 0 <= n <= INT_MAX ==> r == n
  {
    var low := n % (2 * (INT_MAX + 1));
    if low <= INT_MAX then low else low - 2 * (INT_MAX + 1)
  }

  /** `atoi`: `strtol`, which stops at the ends of `long`, and a conversion. */
  function Atoi(s: seq<Byte>): int {
    var n := Strtol(s);
    AsInt(if n > LONG_MAX then LONG_MAX else if n < -LONG_MAX - 1 then -LONG_MAX - 1 else n)
  }

  /** A cut number is no greater. */
  lemma CutSmaller(n: nat, k: nat)
    requires 0 < k <= |Dec(n)|
    ensures 0 <= Strtol(Dec(n)[..k]) <= n
  {
    var a, b := Dec(n)[..k], Dec(n)[k..];
    assert Dec(n) == a + b && a[0] == Dec(n)[0] && IsDigit(a[0]);
    DigitsShift(a, b, 0);
    DecRoundTrip(n, []);
    assert Dec(n) + [] == Dec(n);
  }

  /** A cut number is still positive: its first digit is not zero. */
  lemma StrtolCut(n: nat, k: nat)
    requires n > 0 && 0 < k <= |Dec(n)|
    ensures Strtol(Dec(n)[..k]) > 0
  {
    var s := Dec(n)[..k];
    assert s[0] == Dec(n)[0] && IsDigit(s[0]);
    assert Digits(s, 0) == Digits(s[1..], s[0] - 48);
  }

  lemma {:induction false} DecLength(n: nat, k: nat)
    requires n < Pow10(k) && k > 0
    ensures |Dec(n)| <= k
  {
    if n >= 10 {
      assert Pow10(1) == 10 * Pow10(0);
      DecLength(n / 10, k - 1);
    }
  }

  lemma Assoc(a: seq<Byte>, b: seq<Byte>, c: seq<Byte>)
    ensures (a + b) + c == a + (b + c)
  {
  }
}
