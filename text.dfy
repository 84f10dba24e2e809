/**
 * Decimal text and substring search, as the C++ standard library provides
 * them to the logger: `std::to_string` / `operator<<` on integers, and
 * `std::string::find` / `std::find` returning the first match.
 */
module Text {

  datatype Option<+T> = None | Some(value: T)

  predicate IsDigit(c: char) {
    '0' <= c <= '9'
  }

  predicate AllDigits(s: string) {
    forall i :: 0 <= i < |s| ==> IsDigit(s[i])
  }

  function DigitChar(d: nat): (c: char)
    requires d < 10
    ensures IsDigit(c) && DigitValue(c) == d
  {
    ('0' as int + d) as char
  }

  function DigitValue(c: char): nat
    requires IsDigit(c)
  {
    c as int - '0' as int
  }

  function Pow10(k: nat): (p: nat)
    ensures p >= 1
  {
    if k == 0 then 1 else 10 * Pow10(k - 1)
  }

  /** The decimal text of a natural number, without sign or leading zeros. */
  function NatToString(n: nat): (r: string)
    ensures |r| >= 1 && AllDigits(r)
    ensures r[0] == '0' ==> n == 0
    decreases n
  {
    if n < 10 then [DigitChar(n)] else NatToString(n / 10) + [DigitChar(n % 10)]
  }

  /** `std::to_string` of a signed integer: a minus sign, then the digits of the magnitude. */
  function IntToString(i: int): (r: string)
    ensures forall c :: c in r ==> IsDigit(c) || c == '-'
    ensures i >= 0 ==> r == NatToString(i)
  {
    if i < 0 then "-" + NatToString(-i) else NatToString(i)
  }

  /** The value of a string of decimal digits (the inverse of NatToString). */
  function ParseDigits(s: string): nat
    requires AllDigits(s)
  {
    if s == [] then 0 else 10 * ParseDigits(s[..|s| - 1]) + DigitValue(s[|s| - 1])
  }

  /** Reading back the printed digits gives the number that was printed. */
  lemma {:induction false} ParseNatToString(n: nat)
    ensures ParseDigits(NatToString(n)) == n
    decreases n
  {
    if n >= 10 {
      var r := NatToString(n);
      assert r[..|r| - 1] == NatToString(n / 10);
      ParseNatToString(n / 10);
    }
  }

  /** A number with k + 1 decimal digits (0 counting as one digit) prints as exactly k + 1 characters. */
  lemma {:induction false} NatToStringLength(n: nat, k: nat)
    requires (k == 0 || Pow10(k) <= n) && n < Pow10(k + 1)
    ensures |NatToString(n)| == k + 1
    decreases k
  {
    if k > 0 {
      assert n >= 10;
      NatToStringLength(n / 10, k - 1);
    }
  }

  /** Two different numbers never print the same text. */
  lemma NatToStringInjective(m: nat, n: nat)
    requires NatToString(m) == NatToString(n)
    ensures m == n
  {
    ParseNatToString(m);
    ParseNatToString(n);
  }

  /** Regrouping a concatenation (stated once, used where the solver would search for it). */
  lemma AppendAssoc<T>(a: seq<T>, b: seq<T>, c: seq<T>)
    ensures a + b + c == a + (b + c)
  {
  }

  // ---------------------------------------------------------------------------
  // Substring search (`std::string::find`)
  // ---------------------------------------------------------------------------

  predicate OccursAt(s: string, t: string, j: nat) {
    j + |t| <= |s| && s[j..j + |t|] == t
  }

  /** The first position at or after `from` where `t` occurs in `s`, or None (`npos`). */
  function FindFrom(s: string, t: string, from: nat): (r: Option<nat>)
    ensures r.Some? ==> from <= r.value && OccursAt(s, t, r.value)
    ensures r.Some? ==> forall j :: from <= j < r.value ==> !OccursAt(s, t, j)
    ensures r.None? ==> forall j :: from <= j ==> !OccursAt(s, t, j)
    decreases |s| - from
  {
    if from + |t| > |s| then None
    else if s[from..from + |t|] == t then Some(from)
    else FindFrom(s, t, from + 1)
  }

  /** `s.find(t)`: the first occurrence of `t` in `s`. */
  function Find(s: string, t: string): (r: Option<nat>)
    ensures r.Some? <==> exists j :: OccursAt(s, t, j)
  {
    FindFrom(s, t, 0)
  }

  /** A string never contains a pattern whose first character it does not contain. */
  lemma NotFoundWithoutFirstChar(s: string, t: string)
    requires |t| > 0 && t[0] !in s
    ensures Find(s, t).None?
  {
    forall j: nat | j + |t| <= |s|
      ensures !OccursAt(s, t, j)
    {
      assert s[j..j + |t|][0] == s[j];
    }
  }

  /** A pattern is found in any string that ends with it. */
  lemma FoundAtEnd(s: string, t: string)
    ensures Find(s + t, t).Some?
  {
    assert OccursAt(s + t, t, |s|);
  }

  // ---------------------------------------------------------------------------
  // Element search (`std::find` over a vector)
  // ---------------------------------------------------------------------------

  /** The index of the first element of `xs` equal to `x`, or None (the end iterator). */
  function FindFirst<T(==)>(xs: seq<T>, x: T): (r: Option<nat>)
    ensures r.Some? ==> r.value < |xs| && xs[r.value] == x
    ensures r.Some? ==> forall j :: 0 <= j < r.value ==> xs[j] != x
    ensures r.None? <==> x !in xs
  {
    if xs == [] then None
    else if xs[0] == x then Some(0)
    else match FindFirst(xs[1..], x)
      case None => None
      case Some(i) => Some(i + 1)
  }
}
