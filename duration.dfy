/**
 * `format_duration`: a number of seconds rendered as "D-HH:MM:SS", with the
 * days, hours and minutes fields left out while they are zero. The same
 * function appears three times in the repository, character for character
 * (the progress bar header, the fancy progress bar header and the older
 * logger header); this one model stands for all three.
 */
module Duration {
  import opened Text

  /** The `uint64_t` the input is cast to. */
  type U64 = n: int | 0 <= n < 0x1_0000_0000_0000_0000

  datatype Dhms = Dhms(days: nat, hours: nat, minutes: nat, seconds: nat)

  /**
   * The straight-line split of the input into days, hours, minutes and
   * seconds: each step only runs when the remaining seconds reach its unit.
   */
  function Decompose(n: U64): (d: Dhms)
    ensures d.days == n / 86400
    ensures d.hours < 24 && d.minutes < 60 && d.seconds < 60
    ensures d.days * 86400 + d.hours * 3600 + d.minutes * 60 + d.seconds == n
  {
    var days := if n >= 86400 then n / 86400 else 0;
    var s1 := if n >= 86400 then n - days * 86400 else n;
    var hours := if s1 >= 3600 then s1 / 3600 else 0;
    var s2 := if s1 >= 3600 then s1 - hours * 3600 else s1;
    var minutes := if s2 >= 60 then s2 / 60 else 0;
    var s3 := if s2 >= 60 then s2 - minutes * 60 else s2;
    Dhms(days, hours, minutes, s3)
  }

  /** `setfill('0') << setw(2) << v`: the decimal text, left-padded with '0' to width 2. */
  function Setw2(v: nat): (r: string)
    ensures |r| >= 2 && AllDigits(r)
  {
    var s := NatToString(v);
    if |s| < 2 then "0" + s else s
  }

  /** A field followed by its separator, or nothing when the field is zero. */
  function Field(v: nat, sep: char): string {
    if v > 0 then Setw2(v) + [sep] else ""
  }

  function FormatDuration(n: U64): (r: string)
    ensures |r| >= 2
  {
    var d := Decompose(n);
    Field(d.days, '-') + Field(d.hours, ':') + Field(d.minutes, ':') + Setw2(d.seconds)
  }

  // ---------------------------------------------------------------------------
  // Reading the text back
  // ---------------------------------------------------------------------------

  lemma {:induction false} LeadingZero(s: string)
    requires AllDigits(s)
    ensures AllDigits("0" + s) && ParseDigits("0" + s) == ParseDigits(s)
    decreases |s|
  {
    if s != [] {
      var z := "0" + s;
      assert z[..|z| - 1] == "0" + s[..|s| - 1];
      LeadingZero(s[..|s| - 1]);
    } else {
      assert ParseDigits("0") == 10 * ParseDigits([]) + 0;
    }
  }

  /**
   * The padded field reads back as the value, is never truncated (a value of
   * 10 or more is printed in full), and has exactly two digits below 100.
   */
  lemma Setw2RoundTrip(v: nat)
    ensures ParseDigits(Setw2(v)) == v
    ensures v >= 10 ==> Setw2(v) == NatToString(v)
    ensures v < 100 ==> |Setw2(v)| == 2
  {
    ParseNatToString(v);
    if v < 10 {
      LeadingZero(NatToString(v));
    } else if v < 100 {
      NatToStringLength(v, 1);
    } else {
      var k: nat := 2;
      while Pow10(k + 1) <= v
        invariant 2 <= k && Pow10(k) <= v
        decreases v - Pow10(k)
      {
        k := k + 1;
      }
      NatToStringLength(v, k);
    }
  }

  predicate IsSep(c: char) {
    c == '-' || c == ':'
  }

  /** The digit groups of a rendered duration, split at every '-' and ':'. */
  function Split(s: string): (r: seq<string>)
    ensures |r| >= 1
  {
    if s == [] then [[]]
    else if IsSep(s[0]) then [[]] + Split(s[1..])
    else var rest := Split(s[1..]); [[s[0]] + rest[0]] + rest[1..]
  }

  /** The separators of a rendered duration, in order. */
  function Separators(s: string): (r: string)
    ensures forall c :: c in r ==> IsSep(c)
  {
    if s == [] then []
    else if IsSep(s[0]) then [s[0]] + Separators(s[1..])
    else Separators(s[1..])
  }

  lemma {:induction false} SplitDigits(a: string, b: string)
    requires AllDigits(a)
    ensures Split(a + b) == [a + Split(b)[0]] + Split(b)[1..]
    ensures Separators(a + b) == Separators(b)
    decreases |a|
  {
    if a == [] {
      assert a + b == b;
      assert a + Split(b)[0] == Split(b)[0];
      assert [Split(b)[0]] + Split(b)[1..] == Split(b);
    } else {
      assert (a + b)[1..] == a[1..] + b;
      SplitDigits(a[1..], b);
      assert [a[0]] + (a[1..] + Split(b)[0]) == a + Split(b)[0];
    }
  }

  /** Splitting after a field yields the field's text, then what follows. */
  lemma SplitField(v: nat, sep: char, rest: string)
    requires IsSep(sep)
    ensures Split(Field(v, sep) + rest) == (if v > 0 then [Setw2(v)] else []) + Split(rest)
    ensures Separators(Field(v, sep) + rest) == (if v > 0 then [sep] else []) + Separators(rest)
  {
    if v > 0 {
      var tail := [sep] + rest;
      assert Field(v, sep) + rest == Setw2(v) + tail;
      SplitDigits(Setw2(v), tail);
      assert tail[1..] == rest;
      assert Split(tail) == [[]] + Split(rest);
      assert Setw2(v) + Split(tail)[0] == Setw2(v);
    } else {
      assert Field(v, sep) + rest == rest;
    }
  }

  /** The fields that are printed: days, hours and minutes when non-zero, seconds always. */
  function Present(n: U64): (fs: seq<nat>)
    ensures |fs| >= 1 && fs[|fs| - 1] == n % 60
  {
    var d := Decompose(n);
    Nonzero(d.days) + Nonzero(d.hours) + Nonzero(d.minutes) + [d.seconds]
  }

  function Nonzero(v: nat): seq<nat> {
    if v > 0 then [v] else []
  }

  function NonzeroText(v: nat): seq<string> {
    if v > 0 then [Setw2(v)] else []
  }

  /**
   * The rendered text consists of exactly the present fields, in the order
   * days, hours, minutes, seconds, each padded to at least two digits and
   * reading back as its value, joined by '-' after the days and ':' after
   * the hours and the minutes.
   */
  lemma FormatDurationFields(n: U64)
    ensures var r, fs, d := FormatDuration(n), Present(n), Decompose(n);
      && |Split(r)| == |fs|
      && (forall i :: 0 <= i < |fs| ==>
            Split(r)[i] == Setw2(fs[i]) && AllDigits(Split(r)[i]) && ParseDigits(Split(r)[i]) == fs[i])
      && Separators(r) == (if d.days > 0 then "-" else "")
                          + (if d.hours > 0 then ":" else "")
                          + (if d.minutes > 0 then ":" else "")
  {
    var d := Decompose(n);
    JoinFields(d.days, d.hours, d.minutes, d.seconds);
    JoinSeparators(d.days, d.hours, d.minutes, d.seconds);
    TextsOfFields(d.days, d.hours, d.minutes, d.seconds);
    forall i | 0 <= i < |Present(n)|
      ensures ParseDigits(Setw2(Present(n)[i])) == Present(n)[i]
    {
      Setw2RoundTrip(Present(n)[i]);
    }
  }

  lemma JoinFields(dd: nat, hh: nat, mm: nat, ss: nat)
    ensures Split(Field(dd, '-') + Field(hh, ':') + Field(mm, ':') + Setw2(ss))
         == NonzeroText(dd) + NonzeroText(hh) + NonzeroText(mm) + [Setw2(ss)]
  {
    JoinSteps(dd, hh, mm, ss);
    var s := Setw2(ss);
    SplitField(mm, ':', s);
    SplitField(hh, ':', Field(mm, ':') + s);
    SplitField(dd, '-', Field(hh, ':') + (Field(mm, ':') + s));
  }

  lemma JoinSeparators(dd: nat, hh: nat, mm: nat, ss: nat)
    ensures Separators(Field(dd, '-') + Field(hh, ':') + Field(mm, ':') + Setw2(ss))
         == (if dd > 0 then "-" else "") + (if hh > 0 then ":" else "") + (if mm > 0 then ":" else "")
  {
    JoinSteps(dd, hh, mm, ss);
    var s := Setw2(ss);
    SplitField(mm, ':', s);
    SplitField(hh, ':', Field(mm, ':') + s);
    SplitField(dd, '-', Field(hh, ':') + (Field(mm, ':') + s));
  }

  lemma JoinSteps(dd: nat, hh: nat, mm: nat, ss: nat)
    ensures var s := Setw2(ss);
      && Split(s) == [s] && Separators(s) == []
      && Field(dd, '-') + Field(hh, ':') + Field(mm, ':') + s
         == Field(dd, '-') + (Field(hh, ':') + (Field(mm, ':') + s))
  {
    var s := Setw2(ss);
    SplitDigits(s, []);
    assert s + [] == s;
  }

  lemma TextsOfFields(dd: nat, hh: nat, mm: nat, ss: nat)
    ensures var fs, ts := Nonzero(dd) + Nonzero(hh) + Nonzero(mm) + [ss],
                          NonzeroText(dd) + NonzeroText(hh) + NonzeroText(mm) + [Setw2(ss)];
      && |ts| == |fs|
      && forall i :: 0 <= i < |fs| ==> ts[i] == Setw2(fs[i])
  {
  }

  /** The last two characters are always the seconds, and read back as n mod 60. */
  lemma FormatDurationSeconds(n: U64)
    ensures var r := FormatDuration(n);
      && r[|r| - 2..] == Setw2(n % 60)
      && AllDigits(r[|r| - 2..]) && ParseDigits(r[|r| - 2..]) == n % 60
  {
    var d := Decompose(n);
    Setw2RoundTrip(d.seconds);
    LastTwo(Field(d.days, '-') + Field(d.hours, ':') + Field(d.minutes, ':'), Setw2(d.seconds));
  }

  lemma LastTwo(head: string, tail: string)
    requires |tail| == 2
    ensures (head + tail)[|head + tail| - 2..] == tail
  {
  }

  /** Below one minute the text is exactly the two digits of the seconds. */
  lemma FormatDurationUnderMinute(n: U64)
    requires n < 60
    ensures FormatDuration(n) == [DigitChar(n / 10), DigitChar(n % 10)]
  {
    var d := Decompose(n);
    assert d == Dhms(0, 0, 0, n);
    Setw2RoundTrip(n);
    if n < 10 {
      assert Setw2(n) == "0" + [DigitChar(n)];
    } else {
      assert NatToString(n) == NatToString(n / 10) + [DigitChar(n % 10)];
    }
  }

  /**
   * Dropping zero fields makes the rendering ambiguous: one minute and one
   * hour both print as "01:00", so the text cannot be parsed back into a
   * number of seconds.
   */
  lemma FormatDurationNotInjective()
    ensures FormatDuration(60) == FormatDuration(3600) == "01:00"
  {
    assert Decompose(60) == Dhms(0, 0, 1, 0);
    assert Decompose(3600) == Dhms(0, 1, 0, 0);
    assert Setw2(1) == "01";
    assert Setw2(0) == "00";
  }
}
