/**
 * The time prefix both logger revisions put in front of a line, built from the
 * broken-down local time (`struct tm`) that `localtime` returns. The clock is
 * read by the caller; here the `tm` fields are plain integers.
 */
module Stamp {
  import opened Text
  import opened Ansi

  /** The fields of a C `struct tm` the logger prints (`tm_mon` counts from 0, `tm_year` from 1900). */
  datatype Tm = Tm(sec: int, min: int, hour: int, mday: int, mon: int, year: int)

  /** The ranges `localtime` produces, for a year with four digits. */
  predicate ValidTm(t: Tm) {
    && 0 <= t.sec <= 60
    && 0 <= t.min <= 59
    && 0 <= t.hour <= 23
    && 1 <= t.mday <= 31
    && 0 <= t.mon <= 11
    && 1000 <= t.year + 1900 <= 9999
  }

  /** `to_string(v)`, with "0" put in front when `v < 10`. */
  function TwoDigit(v: int): (r: string)
    ensures '_' !in r && Esc !in r
  {
    if v < 10 then "0" + IntToString(v) else IntToString(v)
  }

  /** Every field in 0..99 prints as exactly two digits that read back as the field. */
  lemma TwoDigitRoundTrip(v: int)
    requires 0 <= v < 100
    ensures var r := TwoDigit(v); |r| == 2 && AllDigits(r) && ParseDigits(r) == v
  {
    var r := TwoDigit(v);
    if v < 10 {
      assert r[..1] == "0";
      assert ParseDigits("0") == 10 * ParseDigits([]) + 0;
    } else {
      NatToStringLength(v, 1);
      ParseNatToString(v);
    }
  }

  /** The year as `to_string(tm_year + 1900)`, never padded. */
  function YearText(t: Tm): (r: string)
    ensures '_' !in r && Esc !in r
  {
    IntToString(t.year + 1900)
  }

  /** A year with four digits prints as four digits that read back as the year. */
  lemma YearTextRoundTrip(t: Tm)
    requires 1000 <= t.year + 1900 <= 9999
    ensures var r := YearText(t); |r| == 4 && AllDigits(r) && ParseDigits(r) == t.year + 1900
  {
    NatToStringLength(t.year + 1900, 3);
    ParseNatToString(t.year + 1900);
  }

  /** "hh:mm:ss" */
  function ClockText(t: Tm): (r: string)
    ensures '_' !in r && Esc !in r
  {
    TwoDigit(t.hour) + ":" + TwoDigit(t.min) + ":" + TwoDigit(t.sec)
  }

  /** "YYYY-MM-DD", the date order of the coloured stamp. */
  function IsoDate(t: Tm): (r: string)
    ensures '_' !in r && Esc !in r
  {
    YearText(t) + "-" + TwoDigit(t.mon + 1) + "-" + TwoDigit(t.mday)
  }

  /** "DD.MM.YYYY", the date order of the plain stamp. */
  function DottedDate(t: Tm): (r: string)
    ensures '_' !in r && Esc !in r
  {
    TwoDigit(t.mday) + "." + TwoDigit(t.mon + 1) + "." + YearText(t)
  }

  /** "[ D DD.MM.YYYY; T hh:mm:ss ]", the stamp when no colour palette is active. */
  function PlainStamp(t: Tm): string {
    "[ D " + DottedDate(t) + "; T " + ClockText(t) + " ]"
  }

  /** A blue marker letter followed by a cyan value: "\033[0;34mD \033[0;96m" + value. */
  function Marked(marker: string, value: string): string {
    Sgr("0;34") + marker + Sgr("0;96") + value
  }

  /** The coloured stamp: blue "D" and "T" markers, cyan year-month-day and time. */
  function ColouredStamp(t: Tm): string {
    "[ " + Marked("D ", IsoDate(t)) + "; " + Marked("T ", ClockText(t)) + Reset + " ]"
  }

  /**
   * For a valid time the plain stamp is 28 characters wide and every field can
   * be read back from its fixed column: day, month, year, hour, minute, second.
   */
  lemma PlainStampLayout(t: Tm)
    requires ValidTm(t)
    ensures var r := PlainStamp(t);
      && |r| == 28
      && r[..4] == "[ D " && r[6] == '.' && r[9] == '.' && r[14..18] == "; T "
      && r[20] == ':' && r[23] == ':' && r[26..] == " ]"
      && AllDigits(r[4..6]) && ParseDigits(r[4..6]) == t.mday
      && AllDigits(r[7..9]) && ParseDigits(r[7..9]) == t.mon + 1
      && AllDigits(r[10..14]) && ParseDigits(r[10..14]) == t.year + 1900
      && AllDigits(r[18..20]) && ParseDigits(r[18..20]) == t.hour
      && AllDigits(r[21..23]) && ParseDigits(r[21..23]) == t.min
      && AllDigits(r[24..26]) && ParseDigits(r[24..26]) == t.sec
  {
    TwoDigitRoundTrip(t.mday); TwoDigitRoundTrip(t.mon + 1); YearTextRoundTrip(t);
    TwoDigitRoundTrip(t.hour); TwoDigitRoundTrip(t.min); TwoDigitRoundTrip(t.sec);
    PlainShapeColumns(TwoDigit(t.mday), TwoDigit(t.mon + 1), YearText(t),
                      TwoDigit(t.hour), TwoDigit(t.min), TwoDigit(t.sec));
  }

  lemma PlainShapeColumns(d: string, m: string, y: string, hh: string, mm: string, ss: string)
    requires |d| == 2 && |m| == 2 && |y| == 4 && |hh| == 2 && |mm| == 2 && |ss| == 2
    ensures var r := "[ D " + (d + "." + m + "." + y) + "; T " + (hh + ":" + mm + ":" + ss) + " ]";
      && |r| == 28
      && r[..4] == "[ D " && r[6] == '.' && r[9] == '.' && r[14..18] == "; T "
      && r[20] == ':' && r[23] == ':' && r[26..] == " ]"
      && r[4..6] == d && r[7..9] == m && r[10..14] == y
      && r[18..20] == hh && r[21..23] == mm && r[24..26] == ss
  {
  }

  /** Neither stamp contains an underscore, whatever the clock fields. */
  lemma StampsHaveNoUnderscore(t: Tm)
    ensures '_' !in PlainStamp(t) && '_' !in ColouredStamp(t)
  {
    PlainShapeVisible(DottedDate(t), ClockText(t));
    MarkedNoUnderscore("D ", IsoDate(t));
    MarkedNoUnderscore("T ", ClockText(t));
    NoUnderscoreInColouredShape(Marked("D ", IsoDate(t)), Marked("T ", ClockText(t)));
  }

  lemma MarkedNoUnderscore(marker: string, value: string)
    requires '_' !in marker && '_' !in value
    ensures '_' !in Marked(marker, value)
  {
  }

  /** The plain stamp holds no escape sequence: a terminal shows it as it is. */
  lemma PlainStampVisible(t: Tm)
    ensures StripEscapes(PlainStamp(t)) == PlainStamp(t)
  {
    PlainShapeVisible(DottedDate(t), ClockText(t));
    StripPlain(PlainStamp(t));
  }

  lemma PlainShapeVisible(date: string, clock: string)
    requires '_' !in date && '_' !in clock && Esc !in date && Esc !in clock
    ensures var r := "[ D " + date + "; T " + clock + " ]"; '_' !in r && Esc !in r
  {
  }

  lemma NoUnderscoreInColouredShape(d: string, c: string)
    requires '_' !in d && '_' !in c
    ensures '_' !in "[ " + d + "; " + c + Reset + " ]"
  {
  }

  lemma MarkedVisible(marker: string, value: string)
    requires Esc !in marker && Esc !in value
    ensures Closed(Marked(marker, value))
    ensures StripEscapes(Marked(marker, value)) == marker + value
  {
    var blue, cyan := Sgr("0;34"), Sgr("0;96");
    StripSgr("0;34"); StripSgr("0;96");
    StripPlain(marker); StripPlain(value);
    StripAppend(blue, marker);
    assert StripEscapes(blue + marker) == marker;
    StripAppend(blue + marker, cyan);
    assert StripEscapes(blue + marker + cyan) == marker;
    StripAppend(blue + marker + cyan, value);
  }

  /**
   * What a terminal shows of the coloured stamp: the same text as
   * "[ D YYYY-MM-DD; T hh:mm:ss ]", the date in year-month-day order.
   */
  lemma ColouredStampVisible(t: Tm)
    ensures StripEscapes(ColouredStamp(t)) == "[ D " + IsoDate(t) + "; T " + ClockText(t) + " ]"
  {
    ColouredShapeVisible(IsoDate(t), ClockText(t));
  }

  lemma ColouredShapeVisible(date: string, clock: string)
    requires Esc !in date && Esc !in clock
    ensures StripEscapes("[ " + Marked("D ", date) + "; " + Marked("T ", clock) + Reset + " ]")
         == "[ D " + date + "; T " + clock + " ]"
  {
    var head := "[ " + Marked("D ", date) + "; ";
    var tail := Marked("T ", clock) + Reset + " ]";
    DateHalfVisible(date);
    ClockHalfVisible(clock);
    StripAppend(head, tail);
    assert head + Marked("T ", clock) + Reset + " ]" == head + tail;
    var x := "[ D " + date;
    assert x + "; " + ("T " + clock + " ]") == x + "; T " + clock + " ]" by {
      assert "; " + "T " == "; T ";
    }
  }

  lemma DateHalfVisible(date: string)
    requires Esc !in date
    ensures Closed("[ " + Marked("D ", date) + "; ")
    ensures StripEscapes("[ " + Marked("D ", date) + "; ") == "[ D " + date + "; "
  {
    var d := Marked("D ", date);
    MarkedVisible("D ", date);
    StripPlain("[ "); StripPlain("; ");
    StripAppend("[ ", d);
    assert StripEscapes("[ " + d) == "[ D " + date;
    StripAppend("[ " + d, "; ");
  }

  lemma ClockHalfVisible(clock: string)
    requires Esc !in clock
    ensures StripEscapes(Marked("T ", clock) + Reset + " ]") == "T " + clock + " ]"
  {
    var c := Marked("T ", clock);
    MarkedVisible("T ", clock);
    StripSgr("0;0");
    StripPlain(" ]");
    StripAppend(c, Reset);
    assert StripEscapes(c + Reset) == "T " + clock;
    StripAppend(c + Reset, " ]");
  }
}
