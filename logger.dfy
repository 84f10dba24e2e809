/**
 * The logger of the current revision (`cpp_up::Logger`): a threshold that
 * filters statements by level, an optional time stamp and coloured status
 * tag in front of every line, a per-thread line buffer that a statement
 * fills and flushes once, and named time snapshots.
 *
 * One thread and one logger object are modelled: the process-wide threshold
 * and the thread-local line buffer are fields of the object. What the logger
 * writes to its output stream is the sequence `writes`, one element per
 * `<<` on the stream.
 */
module Logger {
  import opened Text
  import opened Ansi
  import opened Stamp

  /** The `unsigned` the levels and the palette selector are stored in. */
  type U32 = n: int | 0 <= n < 0x1_0000_0000

  const Err: U32 := 0
  const Warn: U32 := 1
  const Info: U32 := 2
  const Time: U32 := 3
  const Done: U32 := 4
  const Debug: U32 := 5
  /** The threshold a logger starts with: everything but DEBUG. */
  const Default: U32 := 4
  /** `LOG_SILENT = -1` stored in an `unsigned`: above every threshold. */
  const Silent: U32 := 0xFFFF_FFFF

  const ColorsNone: U32 := 0
  const ColorsRegular: U32 := 1
  const ColorsBold: U32 := 2
  const ColorsBackground: U32 := 3
  const ColorsUnderline: U32 := 4

  /** "‣ ", the marker between the prefix and the message. */
  const Bullet: string := "\U{2023} "

  /** What `operator()` puts in the buffer instead of a prefix when the level is filtered out. */
  const NoLog: string := "_no_log_"

  // ---------------------------------------------------------------------------
  // Status tags and time stamps
  // ---------------------------------------------------------------------------

  /** The text of a level's status tag, padded so that every tag has the same width. */
  function Label(level: U32): (r: string)
    requires level <= Debug
    ensures |r| == 9 && r[0] == ' ' && r[1] != ' '
    ensures Esc !in r && '_' !in r
  {
    if level == Err then " ERROR   "
    else if level == Warn then " WARNING "
    else if level == Info then " INFO    "
    else if level == Time then " TIME    "
    else if level == Done then " DONE    "
    else " DEBUG   "
  }

  /** Each level has its own label. */
  lemma LabelsDistinct(a: U32, b: U32)
    requires a <= Debug && b <= Debug && a != b
    ensures Label(a) != Label(b)
  {
    assert Label(a)[2] != Label(b)[2] || Label(a)[3] != Label(b)[3];
  }

  /**
   * The SGR parameters of the six per-level codes (ERR, WARN, INFO, TIME,
   * DONE, DEBUG) of colour style `s`.
   */
  function PaletteParams(s: U32): (ps: seq<string>)
    requires s <= ColorsUnderline
    ensures |ps| == 6
  {
    if s == ColorsNone then ["0;0", "0;0", "0;0", "0;0", "0;0", "0;0"]
    else if s == ColorsRegular then ["0;91", "0;93", "0;97", "0;95", "0;92", "0;94"]
    else if s == ColorsBold then ["1;31", "1;33", "1;37", "1;35", "1;32", "1;34"]
    else if s == ColorsBackground then ["0;41", "0;43", "0;47", "0;45", "0;42", "0;44"]
    else ["4;31", "4;33", "4;37", "4;35", "4;32", "4;34"]
  }

  /** Every parameter is a well-formed SGR parameter list and has no underscore. */
  lemma PaletteParamsWellFormed(s: U32, i: nat)
    requires s <= ColorsUnderline && i < 6
    ensures SgrParams(PaletteParams(s)[i]) && '_' !in PaletteParams(s)[i]
  {
  }

  /** The six escape codes `set_log_style_colors(s)` installs. */
  function PaletteCodes(s: U32): (codes: seq<string>)
    requires s <= ColorsUnderline
    ensures |codes| == 6
  {
    seq(6, i requires 0 <= i < 6 => Sgr(PaletteParams(s)[i]))
  }

  /** Without colours every level's code is the reset sequence. */
  lemma PaletteNoneIsReset(i: nat)
    requires i < 6
    ensures PaletteCodes(ColorsNone)[i] == Reset
  {
  }

  /** The five styles install five different palettes, so the palette tells which style is active. */
  lemma PalettesDistinct(s: U32, u: U32)
    requires s <= ColorsUnderline && u <= ColorsUnderline && s != u
    ensures PaletteCodes(s) != PaletteCodes(u)
  {
    var p, q := PaletteParams(s)[0], PaletteParams(u)[0];
    assert p != q;
    var a, b := Sgr(p), Sgr(q);
    assert a[2..|a| - 1] == p;
    assert b[2..|b| - 1] == q;
    assert PaletteCodes(s)[0] == a && PaletteCodes(u)[0] == b;
  }

  /** `prep_level`: the status tag of a level, or nothing. */
  function StatusTag(fStat: bool, level: U32, palette: seq<string>): string
    requires |palette| == 6
  {
    if fStat && level <= Debug then "[" + palette[level] + Label(level) + Reset + "]" else ""
  }

  /**
   * With the status flag on, a terminal shows the tag of levels 0..5 as the
   * label in brackets (11 characters), whatever the colour style; with the
   * flag off or for any other level the tag itself is the empty string.
   */
  lemma StatusTagVisible(fStat: bool, level: U32, s: U32)
    requires s <= ColorsUnderline
    ensures var shown := StripEscapes(StatusTag(fStat, level, PaletteCodes(s)));
      && (fStat && level <= Debug ==> shown == "[" + Label(level) + "]" && |shown| == 11)
      && (!fStat || level > Debug ==> StatusTag(fStat, level, PaletteCodes(s)) == "" && shown == "")
  {
    if fStat && level <= Debug {
      var tag := StatusTag(fStat, level, PaletteCodes(s));
      StatusLineVisible(level, s, []);
      assert tag + [] == tag;
      assert "[" + Label(level) + "]" + [] == "[" + Label(level) + "]";
    }
  }

  /** No status tag contains an underscore. */
  lemma StatusTagNoUnderscore(fStat: bool, level: U32, s: U32)
    requires s <= ColorsUnderline
    ensures '_' !in StatusTag(fStat, level, PaletteCodes(s))
  {
    if fStat && level <= Debug {
      var ps := PaletteParams(s);
      PaletteParamsWellFormed(s, level);
      TagShapeNoUnderscore(ps[level], Label(level));
    }
  }

  /** Whatever the palette, a line with a status tag shows as "[LABEL]" followed by the rest. */
  lemma StatusLineVisible(level: U32, s: U32, rest: string)
    requires level <= Debug && s <= ColorsUnderline && Esc !in rest
    ensures StripEscapes(StatusTag(true, level, PaletteCodes(s)) + rest) == "[" + Label(level) + "]" + rest
  {
    var p := PaletteParams(s)[level];
    PaletteParamsWellFormed(s, level);
    assert PaletteCodes(s)[level] == Sgr(p);
    TagLineVisible(p, Label(level), rest);
  }

  lemma TagLineVisible(p: string, word: string, rest: string)
    requires SgrParams(p) && Esc !in word && Esc !in rest
    ensures StripEscapes("[" + Sgr(p) + word + Reset + "]" + rest) == "[" + word + "]" + rest
  {
    StripColoured("[", p, word, "0;0", "]" + rest);
    AppendAssoc("[" + Sgr(p) + word + Reset, "]", rest);
    AppendAssoc("[" + word, "]", rest);
  }

  lemma TagShapeNoUnderscore(p: string, word: string)
    requires '_' !in p && '_' !in word
    ensures '_' !in "[" + Sgr(p) + word + Reset + "]"
  {
  }

  /** `prep_time`: the stamp of local time `t`, coloured unless the colour style is NONE. */
  function PrepTime(fTime: bool, fColor: U32, t: Tm): string {
    if !fTime then ""
    else if fColor != ColorsNone then ColouredStamp(t)
    else PlainStamp(t)
  }

  /**
   * With the time flag off there is no stamp. With it on, a terminal shows
   * "[ D <date>; T hh:mm:ss ]", the date as DD.MM.YYYY without colours and
   * as YYYY-MM-DD with them.
   */
  lemma PrepTimeShown(fTime: bool, fColor: U32, t: Tm)
    ensures !fTime ==> PrepTime(fTime, fColor, t) == ""
    ensures fTime ==> (StripEscapes(PrepTime(fTime, fColor, t))
      == "[ D " + (if fColor == ColorsNone then DottedDate(t) else IsoDate(t)) + "; T " + ClockText(t) + " ]")
  {
    if fTime {
      if fColor == ColorsNone {
        PlainStampVisible(t);
      } else {
        ColouredStampVisible(t);
      }
    }
  }

  /** `prep_time() + prep_level()`: what precedes the bullet of a line. */
  function Head(fTime: bool, fStat: bool, fColor: U32, palette: seq<string>, level: U32, t: Tm): string
    requires |palette| == 6
  {
    PrepTime(fTime, fColor, t) + StatusTag(fStat, level, palette)
  }

  /**
   * No prefix contains an underscore, so a prefix never contains the
   * suppression marker: a statement whose level passes the threshold is not
   * blocked by its own prefix.
   */
  lemma HeadHasNoMarker(fTime: bool, fStat: bool, s: U32, level: U32, t: Tm)
    requires s <= ColorsUnderline
    ensures '_' !in Head(fTime, fStat, s, PaletteCodes(s), level, t) + Bullet
    ensures Find(Head(fTime, fStat, s, PaletteCodes(s), level, t) + Bullet, NoLog).None?
  {
    StampsHaveNoUnderscore(t);
    StatusTagNoUnderscore(fStat, level, s);
    var h := Head(fTime, fStat, s, PaletteCodes(s), level, t);
    NoUnderscoreJoined(PrepTime(fTime, s, t), StatusTag(fStat, level, PaletteCodes(s)));
    NotFoundWithoutFirstChar(h + Bullet, NoLog);
  }

  lemma NoUnderscoreJoined(a: string, b: string)
    requires '_' !in a && '_' !in b
    ensures '_' !in a + b + Bullet
  {
  }

  /** The fragments of a statement, joined with no separator. */
  function Joined(parts: seq<string>): string {
    if parts == [] then "" else Joined(parts[..|parts| - 1]) + parts[|parts| - 1]
  }

  lemma JoinedStep(parts: seq<string>, i: nat)
    requires i < |parts|
    ensures Joined(parts[..i + 1]) == Joined(parts[..i]) + parts[i]
  {
    assert parts[..i + 1][..i] == parts[..i];
  }

  lemma JoinedWhole(parts: seq<string>)
    ensures Joined(parts[..|parts|]) == Joined(parts)
  {
    assert parts[..|parts|] == parts;
  }

  /** A statement handle (`Logger::expr`): whether it was blocked when it was opened. */
  datatype Statement = Statement(blocked: bool)

  // ---------------------------------------------------------------------------
  // The logger object
  // ---------------------------------------------------------------------------

  class Logger {
    /** `_loglevel()`: statements above this level are suppressed. */
    var threshold: U32
    /** `_message_level`: the level of the line being prepared. */
    var messageLevel: U32
    var fTime: bool
    var fStat: bool
    /** `_f_color`: the colour style last installed. */
    var fColor: U32
    /** `_color`: one escape code per level. */
    const palette: array<string>
    /** `_log_msg`: the line being assembled. */
    var pending: string
    /** `_snaps` and `_snap_ns`: snapshot instants and their names, in order of creation. */
    var snaps: seq<int>
    var snapNames: seq<string>
    var start: int
    var now: int
    /** Everything written to the output stream, one element per write. */
    var writes: seq<string>

    ghost predicate Valid()
      reads this`fColor, this`snaps, this`snapNames, palette
    {
      && palette.Length == 6
      && fColor <= ColorsUnderline
      && palette[..] == PaletteCodes(fColor)
      && |snaps| == |snapNames|
    }

    /** The prefix a line of level `level` gets, with local time `t`. */
    function Prefix(level: U32, t: Tm): string
      reads this`fTime, this`fStat, this`fColor, palette
      requires palette.Length == 6
    {
      Head(fTime, fStat, fColor, palette[..], level, t)
    }

    /** `Logger(f)`: default threshold, no time, no status, palette NONE; `clock` is the start instant. */
    constructor (clock: int)
      ensures Valid() && fresh(palette)
      ensures threshold == Default && messageLevel == Silent
      ensures !fTime && !fStat && fColor == ColorsNone
      ensures pending == "" && snaps == [] && snapNames == [] && writes == []
      ensures start == clock && now == clock
    {
      threshold := Default;
      messageLevel := Silent;
      fTime, fStat, fColor := false, false, 0;
      palette := new string[6];
      pending, snaps, snapNames, writes := "", [], [], [];
      start, now := clock, clock;
      new;
      SetLogStyleColors(ColorsNone);
    }

    /** `Logger(f, ll)`: the same, with threshold `ll`. */
    constructor WithLevel(ll: U32, clock: int)
      ensures Valid() && fresh(palette)
      ensures threshold == ll && messageLevel == Silent
      ensures !fTime && !fStat && fColor == ColorsNone
      ensures pending == "" && snaps == [] && snapNames == [] && writes == []
      ensures start == clock && now == clock
    {
      threshold := ll;
      messageLevel := Silent;
      fTime, fStat, fColor := false, false, 0;
      palette := new string[6];
      pending, snaps, snapNames, writes := "", [], [], [];
      start, now := clock, clock;
      new;
      SetLogStyleColors(ColorsNone);
    }

    // -------------------------------------------------------------------------
    // One log statement: `log(ll) << a << b;`
    // -------------------------------------------------------------------------

    /**
     * `operator()`: records the level and seeds the buffer with the prefix, or
     * with the suppression marker when the level is above the threshold; the
     * handle is blocked exactly when the buffer then holds the marker.
     */
    method Open(ll: U32, t: Tm) returns (h: Statement)
      requires Valid()
      modifies this`messageLevel, this`pending
      ensures Valid() && messageLevel == ll
      ensures pending == old(pending + (if ll <= threshold then Prefix(ll, t) + Bullet else NoLog))
      ensures h.blocked <==> Find(pending, NoLog).Some?
      ensures ll > threshold ==> h.blocked
      ensures ll <= threshold && '_' !in old(pending) ==> !h.blocked
    {
      messageLevel := ll;
      if messageLevel <= threshold {
        pending := pending + (Prefix(messageLevel, t) + Bullet);
        HeadHasNoMarker(fTime, fStat, fColor, ll, t);
        if '_' !in old(pending) {
          assert '_' !in pending;
          NotFoundWithoutFirstChar(pending, NoLog);
        }
      } else {
        pending := pending + NoLog;
        FoundAtEnd(old(pending), NoLog);
      }
      h := Statement(Find(pending, NoLog).Some?);
    }

    /** `expr::operator<<`: appends the text of a value unless the handle is blocked. */
    method Stream(h: Statement, text: string)
      modifies this`pending
      ensures pending == old(pending) + (if h.blocked then "" else text)
    {
      if !h.blocked {
        pending := pending + text;
      }
    }

    /** `~expr`: writes the line and a newline once unless blocked; the buffer is emptied either way. */
    method Close(h: Statement)
      modifies this`pending, this`writes
      ensures writes == old(writes) + (if h.blocked then [] else [old(pending) + "\n"])
      ensures pending == ""
    {
      if !h.blocked {
        pending := pending + "\n";
        writes := writes + [pending];
      }
      pending := "";
    }

    /**
     * A whole statement: open at level `ll`, stream every fragment, close.
     * A suppressed statement writes nothing; a passing one writes exactly one
     * line, the prefix, the bullet and the fragments followed by a newline.
     */
    method Log(ll: U32, t: Tm, parts: seq<string>)
      requires Valid()
      modifies this`messageLevel, this`pending, this`writes
      ensures Valid() && messageLevel == ll && pending == ""
      ensures ll > threshold ==> writes == old(writes)
      ensures ll <= threshold && '_' !in old(pending) ==>
        writes == old(writes) + [old(pending + (Prefix(ll, t) + Bullet)) + Joined(parts) + "\n"]
    {
      var h := Open(ll, t);
      ghost var seeded := pending;
      for i := 0 to |parts|
        invariant pending == seeded + (if h.blocked then "" else Joined(parts[..i]))
        invariant writes == old(writes) && messageLevel == ll
      {
        JoinedStep(parts, i);
        Stream(h, parts[i]);
      }
      JoinedWhole(parts);
      Close(h);
    }

    // -------------------------------------------------------------------------
    // Time snapshots
    // -------------------------------------------------------------------------

    /**
     * `add_snapshot` as written: the instant and the name are appended, the
     * level guard only covers the message-level update, and the "Added snap"
     * line is written on every call, with whatever message level is current.
     * `quiet` defaults to false, as in the declaration.
     */
    method AddSnapshot(n: string, clock: int, t: Tm, quiet: bool := false)
      requires Valid()
      modifies this`snaps, this`snapNames, this`messageLevel, this`writes
      ensures Valid()
      ensures snaps == old(snaps) + [clock] && snapNames == old(snapNames) + [n]
      ensures messageLevel == if threshold >= Time && !quiet then Time else old(messageLevel)
      ensures writes == old(writes) + [Prefix(messageLevel, t) + ": Added snap '" + n + "'\n"]
    {
      snaps := snaps + [clock];
      snapNames := snapNames + [n];
      if threshold >= Time && !quiet {
        messageLevel := Time;
      }
      writes := writes + [Prefix(messageLevel, t) + ": Added snap '" + n + "'\n"];
    }

    /**
     * `add_snapshot` with the guard covering the write as well: the line is
     * written only when the threshold admits TIME and the call is not quiet.
     */
    method AddSnapshotGuarded(n: string, clock: int, t: Tm, quiet: bool := false)
      requires Valid()
      modifies this`snaps, this`snapNames, this`messageLevel, this`writes
      ensures Valid()
      ensures snaps == old(snaps) + [clock] && snapNames == old(snapNames) + [n]
      ensures messageLevel == if threshold >= Time && !quiet then Time else old(messageLevel)
      ensures writes == old(writes)
        + (if threshold >= Time && !quiet then [Prefix(Time, t) + ": Added snap '" + n + "'\n"] else [])
    {
      snaps := snaps + [clock];
      snapNames := snapNames + [n];
      if threshold >= Time && !quiet {
        messageLevel := Time;
        writes := writes + [Prefix(messageLevel, t) + ": Added snap '" + n + "'\n"];
      }
    }

    /** `time_since_start`: one TIME line with the seconds since construction; nothing below TIME. */
    method TimeSinceStart(clock: int, t: Tm, secondsText: int -> string)
      requires Valid()
      modifies this`now, this`messageLevel, this`writes
      ensures Valid()
      ensures threshold < Time ==> now == old(now) && messageLevel == old(messageLevel) && writes == old(writes)
      ensures threshold >= Time ==> (now == clock && messageLevel == Time
        && writes == old(writes) + [old(Prefix(Time, t) + Bullet + secondsText(clock - start) + "s since instantiation\n")])
    {
      if threshold >= Time {
        var line := Prefix(Time, t) + Bullet + secondsText(clock - start) + "s since instantiation\n";
        now := clock;
        messageLevel := Time;
        writes := writes + [line];
      }
    }

    /** `time_since_last_snap`: one TIME line about the newest snapshot; nothing without snapshots or below TIME. */
    method TimeSinceLastSnap(clock: int, t: Tm, secondsText: int -> string)
      requires Valid()
      modifies this`now, this`messageLevel, this`writes
      ensures Valid()
      ensures threshold < Time || snapNames == [] ==>
        now == old(now) && messageLevel == old(messageLevel) && writes == old(writes)
      ensures threshold >= Time && snapNames != [] ==> (now == clock && messageLevel == Time
        && writes == old(writes) + [old(Prefix(Time, t) + Bullet + secondsText(clock - snaps[|snaps| - 1])
                                        + "s since last snap '" + snapNames[|snapNames| - 1] + "'\n")])
    {
      if threshold >= Time && |snapNames| > 0 {
        var line := Prefix(Time, t) + Bullet + secondsText(clock - snaps[|snaps| - 1])
                    + "s since last snap '" + snapNames[|snapNames| - 1] + "'\n";
        now := clock;
        messageLevel := Time;
        writes := writes + [line];
      }
    }

    /**
     * `time_since_snap(s)`: the seconds since the FIRST snapshot named `s`,
     * or a WARN line saying it is missing; nothing below TIME. The snapshot
     * tables never change.
     */
    method TimeSinceSnap(s: string, clock: int, t: Tm, secondsText: int -> string)
      requires Valid()
      modifies this`now, this`messageLevel, this`writes
      ensures Valid()
      ensures threshold < Time ==> now == old(now) && messageLevel == old(messageLevel) && writes == old(writes)
      ensures threshold >= Time && s !in snapNames ==> (now == clock && messageLevel == Warn
        && writes == old(writes) + [Prefix(Warn, t) + Bullet + "Could not find snapshot " + s + "\n"])
      ensures threshold >= Time && s in snapNames ==> (now == clock && messageLevel == Time
        && var k := FindFirst(snapNames, s).value;
           writes == old(writes) + [old(Prefix(Time, t) + Bullet + secondsText(clock - snaps[k])
                                        + "s since snap '" + s + "'\n")])
    {
      if threshold >= Time {
        match FindFirst(snapNames, s)
        case None =>
          now := clock;
          messageLevel := Warn;
          writes := writes + [Prefix(messageLevel, t) + Bullet + "Could not find snapshot " + s + "\n"];
        case Some(k) =>
          var line := Prefix(Time, t) + Bullet + secondsText(clock - snaps[k]) + "s since snap '" + snapNames[k] + "'\n";
          now := clock;
          messageLevel := Time;
          writes := writes + [line];
      }
    }

    // -------------------------------------------------------------------------
    // Settings
    // -------------------------------------------------------------------------

    /** `set_log_level`: overwrites the threshold and nothing else. */
    method SetLogLevel(ll: U32)
      requires Valid()
      modifies this`threshold
      ensures Valid() && threshold == ll
    {
      threshold := ll;
    }

    /** `set_log_style_time` */
    method SetLogStyleTime(f: bool)
      requires Valid()
      modifies this`fTime
      ensures Valid() && fTime == f
    {
      fTime := f;
    }

    /** `set_log_style_status` */
    method SetLogStyleStatus(f: bool)
      requires Valid()
      modifies this`fStat
      ensures Valid() && fStat == f
    {
      fStat := f;
    }

    /** `set_log_style_colors`: installs style `s` when it is one of the five; any other value changes nothing. */
    method SetLogStyleColors(s: U32)
      requires palette.Length == 6
      modifies this`fColor, palette
      ensures s <= ColorsUnderline ==> fColor == s && palette[..] == PaletteCodes(s)
      ensures s > ColorsUnderline ==> fColor == old(fColor) && palette[..] == old(palette[..])
      ensures old(Valid()) ==> Valid()
      ensures s <= ColorsUnderline && |snaps| == |snapNames| ==> Valid()
    {
      if s <= ColorsUnderline {
        var codes := PaletteCodes(s);
        forall i | 0 <= i < 6 {
          palette[i] := codes[i];
        }
        fColor := s;
      }
    }
  }

  // ---------------------------------------------------------------------------
  // Whole runs on a fresh logger
  // ---------------------------------------------------------------------------

  /** With the default settings `log(LOG_INFO) << "x=" << 5;` writes the bullet and the message. */
  method PlainStatement(t: Tm) returns (out: seq<string>)
    ensures out == [Bullet + ("x=" + "5" + "\n")]
  {
    var log := new Logger(0);
    assert log.Prefix(Info, t) == [];
    assert Info <= log.threshold && '_' !in log.pending;
    log.Log(Info, t, ["x=", "5"]);
    JoinedPair("x=", "5");
    out := log.writes;
    assert "" + ([] + Bullet) + ("x=" + "5") + "\n" == Bullet + ("x=" + "5" + "\n");
  }

  /** With the default threshold a DEBUG statement writes nothing, and a DONE statement one line. */
  method DefaultSuppressesDebug(t: Tm) returns (debugOut: seq<string>, doneOut: seq<string>)
    ensures debugOut == [] && |doneOut| == 1
  {
    var log := new Logger(0);
    log.Log(Debug, t, ["hidden"]);
    debugOut := log.writes;
    log.Log(Done, t, ["shown"]);
    doneOut := log.writes;
  }

  /**
   * With status tags on and the bold palette, `log(LOG_ERR) << msg;` shows as
   * "[ ERROR   ]‣ msg": the colour codes are invisible.
   */
  method BoldErrorLine(t: Tm, msg: string) returns (out: seq<string>)
    requires Esc !in msg
    ensures |out| == 1 && StripEscapes(out[0]) == "[ ERROR   ]" + Bullet + (msg + "\n")
  {
    var log := BoldStatusLogger();
    BoldPrefix(log, t);
    ghost var line := "" + (StatusTag(true, Err, PaletteCodes(ColorsBold)) + Bullet) + Joined([msg]) + "\n";
    log.Log(Err, t, [msg]);
    assert log.writes == [] + [line];
    out := log.writes;
    BoldLine(msg);
  }

  /** A fresh logger after `set_log_style_status(true)` and `set_log_style_colors(LOG_COLORS_BOLD)`. */
  method BoldStatusLogger() returns (log: Logger)
    ensures fresh(log) && log.Valid()
    ensures log.threshold == Default && !log.fTime && log.fStat && log.fColor == ColorsBold
    ensures log.palette[..] == PaletteCodes(ColorsBold)
    ensures log.pending == "" && log.writes == []
  {
    log := new Logger(0);
    log.SetLogStyleStatus(true);
    log.SetLogStyleColors(ColorsBold);
  }

  lemma BoldPrefix(log: Logger, t: Tm)
    requires log.palette.Length == 6 && log.palette[..] == PaletteCodes(ColorsBold)
    requires !log.fTime && log.fStat && log.fColor == ColorsBold
    ensures log.Prefix(Err, t) == StatusTag(true, Err, PaletteCodes(ColorsBold))
  {
    HeadWithoutTime(ColorsBold, PaletteCodes(ColorsBold), Err, t);
  }

  lemma BoldLine(msg: string)
    requires Esc !in msg
    ensures var tag := StatusTag(true, Err, PaletteCodes(ColorsBold));
      StripEscapes("" + (tag + Bullet) + Joined([msg]) + "\n") == "[ ERROR   ]" + Bullet + (msg + "\n")
  {
    var tag := StatusTag(true, Err, PaletteCodes(ColorsBold));
    JoinedSingle(msg);
    LineRegroup(tag, Bullet, msg);
    BoldErrorShown(msg);
  }

  /**
   * Snapshots "a", "b", "a" taken with the default `quiet` at instants 1, 2
   * and 3, each writing its "Added snap" line: asking for "a" at instant 10
   * writes a fourth line, measured from the first of them, nine seconds back.
   */
  method FirstSnapshotWins(t: Tm, secondsText: int -> string) returns (out: seq<string>)
    ensures |out| == 4 && out[3] == Bullet + secondsText(9) + "s since snap 'a'\n"
  {
    var log := SnapshotsABA(t);
    assert FindFirst(log.snapNames, "a") == Some(0);
    log.TimeSinceSnap("a", 10, t, secondsText);
    out := log.writes;
    AppendAssoc(log.Prefix(Time, t), Bullet, secondsText(9));
    QuotedLine(Bullet + secondsText(9), "s since snap '", "a", "'\n", "s since snap 'a'\n");
  }

  /** A fresh logger after snapshots "a", "b", "a" at instants 1, 2 and 3, as `add_snapshot` is written. */
  method SnapshotsABA(t: Tm) returns (log: Logger)
    ensures fresh(log) && log.Valid()
    ensures log.snapNames == ["a", "b", "a"] && log.snaps == [1, 2, 3]
    ensures log.threshold == Default && |log.writes| == 3 && log.Prefix(Time, t) == []
  {
    log := new Logger(0);
    log.AddSnapshot("a", 1, t);
    log.AddSnapshot("b", 2, t);
    log.AddSnapshot("a", 3, t);
  }

  /** Asking for a snapshot that was never taken writes a warning and leaves the tables empty. */
  method MissingSnapshotWarns(t: Tm, secondsText: int -> string) returns (out: seq<string>, names: seq<string>)
    ensures out == [Bullet + "Could not find snapshot x\n"] && names == []
  {
    var log := new Logger(0);
    assert log.Prefix(Warn, t) == [];
    log.TimeSinceSnap("x", 10, t, secondsText);
    out := log.writes;
    names := log.snapNames;
    QuotedLine(Bullet, "Could not find snapshot ", "x", "\n", "Could not find snapshot x\n");
  }

  /**
   * A quiet snapshot on a fresh logger: the code as written still writes an
   * "Added snap" line (with no prefix, since no level has been recorded), the
   * guarded version writes nothing.
   */
  method QuietSnapshot(t: Tm) returns (asWritten: seq<string>, guarded: seq<string>)
    ensures asWritten == [": Added snap 'a'\n"] && guarded == []
  {
    var log := new Logger(0);
    assert log.Prefix(Silent, t) == [];
    log.AddSnapshot("a", 0, t, true);
    asWritten := log.writes;
    var other := new Logger(0);
    other.AddSnapshotGuarded("a", 0, t, true);
    guarded := other.writes;
    AddedLine(log.Prefix(Silent, t));
  }

  lemma AddedLine(prefix: string)
    requires prefix == []
    ensures [] + [prefix + ": Added snap '" + "a" + "'\n"] == [": Added snap 'a'\n"]
  {
    Spelled(": Added snap '", "a", "'\n", ": Added snap 'a'\n");
    assert prefix + ": Added snap '" == ": Added snap '";
  }

  /** A line built piece by piece after an empty prefix is the line with its quoted name spelled out. */
  lemma QuotedLine(head: string, before: string, name: string, after: string, whole: string)
    requires |before + name + after| == |whole|
    requires forall i :: 0 <= i < |whole| ==> (before + name + after)[i] == whole[i]
    ensures [] + head + before + name + after == head + whole
  {
    Spelled(before, name, after, whole);
    AppendAssoc(head, before, name);
    AppendAssoc(head, before + name, after);
    assert [] + head == head;
  }

  lemma Spelled(before: string, name: string, after: string, whole: string)
    requires |before + name + after| == |whole|
    requires forall i :: 0 <= i < |whole| ==> (before + name + after)[i] == whole[i]
    ensures before + name + after == whole
  {
  }

  lemma BoldErrorShown(msg: string)
    requires Esc !in msg
    ensures StripEscapes(StatusTag(true, Err, PaletteCodes(ColorsBold)) + (Bullet + (msg + "\n")))
         == "[ ERROR   ]" + Bullet + (msg + "\n")
  {
    NoEscapeInLine(msg);
    StatusLineVisible(Err, ColorsBold, Bullet + (msg + "\n"));
    ErrorTagShown();
    AppendAssoc("[ ERROR   ]", Bullet, msg + "\n");
  }

  lemma HeadWithoutTime(fColor: U32, palette: seq<string>, level: U32, t: Tm)
    requires |palette| == 6
    ensures Head(false, true, fColor, palette, level, t) == StatusTag(true, level, palette)
  {
  }

  lemma NoEscapeInLine(msg: string)
    requires Esc !in msg
    ensures Esc !in Bullet + (msg + "\n")
  {
  }

  lemma ErrorTagShown()
    ensures "[" + Label(Err) + "]" == "[ ERROR   ]"
  {
    assert Label(Err) == " ERROR   ";
  }

  lemma JoinedSingle(a: string)
    ensures Joined([a]) == a
  {
    assert [a][..0] == [];
    assert [] + a == a;
  }

  lemma JoinedPair(a: string, b: string)
    ensures Joined([a, b]) == a + b
  {
    assert [a, b][..1] == [a];
    assert [a][..0] == [];
    assert Joined([a]) == [] + a == a;
  }

  lemma LineRegroup(tag: string, bullet: string, msg: string)
    ensures "" + (tag + bullet) + msg + "\n" == tag + (bullet + (msg + "\n"))
  {
  }
}
