/**
 * The logger of the older revision (`Logger/Logger.hpp`): levels numbered
 * 1..6 with SILENT 0, a status palette chosen at compile time, a style that
 * adds the time stamp from 2 on and the caller's name from 3 on while the
 * status string is written at every style, and every fragment of a statement
 * written straight to the stream, with no line buffer and no newline added.
 *
 * One logger object is modelled: the process-wide threshold is a field. What
 * reaches the output stream is the sequence `writes`, one element per `<<`
 * on the stream.
 */
module LegacyLogger {
  import opened Text
  import opened Ansi
  import opened Stamp
  import Current = Logger

  type U32 = Current.U32

  const Silent: U32 := 0
  const Err: U32 := 1
  const Warn: U32 := 2
  const Info: U32 := 3
  const Time: U32 := 4
  const Done: U32 := 5
  const Debug: U32 := 6
  /** The threshold `_loglevel()` starts with: everything but DEBUG. */
  const Default: U32 := 5

  const StyleStatus: U32 := 1
  const StyleTime: U32 := 2
  const StyleLocation: U32 := 3

  // ---------------------------------------------------------------------------
  // Status strings
  // ---------------------------------------------------------------------------

  /** The four sets of status strings the header can be compiled with. */
  datatype Palette = Regular | Bold | Background | Plain

  /** The set the header selects with `#define LOG_COLORS_BACKGROUND`. */
  const Selected: Palette := Background

  /** The level's name, as the status string spells it. */
  function Name(level: U32): (r: string)
    requires Err <= level <= Debug
    ensures Esc !in r
  {
    if level == Err then "ERROR"
    else if level == Warn then "WARNING"
    else if level == Info then "INFO"
    else if level == Time then "TIME"
    else if level == Done then "DONE"
    else "DEBUG"
  }

  /** The blanks after the name that make every status string equally wide. */
  function Pad(level: U32): (r: string)
    requires Err <= level <= Debug
    ensures Esc !in r
  {
    if level == Err then "   "
    else if level == Warn then " "
    else if level == Info then "    "
    else if level == Time then "    "
    else if level == Done then "    "
    else "   "
  }

  /** The SGR parameters that colour a level's name in a coloured palette. */
  function Code(p: Palette, level: U32): (r: string)
    requires Err <= level <= Debug && p != Plain
    ensures SgrParams(r)
  {
    var k := level - 1;
    match p
    case Regular => ["0;91", "0;93", "0;96", "0;95", "0;92", "0;94"][k]
    case Bold => ["1;31", "1;33", "1;36", "1;35", "1;32", "1;34"][k]
    case Background => ["0;41", "0;43", "0;46", "0;45", "0;42", "0;44"][k]
  }

  /** The reset after the name: "\033[0m" for DEBUG, "\033[0;0m" for the others. */
  function CloseCode(level: U32): (r: string)
    ensures SgrParams(r)
  {
    if level == Debug then "0" else "0;0"
  }

  /**
   * `LOG_STATUS_<LEVEL>` of palette `p` for the levels 1..6, and "" for any
   * other level: the plain set brackets the padded name; the background set
   * colours the padded name with its blanks; the other two colour the name only.
   */
  function StatusText(p: Palette, level: U32): string {
    if level < Err || level > Debug then ""
    else match p
      case Plain => "[" + (" " + Name(level) + Pad(level)) + "]"
      case Background => "[" + Sgr(Code(p, level)) + (" " + Name(level) + Pad(level)) + Sgr(CloseCode(level)) + "]"
      case _ => "[ " + Sgr(Code(p, level)) + Name(level) + Sgr(CloseCode(level)) + (Pad(level) + "]")
  }

  /** `prep_level`: the selected palette's status string of the level; "" for SILENT and unknown levels. */
  function PrepLevel(level: U32): string {
    StatusText(Selected, level)
  }

  /**
   * Whichever palette the header is compiled with, a terminal shows the
   * same status string: the plain one.
   */
  lemma StatusTextShown(p: Palette, level: U32)
    ensures StripEscapes(StatusText(p, level)) == StatusText(Plain, level)
  {
    if Err <= level <= Debug {
      var word := " " + Name(level) + Pad(level);
      StripPlain(word);
      match p
      case Plain =>
        StripPlain(StatusText(p, level));
      case Background =>
        StripColoured("[", Code(p, level), word, CloseCode(level), "]");
      case _ =>
        StripColoured("[ ", Code(p, level), Name(level), CloseCode(level), Pad(level) + "]");
        NarrowRegroup(Name(level), Pad(level));
    }
  }

  lemma NarrowRegroup(name: string, pad: string)
    ensures "[ " + name + (pad + "]") == "[" + (" " + name + pad) + "]"
  {
    assert "[ " == "[" + " ";
  }

  /**
   * The plain status string of levels 1..6 is the current revision's label
   * of the same level (which counts from 0) in brackets, 11 characters wide;
   * SILENT and unknown levels have none.
   */
  lemma PlainStatusMatchesLabel(level: U32)
    ensures Err <= level <= Debug ==>
      StatusText(Plain, level) == "[" + Current.Label(level - 1) + "]" && |StatusText(Plain, level)| == 11
    ensures level < Err || level > Debug ==> StatusText(Plain, level) == ""
  {
    if Err <= level <= Debug {
      assert " " + Name(level) + Pad(level) == Current.Label(level - 1) by {
        WordMatchesLabel(level);
      }
    }
  }

  lemma WordMatchesLabel(level: U32)
    requires Err <= level <= Debug
    ensures " " + Name(level) + Pad(level) == Current.Label(level - 1)
  {
    var w, l := " " + Name(level) + Pad(level), Current.Label(level - 1);
    assert |w| == |l|;
    forall i | 0 <= i < |w| ensures w[i] == l[i] { }
  }

  /** What `prep_level` shows: the bracketed label of levels 1..6, nothing for the others. */
  lemma PrepLevelShown(level: U32)
    ensures Err <= level <= Debug ==> StripEscapes(PrepLevel(level)) == "[" + Current.Label(level - 1) + "]"
    ensures level < Err || level > Debug ==> PrepLevel(level) == ""
  {
    StatusTextShown(Selected, level);
    PlainStatusMatchesLabel(level);
  }

  // ---------------------------------------------------------------------------
  // Time stamp and caller name
  // ---------------------------------------------------------------------------

  /** `prep_time`: the coloured stamp of local time `t` from style TIME on, otherwise nothing. */
  function PrepTime(style: U32, t: Tm): string {
    if style >= StyleTime then ColouredStamp(t) else ""
  }

  /**
   * Below style TIME there is no stamp; from it on a terminal shows
   * "[ D YYYY-MM-DD; T hh:mm:ss ]", in year-month-day order whatever the palette.
   */
  lemma PrepTimeShown(style: U32, t: Tm)
    ensures style < StyleTime ==> PrepTime(style, t) == ""
    ensures style >= StyleTime ==>
      StripEscapes(PrepTime(style, t)) == "[ D " + IsoDate(t) + "; T " + ClockText(t) + " ]"
  {
    if style >= StyleTime {
      ColouredStampVisible(t);
    }
  }

  /** `prep_name`: the caller's name in blue brackets from style LOCATION on, otherwise nothing. */
  function PrepName(style: U32, name: string): string {
    if style < StyleLocation then "" else "[ " + Sgr("0;34") + name + Reset + " ]"
  }

  /** Below style LOCATION there is no name; from it on a terminal shows "[ name ]". */
  lemma PrepNameShown(style: U32, name: string)
    requires Esc !in name
    ensures style < StyleLocation ==> PrepName(style, name) == ""
    ensures style >= StyleLocation ==> StripEscapes(PrepName(style, name)) == "[ " + name + " ]"
  {
    if style >= StyleLocation {
      StripColoured("[ ", "0;34", name, "0;0", " ]");
    }
  }

  /** The fragments `operator()` writes in front of a statement of level `level`. */
  function Head(style: U32, name: string, level: U32, t: Tm): seq<string> {
    [PrepTime(style, t), PrepLevel(level), PrepName(style, name), ": "]
  }

  /**
   * The style never reaches the status fragment: at every style, 0 and
   * STATUS included, a statement of a level 1..6 carries its status string,
   * and STATUS switches on nothing that style 0 leaves off.
   */
  lemma StatusAtEveryStyle(style: U32, name: string, level: U32, t: Tm)
    ensures Head(style, name, level, t)[1] == Head(0, name, level, t)[1] == PrepLevel(level)
    ensures Silent < level <= Debug ==> Head(style, name, level, t)[1] != ""
    ensures Head(StyleStatus, name, level, t) == Head(0, name, level, t)
  {
  }

  /** The fragments written, in order, when every fragment of `parts` passes the threshold. */
  function Written(passes: bool, parts: seq<string>): seq<string> {
    if passes then parts else []
  }

  // ---------------------------------------------------------------------------
  // The logger object
  // ---------------------------------------------------------------------------

  class Logger {
    /** `_loglevel()`: fragments of a statement above this level are dropped. */
    var threshold: U32
    /** `_message_level`: the level of the statement being written. */
    var messageLevel: U32
    /** `_style`: 0 none, 1 status, 2 with time, 3 with the caller's name. */
    var style: U32
    /** Whether `set_log_style` has run: `_style` has no value before it. */
    ghost var styleSet: bool
    /** `_name`: the caller's name given at construction. */
    const name: string
    var snaps: seq<int>
    var snapNames: seq<string>
    var start: int
    var now: int
    /** Everything written to the output stream, one element per write. */
    var writes: seq<string>

    ghost predicate Valid()
      reads this`snaps, this`snapNames
    {
      |snaps| == |snapNames|
    }

    /** `Logger(f, ll, n)`: sets the threshold to `ll`; `clock` is the start instant. */
    constructor WithLevel(ll: U32, n: string, clock: int)
      ensures Valid() && !styleSet
      ensures threshold == ll && messageLevel == Silent && name == n
      ensures snaps == [] && snapNames == [] && writes == []
      ensures start == clock && now == clock
    {
      threshold := ll;
      messageLevel := Silent;
      style := 0;
      styleSet := false;
      name := n;
      snaps, snapNames, writes := [], [], [];
      start, now := clock, clock;
    }

    /** `Logger(f, n)`: keeps the threshold, which starts at DEFAULT. */
    constructor (n: string, clock: int)
      ensures Valid() && !styleSet
      ensures threshold == Default && messageLevel == Silent && name == n
      ensures snaps == [] && snapNames == [] && writes == []
      ensures start == clock && now == clock
    {
      threshold := Default;
      messageLevel := Silent;
      style := 0;
      styleSet := false;
      name := n;
      snaps, snapNames, writes := [], [], [];
      start, now := clock, clock;
    }

    /**
     * `operator()(ll)`: records the level and writes the stamp, the status
     * string, the name and ": " when the level passes the threshold.
     */
    method Call(ll: U32, t: Tm)
      requires ll <= threshold ==> styleSet
      modifies this`messageLevel, this`writes
      ensures messageLevel == ll
      ensures writes == old(writes) + Written(ll <= threshold, Head(style, name, ll, t))
    {
      messageLevel := ll;
      if messageLevel <= threshold {
        writes := writes + [PrepTime(style, t), PrepLevel(messageLevel), PrepName(style, name), ": "];
      }
    }

    /** `operator<<`: writes the value's text as it is when the statement's level passes. */
    method Put(text: string)
      modifies this`writes
      ensures writes == old(writes) + Written(messageLevel <= threshold, [text])
    {
      if messageLevel <= threshold {
        writes := writes + [text];
      }
    }

    /**
     * A whole statement `log(ll) << a << b;`: a passing one writes its head
     * and every fragment in order and nothing else (no newline is added); a
     * suppressed one writes nothing.
     */
    method Log(ll: U32, t: Tm, parts: seq<string>)
      requires ll <= threshold ==> styleSet
      modifies this`messageLevel, this`writes
      ensures messageLevel == ll
      ensures writes == old(writes) + Written(ll <= threshold, Head(style, name, ll, t) + parts)
    {
      Call(ll, t);
      ghost var headed := writes;
      for i := 0 to |parts|
        invariant messageLevel == ll
        invariant writes == headed + Written(ll <= threshold, parts[..i])
      {
        assert parts[..i + 1] == parts[..i] + [parts[i]];
        Put(parts[i]);
      }
      assert parts[..|parts|] == parts;
      AppendAssoc(old(writes), Written(ll <= threshold, Head(style, name, ll, t)), Written(ll <= threshold, parts));
    }

    // -------------------------------------------------------------------------
    // Time snapshots
    // -------------------------------------------------------------------------

    /**
     * `add_snapshot(n, quiet)`: appends the instant and the name; only when
     * the threshold admits TIME and the call is not quiet it writes the TIME
     * status string (whatever the style), the stamp, the name and the
     * "Added snap" text. The message level is left alone. `quiet` defaults
     * to true, as in the declaration.
     */
    method AddSnapshot(n: string, clock: int, t: Tm, quiet: bool := true)
      requires Valid()
      requires threshold >= Time && !quiet ==> styleSet
      modifies this`snaps, this`snapNames, this`writes
      ensures Valid()
      ensures snaps == old(snaps) + [clock] && snapNames == old(snapNames) + [n]
      ensures writes == old(writes) + Written(threshold >= Time && !quiet,
        [StatusText(Selected, Time), PrepTime(style, t), PrepName(style, name), ": Added snap '", n, "'\n"])
    {
      snaps := snaps + [clock];
      snapNames := snapNames + [n];
      if threshold >= Time && !quiet {
        writes := writes + [StatusText(Selected, Time), PrepTime(style, t), PrepName(style, name), ": Added snap '", n, "'\n"];
      }
    }

    /** `time_since_start`: a TIME statement with the seconds since construction; nothing below TIME. */
    method TimeSinceStart(clock: int, t: Tm, secondsText: int -> string)
      requires threshold >= Time ==> styleSet
      modifies this`now, this`messageLevel, this`writes
      ensures threshold < Time ==> now == old(now) && messageLevel == old(messageLevel) && writes == old(writes)
      ensures threshold >= Time ==> (now == clock && messageLevel == Time
        && writes == old(writes) + Head(style, name, Time, t) + [secondsText(clock - start), "s since instantiation\n"])
    {
      if threshold >= Time {
        var secs := secondsText(clock - start);
        now := clock;
        messageLevel := Time;
        writes := writes + Head(style, name, Time, t) + [secs, "s since instantiation\n"];
      }
    }

    /** `time_since_last_snap`: a TIME statement about the newest snapshot; nothing without snapshots or below TIME. */
    method TimeSinceLastSnap(clock: int, t: Tm, secondsText: int -> string)
      requires Valid() && (threshold >= Time && snapNames != [] ==> styleSet)
      modifies this`now, this`messageLevel, this`writes
      ensures threshold < Time || snapNames == [] ==>
        now == old(now) && messageLevel == old(messageLevel) && writes == old(writes)
      ensures threshold >= Time && snapNames != [] ==> (now == clock && messageLevel == Time
        && writes == old(writes) + Head(style, name, Time, t)
             + [secondsText(clock - snaps[|snaps| - 1]), "s since snap '", snapNames[|snapNames| - 1], "'\n"])
    {
      if threshold >= Time && |snapNames| > 0 {
        var secs := secondsText(clock - snaps[|snaps| - 1]);
        now := clock;
        messageLevel := Time;
        writes := writes + Head(style, name, Time, t) + [secs, "s since snap '", snapNames[|snapNames| - 1], "'\n"];
      }
    }

    /**
     * `time_since_snap(s)`: a TIME statement with the seconds since the FIRST
     * snapshot named `s`, or a WARN statement saying it is missing; nothing
     * below TIME. The snapshot tables never change.
     */
    method TimeSinceSnap(s: string, clock: int, t: Tm, secondsText: int -> string)
      requires Valid() && (threshold >= Time ==> styleSet)
      modifies this`now, this`messageLevel, this`writes
      ensures threshold < Time ==> now == old(now) && messageLevel == old(messageLevel) && writes == old(writes)
      ensures threshold >= Time && s !in snapNames ==> (now == clock && messageLevel == Warn
        && writes == old(writes) + Head(style, name, Warn, t) + ["Could not find snapshot ", s, "\n"])
      ensures threshold >= Time && s in snapNames ==> (now == clock && messageLevel == Time
        && var k := FindFirst(snapNames, s).value;
           writes == old(writes) + Head(style, name, Time, t) + [secondsText(clock - snaps[k]), "s since snap '", s, "'\n"])
    {
      if threshold >= Time {
        now := clock;
        match FindFirst(snapNames, s)
        case None =>
          messageLevel := Warn;
          writes := writes + Head(style, name, Warn, t) + ["Could not find snapshot ", s, "\n"];
        case Some(k) =>
          var secs := secondsText(clock - snaps[k]);
          messageLevel := Time;
          writes := writes + Head(style, name, Time, t) + [secs, "s since snap '", snapNames[k], "'\n"];
      }
    }

    // -------------------------------------------------------------------------
    // Settings
    // -------------------------------------------------------------------------

    /** `set_log_level`: overwrites the threshold and nothing else. */
    method SetLogLevel(ll: U32)
      modifies this`threshold
      ensures threshold == ll
    {
      threshold := ll;
    }

    /** `set_log_style`: overwrites the style. */
    method SetLogStyle(st: U32)
      modifies this`style, this`styleSet
      ensures style == st && styleSet
    {
      style := st;
      styleSet := true;
    }
  }

  // ---------------------------------------------------------------------------
  // Whole runs on a fresh logger
  // ---------------------------------------------------------------------------

  /**
   * With the default threshold and style 0, a DEBUG statement writes nothing
   * and a DONE statement writes its fragments with no stamp and no name, but
   * with the DONE status string: the style does not switch the status off.
   */
  method DefaultStatements(t: Tm) returns (debugOut: seq<string>, doneOut: seq<string>)
    ensures debugOut == []
    ensures doneOut == ["", StatusText(Selected, Done), "", ": ", "shown"]
  {
    var log := new Logger("main", 0);
    log.SetLogStyle(0);
    log.Log(Debug, t, ["hidden"]);
    debugOut := log.writes;
    log.Log(Done, t, ["shown"]);
    doneOut := log.writes;
  }

  /**
   * A snapshot is quiet unless asked otherwise: with the default threshold a
   * quiet snapshot writes nothing, a loud one its six fragments.
   */
  method QuietSnapshot(t: Tm) returns (quietOut: seq<string>, loudOut: seq<string>, names: seq<string>)
    ensures quietOut == []
    ensures loudOut == [StatusText(Selected, Time), "", "", ": Added snap '", "b", "'\n"]
    ensures names == ["a", "b"]
  {
    var log := new Logger("main", 0);
    log.SetLogStyle(0);
    log.AddSnapshot("a", 1, t);
    quietOut := log.writes;
    log.AddSnapshot("b", 2, t, false);
    loudOut := log.writes;
    names := log.snapNames;
  }

  /** Snapshots "a", "b", "a": asking for "a" measures from the first of them. */
  method FirstSnapshotWins(t: Tm, secondsText: int -> string) returns (out: seq<string>)
    ensures out == ["", StatusText(Selected, Time), "", ": ", secondsText(9), "s since snap '", "a", "'\n"]
  {
    var log := new Logger("main", 0);
    log.SetLogStyle(0);
    log.AddSnapshot("a", 1, t);
    log.AddSnapshot("b", 2, t);
    log.AddSnapshot("a", 3, t);
    assert FindFirst(log.snapNames, "a") == Some(0);
    log.TimeSinceSnap("a", 10, t, secondsText);
    out := log.writes;
  }

  /** Asking for a snapshot that was never taken writes a WARN statement. */
  method MissingSnapshotWarns(t: Tm, secondsText: int -> string) returns (out: seq<string>, names: seq<string>)
    ensures out == ["", StatusText(Selected, Warn), "", ": ", "Could not find snapshot ", "x", "\n"]
    ensures names == []
  {
    var log := new Logger("main", 0);
    log.SetLogStyle(0);
    log.TimeSinceSnap("x", 10, t, secondsText);
    out := log.writes;
    names := log.snapNames;
  }
}
