# cpp_useful_pack logger and duration formatter, modelled in Dafny

This project models three parts of the C++ header library *cpp_useful_pack*:

- **The current `cpp_up::Logger`** (`src/Logger.hpp`).
  - A process-wide threshold filters log statements by level (ERR 0 … DEBUG 5, default DONE 4).
  - A statement `log(ll) << a << b;` is a three-step protocol.
    1. `operator()` seeds a per-thread line buffer. It puts in either the prefix (time stamp and status tag, each possibly empty) followed by "‣ ", or the `_no_log_` marker.
    2. Each `<<` appends text unless the statement is blocked.
    3. The statement's destructor writes the buffer and a newline exactly once unless the statement is blocked, and clears the buffer in both cases.
  - The status tag is coloured from a six-entry palette, which `set_log_style_colors` replaces.
  - Named time snapshots are kept in two parallel vectors and can be queried.
- **The older `Logger`** (`Logger/Logger.hpp`).
  - Levels are SILENT 0, ERR 1 … DEBUG 6, with default DONE 5.
  - The status strings are chosen at compile time (the background set is selected).
  - The style adds parts of a statement's head (the fragments written before its text) by number: the status string at every style, 0 included; the time stamp from style 2 (TIME) on; the caller's name from style 3 (LOCATION) on. Style 1 (STATUS) therefore changes nothing, although the comment at `Logger/Logger.hpp:84-85` says each style enables the previous ones.
  - Every fragment goes straight to the stream. There is no buffer and no newline is added.
- **`format_duration`**. It renders a number of seconds as `D-HH:MM:SS`, leaving out zero days, hours and minutes. The function appears character for character in `src/ProgBar.hpp`, `src/ProgBar_Fancy.hpp` and `Logger/Logger.hpp`, and one model stands for all three.

Modules:

| file | module | content |
|---|---|---|
| `text.dfy` | `Text` | decimal text (`to_string`, `operator<<` on integers), substring search (`string::find`), first-match search (`std::find`) |
| `ansi.dfy` | `Ansi` | SGR escape sequences, and what a terminal shows once they are removed (`StripEscapes`) |
| `stamp.dfy` | `Stamp` | the two time stamp layouts both revisions build from a `struct tm` |
| `duration.dfy` | `Duration` | `format_duration` |
| `logger.dfy` | `Logger` | the current logger, as a class with the palette as an `array` |
| `legacy_logger.dfy` | `LegacyLogger` | the older logger, as a class |

In both logger classes the output stream is the field `writes`. It holds one element per write to the stream. The current revision writes one element per finished line. The older revision writes one element per `<<`.

Two behaviours of the current revision worth spelling out:

- Every statement line and every `time_since_*` line carries the "‣ " marker after the prefix, even with time and status off. With default settings, `log(LOG_INFO) << "x=" << 5;` writes `"‣ x=5\n"` (`Logger.PlainStatement`).
- The `add_snapshot` line has no marker: it reads ": Added snap '<name>'" straight after the prefix (`Logger.Logger.AddSnapshot`, `Logger.QuietSnapshot`).

## Model

The functions that build the parts of a line (`Logger.StatusTag`, `Logger.PrepTime`, `LegacyLogger.PrepLevel`, `LegacyLogger.PrepTime`, `LegacyLogger.PrepName`) have no row of their own: their contracts are the lemmas named after them (`Logger.StatusTagVisible`, `Logger.PrepTimeShown`, `LegacyLogger.PrepLevelShown`, `LegacyLogger.PrepTimeShown`, `LegacyLogger.PrepNameShown`), whose rows cite the same lines.

| member | source | states |
|---|---|---|
| Text.ParseNatToString | src/Logger.hpp:219-224 | the decimal text `to_string` gives a non-negative field reads back as that field |
| Text.NatToStringLength | src/Logger.hpp:219-224 | a number with k+1 digits prints as exactly k+1 characters; 0 counts as a one-digit number and prints as one character |
| Text.NatToStringInjective | src/Logger.hpp:219-224 | two different numbers never print the same text |
| Text.Find | src/Logger.hpp:93 | `find` reports a match exactly when the pattern occurs somewhere in the text |
| Text.FindFrom | src/Logger.hpp:93 | a reported position is the first occurrence at or after the start; no position is reported only when there is none |
| Text.FindFirst | src/Logger.hpp:275 | `std::find` gives the first index holding the name, and the end exactly when the name is absent |
| Text.NotFoundWithoutFirstChar | src/Logger.hpp:93 | a text without '_' never contains `_no_log_` |
| Text.FoundAtEnd | src/Logger.hpp:93 | a buffer that ends with `_no_log_` contains it |
| Ansi.StripEscapes | src/Logger.hpp:201-206 | the text a terminal shows has no escape character and is never longer |
| Ansi.StripSgr | src/Logger.hpp:201-206 | a colour code such as "\033[0;91m" shows as nothing |
| Ansi.StripAppend | src/Logger.hpp:201-206 | what is shown of two joined texts is what is shown of each, when the first closes its codes |
| Ansi.StripColoured | src/Logger.hpp:201-206 | a coloured word between plain texts shows as the plain texts around the word |
| Stamp.TwoDigitRoundTrip | src/Logger.hpp:219-229 | a field below 100, zero-padded when below 10, is two digits that read back as the field |
| Stamp.YearTextRoundTrip | src/Logger.hpp:224 | a four-digit year (`tm_year + 1900`) prints unpadded as four digits that read back as the year |
| Stamp.PlainStampLayout | src/Logger.hpp:235-236 | the plain stamp is 28 characters, and day, month, year, hour, minute, second read back from fixed columns |
| Stamp.StampsHaveNoUnderscore | src/Logger.hpp:231-237 | neither stamp contains '_', whatever the clock fields |
| Stamp.PlainStampVisible | src/Logger.hpp:235-236 | the plain stamp holds no escape code |
| Stamp.ColouredStampVisible | src/Logger.hpp:232-233 | the coloured stamp shows as "[ D YYYY-MM-DD; T hh:mm:ss ]" |
| Duration.Decompose | src/ProgBar.hpp:19-35 | days = n / 86400; hours < 24, minutes < 60, seconds < 60; the parts recompose to n (identical in src/ProgBar_Fancy.hpp:15-31 and Logger/Logger.hpp:395-411) |
| Duration.Setw2 | src/ProgBar.hpp:39 | a field is printed with at least two characters, all digits |
| Duration.Setw2RoundTrip | src/ProgBar.hpp:39 | the padded field reads back as the value; a value of 10 or more is printed in full, never cut to two digits; below 100 it has exactly two digits |
| Duration.FormatDuration | src/ProgBar.hpp:17-50 | the text is never shorter than two characters |
| Duration.FormatDurationFields | src/ProgBar.hpp:37-49 | the text holds exactly the present fields (non-zero days, hours, minutes; seconds always) in that order, each padded to at least two digits and reading back as its value, separated by '-' after days and ':' after hours and minutes (identical in src/ProgBar_Fancy.hpp:33-45 and Logger/Logger.hpp:413-425) |
| Duration.FormatDurationSeconds | src/ProgBar.hpp:47-48 | the last two characters are always the seconds, and they read back as n mod 60 |
| Duration.FormatDurationUnderMinute | src/ProgBar.hpp:47-48 | below one minute the text is exactly the two digits of the seconds (5 gives "05") |
| Duration.FormatDurationNotInjective | src/ProgBar.hpp:41-46 | 60 and 3600 both render as "01:00", so the text cannot be parsed back |
| Logger.Label | src/Logger.hpp:201-206 | every status label is 9 characters, starts with one blank, and has no escape and no '_' |
| Logger.LabelsDistinct | src/Logger.hpp:201-206 | different levels have different labels |
| Logger.PaletteParams | src/Logger.hpp:296-357 | each colour style has six codes, one per level |
| Logger.PaletteParamsWellFormed | src/Logger.hpp:296-357 | every installed code is a well-formed colour code without '_' |
| Logger.PaletteNoneIsReset | src/Logger.hpp:299-307 | without colours every level's code is "\033[0;0m" |
| Logger.PalettesDistinct | src/Logger.hpp:296-357 | the five styles install five different palettes |
| Logger.StatusTagVisible | src/Logger.hpp:198-210 | with status on, levels 0..5 show as "[" + label + "]", 11 characters, in every palette; with status off or another level the tag is the empty string |
| Logger.StatusTagNoUnderscore | src/Logger.hpp:198-210 | no status tag contains '_' |
| Logger.StatusLineVisible | src/Logger.hpp:198-210 | a tagged line shows as "[LABEL]" followed by the rest, whatever the palette |
| Logger.PrepTimeShown | src/Logger.hpp:212-240 | time off gives no stamp; time on shows "[ D DD.MM.YYYY; T hh:mm:ss ]" without colours and "[ D YYYY-MM-DD; T hh:mm:ss ]" with them |
| Logger.HeadHasNoMarker | src/Logger.hpp:190-193 | no prefix contains '_', so a prefix never contains the `_no_log_` marker |
| Logger.Logger.constructor | src/Logger.hpp:179-185 | a new logger has the default threshold, no time, no status, the NONE palette, an empty buffer, no snapshots and no output |
| Logger.Logger.WithLevel | src/Logger.hpp:170-177 | the same, with the given threshold |
| Logger.Logger.Open | src/Logger.hpp:187-196 | records the level and appends exactly prefix + "‣ " when the level passes the threshold, else `_no_log_`; the handle is blocked exactly when the buffer holds the marker, always above the threshold and never at or below it on a clean buffer |
| Logger.Logger.Stream | src/Logger.hpp:106-114 | a blocked handle leaves the buffer unchanged; an open one appends the text with no separator |
| Logger.Logger.Close | src/Logger.hpp:98-104 | writes buffer + "\n" once when not blocked, nothing when blocked; the buffer is empty afterwards |
| Logger.Logger.Log | src/Logger.hpp:187-196 | a whole statement above the threshold writes nothing; one at or below it writes exactly one line: prefix, "‣ ", the fragments, "\n" |
| Logger.Logger.AddSnapshot | src/Logger.hpp:242-249 | as written, `quiet` defaulting to false (declared at src/Logger.hpp:125): appends one instant and one name in lockstep, sets the level to TIME only when admitted and not quiet, and writes the "Added snap" line on every call |
| Logger.Logger.AddSnapshotGuarded | src/Logger.hpp:242-249 | `quiet` defaulting to false; appends in lockstep and writes the "Added snap" line only when the threshold admits TIME and the call is not quiet |
| Logger.Logger.TimeSinceStart | src/Logger.hpp:251-259 | below TIME nothing changes; otherwise one TIME line with the seconds since construction |
| Logger.Logger.TimeSinceLastSnap | src/Logger.hpp:261-269 | nothing below TIME or without snapshots; otherwise one TIME line about the newest snapshot |
| Logger.Logger.TimeSinceSnap | src/Logger.hpp:271-286 | nothing below TIME; a missing name gives one WARN line "Could not find snapshot <name>"; otherwise one TIME line measured from the first snapshot of that name; the tables never change |
| Logger.Logger.SetLogLevel | src/Logger.hpp:133 | overwrites the threshold and nothing else |
| Logger.Logger.SetLogStyleTime | src/Logger.hpp:288-290 | overwrites the time flag |
| Logger.Logger.SetLogStyleStatus | src/Logger.hpp:292-294 | overwrites the status flag |
| Logger.Logger.SetLogStyleColors | src/Logger.hpp:296-361 | styles 0..4 install that style's six codes and record the style; any other value changes nothing; the palette invariant is kept |
| Logger.PlainStatement | src/Logger.hpp:187-196 | with default settings `log(LOG_INFO) << "x=" << 5;` writes exactly "‣ x=5\n" |
| Logger.DefaultSuppressesDebug | src/Logger.hpp:37-46 | with the default threshold a DEBUG statement writes nothing and a DONE statement one line |
| Logger.BoldErrorLine | src/Logger.hpp:198-210 | with status on and the bold palette an ERR statement writes one line that shows as "[ ERROR   ]‣ msg" |
| Logger.FirstSnapshotWins | src/Logger.hpp:271-286 | after `add_snapshot("a")`, `add_snapshot("b")`, `add_snapshot("a")` at instants 1, 2, 3, as written (three "Added snap" lines), asking for "a" at 10 writes a fourth line that reports 9 seconds |
| Logger.MissingSnapshotWarns | src/Logger.hpp:276-279 | a name never taken gives the line "‣ Could not find snapshot x\n" and the tables stay empty |
| Logger.QuietSnapshot | src/Logger.hpp:246-248 | a snapshot with `quiet` true on a fresh logger writes ": Added snap 'a'\n" as written and nothing when guarded |
| LegacyLogger.StatusTextShown | Logger/Logger.hpp:54-82 | whichever status set is compiled in, each string shows as the plain one |
| LegacyLogger.PlainStatusMatchesLabel | Logger/Logger.hpp:76-81 | the plain status strings of levels 1..6 are the current revision's labels (counted from 0) in brackets, 11 characters; other levels have none |
| LegacyLogger.PrepLevelShown | Logger/Logger.hpp:211-241 | `prep_level` shows the bracketed label of levels 1..6 and is empty for SILENT and unknown levels |
| LegacyLogger.PrepTimeShown | Logger/Logger.hpp:243-267 | below style TIME no stamp; from it on "[ D YYYY-MM-DD; T hh:mm:ss ]", always in year-month-day order |
| LegacyLogger.PrepNameShown | Logger/Logger.hpp:269-271 | below style LOCATION no name; from it on the name shows as "[ name ]" |
| LegacyLogger.StatusAtEveryStyle | Logger/Logger.hpp:203-241 | the status fragment of a statement's head is the same at every style and non-empty for levels 1..6; style STATUS gives the same head as style 0 |
| LegacyLogger.Logger.constructor | Logger/Logger.hpp:187-191 | a new logger has the default threshold, level SILENT, the given name, no snapshots and no output |
| LegacyLogger.Logger.WithLevel | Logger/Logger.hpp:180-185 | the same, with the given threshold |
| LegacyLogger.Logger.Call | Logger/Logger.hpp:203-209 | records the level and writes stamp, status, name and ": " exactly when the level passes the threshold |
| LegacyLogger.Logger.Put | Logger/Logger.hpp:193-201 | writes the text exactly when the statement's level passes, with no newline added |
| LegacyLogger.Logger.Log | Logger/Logger.hpp:193-209 | a whole statement writes its head and every fragment in order when it passes, and nothing otherwise |
| LegacyLogger.Logger.AddSnapshot | Logger/Logger.hpp:273-280 | with `quiet` defaulting to true (declared at Logger/Logger.hpp:120): appends instant and name in lockstep; writes the TIME status, stamp, name and "Added snap" text only when the threshold admits TIME and the call is not quiet; the level is untouched |
| LegacyLogger.Logger.TimeSinceStart | Logger/Logger.hpp:282-288 | nothing below TIME; otherwise a TIME statement with the seconds since construction |
| LegacyLogger.Logger.TimeSinceLastSnap | Logger/Logger.hpp:290-296 | nothing below TIME or without snapshots; otherwise a TIME statement about the newest snapshot |
| LegacyLogger.Logger.TimeSinceSnap | Logger/Logger.hpp:298-312 | nothing below TIME; a WARN statement for a missing name; otherwise a TIME statement measured from the first snapshot of that name |
| LegacyLogger.Logger.SetLogLevel | Logger/Logger.hpp:136 | overwrites the threshold |
| LegacyLogger.Logger.SetLogStyle | Logger/Logger.hpp:314-316 | overwrites the style |
| LegacyLogger.DefaultStatements | Logger/Logger.hpp:40-49 | with the default threshold and style 0, DEBUG writes nothing and DONE writes "", the DONE status string, "", ": ", the text |
| LegacyLogger.QuietSnapshot | Logger/Logger.hpp:120 | `add_snapshot("a")` with the default `quiet` writes nothing; `add_snapshot("b", false)` writes its six fragments; both names are recorded |
| LegacyLogger.FirstSnapshotWins | Logger/Logger.hpp:298-312 | after `add_snapshot("a")`, `add_snapshot("b")`, `add_snapshot("a")` at 1, 2, 3, quiet by default and so silent, asking for "a" at 10 writes one TIME statement that reports 9 seconds |
| LegacyLogger.MissingSnapshotWarns | Logger/Logger.hpp:302-305 | a name never taken gives the WARN statement "Could not find snapshot x" and the tables stay empty |

## Left out

- Threads. The mutex, the `lock_guard`s and the `thread_local` line buffer are left out. One thread with one buffer is modelled.
- The singleton `get_instance` and the static threshold. The threshold is a field of the one logger object.
  - The constructors without a level therefore start at the default threshold. The code would instead keep a threshold set earlier in the process.
- Clocks. `time`, `localtime`, `high_resolution_clock` and `difftime` are left out.
  - The broken-down local time is a parameter `t`.
  - Instants are integers `clock`.
  - The text of the elapsed seconds (`to_string` of a `double`, or `difftime` streamed) is an uninterpreted parameter `secondsText`.
- `prep_time` refreshing `_clock_now` / `_now` is left out. That value is read back only by code that sets it first.
- Output streams. They are a sequence of written strings; `flush` is left out.
- The return values `*this` of the older `operator<<` and the `expr` handle returned by value. They only make chaining possible.
- `set_log_file_path`. It is an unfinished stub that only appends to a path nobody reads.
- The progress bar classes, `src/ProgSpin.hpp`, `src/ProgBar_Simple.hpp` and `main.cpp` are not part of this model. They are floating-point state, clock polling, or empty stubs.
- `format_duration` on non-integer input. The cast `static_cast<uint64_t>` of a floating value is left out; the input is a natural below 2^64.
- LegacyLogger.Logger: `_style` is never initialised by the constructors. The ghost flag `styleSet` makes every operation require `set_log_style` first in exactly the cases where it reads the style: a statement that passes the threshold, a query or snapshot that writes.
- LegacyLogger.Logger.AddSnapshot: requires `set_log_style` only when it writes, since it reads the style only then.
- Logger.Logger.Log: states the written line only when the buffer holds no '_' before the statement. A buffer left non-empty by a statement that was never closed is not covered.
- Logger.Logger.Open: states that the handle is not blocked only for a buffer without '_', for the same reason.
- Logger.Logger.TimeSinceSnap: the line for a found name uses `_snap_ns[dist]`, which equals the name searched for. The contract states the name.
- Every status palette and compile-time choice of the older revision is modelled as data (`LegacyLogger.Palette`). The preprocessor selection is the constant `Selected`.

## Findings

| source | as written | input that shows it | evidently intended | confidence | as-written member | corrected member |
|---|---|---|---|---|---|---|
| src/Logger.hpp:246-248 | the `if` has no braces, so it guards only the message-level update; the "Added snap" line is written on every call | `add_snapshot("a", true)` on a fresh logger writes ": Added snap 'a'\n" (no prefix, level still SILENT) | write the line only when the threshold admits TIME and the call is not quiet, as the indentation and the older revision (Logger/Logger.hpp:278-279) show | high, not executed | Logger.Logger.AddSnapshot (shown by Logger.QuietSnapshot) | Logger.Logger.AddSnapshotGuarded |
