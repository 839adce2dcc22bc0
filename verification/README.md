# SISL front end

A model of the front end of SISL, a small line-oriented irrigation language
(`cc.py`). `parse_sisl_code` reads a program one line at a time:

- it trims the line;
- it dispatches on the keyword the line starts with (DECLARE, GET, ZONE, IF,
  SCHEDULE, anything else);
- it extracts the fields, by whitespace split or by one of two fixed regular
  expressions;
- it checks the fields against a symbol table of sensors per zone, declared
  zones, environment variables and schedules;
- it appends intermediate-code instructions.

A raised exception ends the whole run. `is_valid_time` is the 12-hour time
check that SCHEDULE uses.

The model keeps the program's structure:

- `text.dfy` (module `Text`): the Python string operations the front end
  uses. These are `strip`, `split`, substring `in`, `int` on decimal digits,
  and `str` of an integer.
- `spacing.dfy` (module `Spacing`): what `split()` yields, characterised
  independently of how it is computed: tokens laid out with any runs of
  whitespace.
- `clock.dfy` (module `Clock`): `datetime.strptime(s, '%I:%M %p')` as a
  recogniser.
- `patterns.dfy` (module `Patterns`): a small matcher for patterns built from
  literals and capturing groups. The IF and SCHEDULE regular expressions are
  written in it. It is proved to behave as `re.match` does on these patterns:
  anchored at the start only, with greedy groups.
- `lines.dfy` (module `Lines`): the classification of one trimmed line into
  a statement, or the `IndexError` a short DECLARE, GET or ZONE line raises.
- `sisl.dfy` (module `Sisl`): the state (the globals, made explicit), the
  semantic checks, the instructions, one step, the run over all lines, and
  the loop as the source writes it.
- `properties.dfy` (module `SislProperties`): what the front end promises,
  stated about whole lines and whole runs.
- `scenarios.dfy` (module `SislExamples`): `06:00 AM`, the sample program's
  time (cc.py:88), and `13:00 AM`, an hour the SCHEDULE pattern admits and
  `%I` refuses; and lines such as the sample program's
  `GET RAINFALL_FORECAST` (cc.py:84), run on the initial state (cc.py:5-9).

Two details of the code decide what it emits:

- `(\w+)_SENSOR` captures the word before the suffix, so the sample
  program's IF line (cc.py:87) emits `READ_SENSOR SOIL_MOISTURE, ZoneA`;
  `IfLine` states this.
- The sensor check `sensor_type not in sensors[zone]` tests for a
  *substring* of the declared type, not for equality. `Execute` and `IfLine`
  use substring containment (`Text.Contains`).

An exception is modelled as `Outcome.Aborted(state, error, index)`:

- the state is what the lines before the failing one produced;
- the error says which check raised;
- the index is the number of the failing line.

A short DECLARE, GET or ZONE line raises `IndexError` in the source. Here it
is the error `MissingOperand` and stops the run like any other exception.

## Model

| member | source | states |
|---|---|---|
| Text.Strip | cc.py:22 | the trimmed line is a contiguous slice of the line; only whitespace lies before and after it, and it neither starts nor ends with whitespace |
| Text.StripPadded | cc.py:22 | trimming removes exactly the surrounding whitespace: whitespace around a text with non-space ends gives back that text |
| Text.TrimStart | cc.py:22 | the result is a suffix of the input; what was cut is all whitespace, and the result does not start with whitespace |
| Text.TrimEnd | cc.py:22 | the result is a prefix of the input; what was cut is all whitespace, and the result does not end with whitespace |
| Text.Split | cc.py:24 | `split()` yields no parts exactly when the line is all whitespace |
| Text.SplitYieldsTokens | cc.py:24 | every part `split()` yields is non-empty and free of whitespace |
| Spacing.SplitSpaced | cc.py:24-26 | tokens laid out with any runs of whitespace before, between (at least one character) and after them split back into exactly those tokens, so `parts[1]` and `parts[2]` are the second and third words of the line |
| Spacing.SplitCovers | cc.py:24 | conversely, every line is its `split()` parts laid out with runs of whitespace, so the parts are exactly the maximal runs of non-whitespace, in order |
| Text.ContainsIffOccurs | cc.py:48 | `needle in hay` holds exactly when the needle occurs at some position of the haystack |
| Text.NatToString | cc.py:57 | `str` of an integer is a numeral with no leading zero, and has one digit exactly for values below ten |
| Text.ParseNatToString | cc.py:45-57 | `int(str(n)) == n`: the number printed in IF_LESS_THAN is the threshold read |
| Text.NatToStringParse | cc.py:45-57 | for a numeral without leading zeros, `str(int(s)) == s`: the threshold is printed as it was written |
| Text.ParseNatPositive | cc.py:45-53 | a numeral that does not start with 0 reads as at least 1, so it passes the duration check |
| Clock.ShapedTimeValid | cc.py:12-17 | for a time of the SCHEDULE shape `DD:DD AM/PM`, `is_valid_time` holds exactly when the hour is 01-12 and the minute is 00-59 |
| Patterns.Take | cc.py:42 | one piece at the start of the text: a literal consumes exactly its text; a group captures one text of its shape, and the input is its spelling followed by the rest |
| Patterns.Match | cc.py:42-43 | whatever the matcher returns is one group per capturing piece, each of the right shape |
| Patterns.MatchSound | cc.py:42-43 | a returned match is a prefix of the text (anchored at the start, not at the end) |
| Patterns.MatchComplete | cc.py:42-43 | on a separated pattern, text that starts with the rendering of fitting groups matches with exactly those groups, whatever follows |
| Patterns.MatchIff | cc.py:42-43 | on a separated pattern, the matcher yields groups `gs` exactly when they fit the pattern and the text starts with their rendering |
| Patterns.TakeGroup | cc.py:42 | a group followed by a character it cannot contain is taken whole; for `(\w+)_SENSOR`, the capture is the word without its suffix |
| Patterns.IfFits | cc.py:42-44 | groups that fit the IF pattern are exactly five, each of the shape its regex group accepts |
| Patterns.IfRendered | cc.py:42 | well-formed IF groups fit the pattern, and the pattern renders them as the IF line text |
| Patterns.MatchIf | cc.py:42-44 | a match of the IF pattern gives five well-formed groups |
| Patterns.MatchIfSound | cc.py:42-44 | a match found for an IF line is the IF text of its groups, at the start of the line |
| Patterns.MatchIfComplete | cc.py:42-44 | the IF text of well-formed groups, followed by any text, matches with exactly those groups |
| Patterns.MatchIfIff | cc.py:42-44 | `re.match` of the IF regex gives groups `g` exactly when `g` is well formed and the line starts with the IF text of `g` |
| Patterns.ScheduleFits | cc.py:65-67 | groups that fit the SCHEDULE pattern are a word and a time of the shape `DD:DD AM/PM` |
| Patterns.ScheduleRendered | cc.py:65 | well-formed SCHEDULE groups fit the pattern, and the pattern renders them as the SCHEDULE line text |
| Patterns.MatchSchedule | cc.py:65-67 | a match of the SCHEDULE pattern gives a well-formed zone and time |
| Patterns.MatchScheduleSound | cc.py:65-67 | a match found for a SCHEDULE line is the SCHEDULE text of its groups, at the start of the line |
| Patterns.MatchScheduleComplete | cc.py:65-67 | the SCHEDULE text of well-formed groups, followed by any text, matches with exactly those groups |
| Patterns.MatchScheduleIff | cc.py:65-67 | `re.match` of the SCHEDULE regex gives groups `g` exactly when `g` is well formed and the line starts with the SCHEDULE text of `g` |
| Lines.ClassifyIf | cc.py:41-45 | an IF line becomes a conditional statement exactly when the pattern matches, and otherwise is dropped |
| Lines.ClassifySchedule | cc.py:64-67 | a SCHEDULE line becomes a schedule statement exactly when the pattern matches, and otherwise is dropped |
| Lines.Classify | cc.py:23-78 | the statement agrees with the keyword the line starts with; the only failure is the missing-operand error of a DECLARE, GET or ZONE line |
| Lines.ClassifyBlank | cc.py:76-78 | a trimmed line counts as blank exactly when it is empty |
| Sisl.Execute | cc.py:27-74 | an accepted statement only extends the state, and appends five instructions for IF, one for SCHEDULE and none otherwise; only IF and SCHEDULE can be rejected |
| Sisl.Step | cc.py:21-78 | an accepted line keeps every sensor key, zone and environment variable value, and extends the schedules and the code at the end |
| Sisl.Run | cc.py:20-78 | a run only extends the state; when it aborts, the failing line is in range and raises that very error from the state the run reports |
| Sisl.RunAdvance | cc.py:21 | one turn of the loop keeps the loop's invariant: the rest of the run from the current state and line is the run of the whole program |
| Sisl.ParseSislCode | cc.py:20-78 | the loop over the lines, left at the first exception, computes the same outcome as the run |
| SislProperties.KeywordIsPrefix | cc.py:23-64 | no keyword is a prefix of another, so a line is dispatched on the one keyword it starts with, whatever the order of the tests |
| SislProperties.DeclareLine | cc.py:23-27 | a line starting with DECLARE maps the third word of its split to the second in `sensors` and changes nothing else; with fewer than three words it raises |
| SislProperties.GetLine | cc.py:30-33 | a line starting with GET adds the second word of its split with no value when it is absent and leaves the state as it is otherwise; without a second word it raises |
| SislProperties.ZoneLine | cc.py:36-38 | a line starting with ZONE adds the second word of its split to `zones` and changes nothing else; without a second word it raises |
| SislProperties.DeclareLastWriteWins | cc.py:27 | after two DECLARE lines for the same zone, the state is what the second line alone would give |
| SislProperties.ZoneIdempotent | cc.py:38 | a repeated ZONE line changes nothing |
| SislProperties.GetKeepsExisting | cc.py:32-33 | GET keeps every existing variable's value, adds only its own name, with no value, changes nothing else, and a repeat is a no-op |
| SislProperties.IfLine | cc.py:41-60 | for a line starting with the IF pattern, the checks run in the source's order; only then are the five instructions appended, with the captured type (no `_SENSOR` suffix), the threshold, and minutes * 60 seconds; nothing else changes |
| SislProperties.ScheduleLine | cc.py:64-74 | for a line starting with the SCHEDULE pattern, an undeclared zone then an invalid time raise; an accepted line appends exactly one `(zone, time)` and one SCHEDULE_VALVE, with the time text as written |
| SislProperties.ListingConcat | cc.py:56-74 | the generated text only grows at the end: the text of code followed by more code is the text of the first followed by the text of the second |
| SislProperties.IfLineListing | cc.py:56-60 | an accepted IF line adds exactly the five formatted lines after the earlier text; the threshold is printed as the number it reads as, so a threshold without leading zeros appears as written, and the duration appears as minutes * 60 seconds |
| SislProperties.ScheduleLineListing | cc.py:74 | an accepted SCHEDULE line adds exactly one `SCHEDULE_VALVE zone, time` line, with the time as written |
| SislProperties.NoEffectLine | cc.py:43-78 | blank lines, unknown commands, and IF or SCHEDULE lines that fail their pattern leave the state exactly as it was |
| SislProperties.RunConcat | cc.py:21 | running two pieces of a program one after the other is running the whole program; the second piece runs only if the first finished |
| SislProperties.RunStopsAtError | cc.py:21 | once a line raises, the lines after it are never looked at |
| SislProperties.RunAbortedPrefix | cc.py:21 | the state an aborted run leaves is the state of the lines before the failing one, run to completion |
| SislExamples.ExampleTimes | cc.py:12-17 | `06:00 AM` is a valid time; `13:00 AM` is not, although it has the SCHEDULE time shape |
| SislExamples.InitialGet | cc.py:5-9 | `RAINFALL_FORECAST` is an environment variable from the start, so on the initial globals a line that fetches it, such as `GET RAINFALL_FORECAST`, changes nothing |

## Left out

- Console output: the `print` diagnostics that report each line. They do not
  affect the state or the code.
- The sample program and `main`, which print the symbol table and the code.
- `re` and `datetime.strptime` as library calls. They are replaced by
  recognisers for the two fixed patterns and for the `%I:%M %p` format, in
  the C locale.
- Non-ASCII characters:
  - `\w`, `\d` and whitespace are restricted to ASCII;
  - `strip`, `split` and `int` are not modelled on other Unicode digits or
    spaces.
- The globals themselves: the state is an explicit value threaded through
  the run, starting from `Sisl.Initial`.
- Error message texts: an error records which check failed and the values it
  names, not the formatted message.
- CPython's limit on integer-string conversion. Numerals here are unbounded.
  By default, CPython 3.11 and later raises `ValueError` when `int` reads a
  numeral of more than 4300 digits (cc.py:45). It does the same when an
  f-string prints a number of more than 4300 digits (cc.py:57, 59). The model
  raises in neither place, so the members below promise more than the source
  does for such numerals.
- Lines.Classify: an IF line whose threshold or duration has more than 4300
  digits is classified as a conditional, where the source raises
  `ValueError` at cc.py:45.
- Sisl.Execute: every check comes before every update only under the same
  assumption. In the source, a `duration * 60` of more than 4300 digits
  raises at cc.py:59. By then the three instructions of cc.py:56-58 have
  been appended, so the run stops with a partial block.
- SislProperties.IfLine: states `Ok` with all five instructions even when
  `duration * 60` has more than 4300 digits, where the source stops after
  three.
- SislProperties.IfLineListing: the same; it also assumes the threshold
  prints, which fails for more than 4300 digits (cc.py:57).
