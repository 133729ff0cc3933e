# transonic: the ping-report parser and result formatter

transonic pings many hosts in parallel with `ping -c <count> -q <host>` and
prints one report for all of them. This project models its text-processing
half in Dafny, in both iterations of the tool (`transonic2.py` and the older
`transonic.py`):

- **the report parser**, the loop inside `pinger`. It splits the captured
  output of `ping -q` on `"\n"`. It recognises the packet-summary line by the
  fixed-offset test `line[2:21] == "packets transmitted"`. It reads that line's
  whitespace fields by position, in one of two layouts chosen by the presence
  of an `"errors,"` field. It recognises the rtt line by the prefix
  `"rtt min/avg/max/mdev"` and splits its fourth field on `/` into exactly four
  strings. Lines that match neither test are ignored, and a later matching line
  overwrites an earlier one. A malformed matching line raises `IndexError` or
  `ValueError`, which ends `pinger`. The model returns these as `Err` values.
- **the result record** `Pingresult`. A part that was not found is filled with
  `"?"` in all four fields. Its `__str__` renders
  `"<host> S<tx>/R<rx>, maMD: <min>/<avg>/<max>/<mdev>"`. The older iteration
  adds a `style` field: `"line"` renders that format, and any other style
  renders `"Unknown style '<style>' for '<host>'"`.
- **`formatresults`** with its three styles:
  - `list`: one rendering per host, in input order.
  - `cell`: host names joined by spaces, with down hosts wrapped in
    reverse-video escapes.
  - `ccell`: one `!` or `.` per host.

  Both `cell` and `ccell` end with a `"<up> up, <down> down"` tally. A host is
  down when `txcount > rxcount or rxcount == 0`. A style that matches no branch
  makes the function return `None`.

Files and modules:

- `pytext.dfy` (`PyText`): the Python string primitives the code uses, with
  their laws. These are `str.split(c)`, whitespace `str.split()`,
  `sep.join`, `int()` on decimal text, `"%i"`, slicing and `startswith`.
- `records.dfy` (`PingRecord`): the `pingstats` and `rttstats` records, the
  `"?"` placeholders and the shared one-line rendering.
- `pingoutput.dfy` (`PingOutput`): the parse loop. Both iterations contain it
  character for character (transonic2.py:60-76 and transonic.py:53-69), so it
  is modelled once. `ParseReport` is the loop as a method. It is proved equal
  to the specification function `ParseLines`, and the lemmas state what the
  parse promises.
- `transonic2.dfy` (`Transonic2`): `Pingresult`, `pinger`, `pool.map` as a
  sequential map, and `formatresults`. The `cell` and `ccell` branches are
  loops that update a two-element `counts` array.
- `transonic.dfy` (`Transonic`): the styled `Pingresult` and this iteration's
  `pinger`, proved to agree with the second iteration.

Points of the code's behaviour the model keeps exactly:

- A host is down when `tx > rx or rx == 0` (transonic2.py:89-90 and 101-102).
- A style other than `list`, `cell` and `ccell` matches no branch, so
  `formatresults` returns `None` (transonic2.py:81-108).
- The summary line is found by the fixed character offset 2 to 20
  (transonic2.py:62).
- The rtt figures are kept as the strings ping printed (transonic2.py:73-75).
- A summary line with too few fields or a non-numeric field, and an rtt line
  whose fourth field does not split into four parts, raise `IndexError` or
  `ValueError` and end `pinger` (transonic2.py:63-75).

The fixed offset has a visible consequence, proved as written. A summary line
whose transmitted count has two or more digits is not recognised
(`PingOutput.SummaryOffset`), so that host's stats stay `"?"`. With
`--count 10` or more, `cell` and `ccell` therefore count every host up, even
one that answered nothing (`Transonic2.LongCountHostUp`).

## Model

| member | source | states |
|---|---|---|
| `PingOutput.ParseReport` | transonic2.py:60-76 | The line loop, run over `output.split("\n")`, yields exactly `ParseLines` of those lines: the last summary record and last rtt record found, or the first exception raised |
| `PingOutput.ParseLines` | transonic2.py:60-76 | When the loop over the lines ends in an exception, that exception is the one some line raises |
| `PingOutput.Run` | transonic2.py:60-76 | The loop, run over the kinds of the lines from nothing found, finishes exactly when no line raises |
| `PingOutput.Step` | transonic2.py:62-76 | One line raises exactly when it is a matching line whose read fails, and then with that read's exception; otherwise only a summary line changes `pstat` and only an rtt line changes `rtts` |
| `PingOutput.IsSummaryLine` | transonic2.py:62 | `line[2:21] == "packets transmitted"` holds exactly when the line has at least 21 characters and characters 2 to 20 spell that marker (Python's slice clamps, so a shorter line just fails the test) |
| `PingOutput.Classify` | transonic2.py:62-76 | A line is taken as a summary line exactly when `line[2:21] == "packets transmitted"`, and as an rtt line exactly when it is not one and starts with `"rtt min/avg/max/mdev"` |
| `PingOutput.IsRttLine` | transonic2.py:72 | A line taken as an rtt line is at least 20 characters long and never passes the summary test, so the order of the two tests does not matter |
| `PingOutput.ShortLineNotSummary` | transonic2.py:62 | A line shorter than 21 characters is never a summary line |
| `PingOutput.SummaryOffset` | transonic2.py:62 | A line `<n> packets transmitted, ...` is recognised exactly when the count `<n>` is one character long |
| `PingOutput.IntField` | transonic2.py:65-69 | `int(stats[i][:-drop])` raises IndexError exactly past the last field and ValueError exactly when the field exists but is not a decimal number after dropping the suffix; it succeeds only on a digit string |
| `PingOutput.ReadStats` | transonic2.py:65-69 | The read succeeds exactly when fields 0, 3, loss and time exist and are decimal numbers once the `%` and `ms` are stripped, and then yields those four numbers; otherwise it raises the exception of the first bad field in that order: IndexError if the field is missing, ValueError if it is not a number |
| `PingOutput.SummaryStats` | transonic2.py:63-69 | The layout is chosen by the `"errors,"` field; the line is read exactly when fields 0, 3 and that layout's loss and time fields are numbers; success needs more than 11 or more than 9 fields and yields four integers; a bad count field decides the exception first |
| `PingOutput.NonNumericCount` | transonic2.py:63-65 | A summary line whose transmitted count is not a number makes `pinger` fail with ValueError |
| `PingOutput.TruncatedSummary` | transonic2.py:63-69 | A summary line with numeric counts that ends before the loss field makes `pinger` fail with IndexError |
| `PingOutput.ReadStatsOfNumbers` | transonic2.py:65-69 | Fields 0 and 3 holding the counts, the loss field holding `<n>%` and the time field holding `<n>ms` read back to exactly those four numbers |
| `PingOutput.PlainSummaryRoundTrip` | transonic2.py:67-69 | The summary line ping prints without errors is recognised iff tx < 10, and reads back to (tx, rx, loss, time) from fields 0, 3, 5 and 9 |
| `PingOutput.ErrorSummaryRoundTrip` | transonic2.py:64-66 | The line with `+<e> errors,` reads loss and time from fields 7 and 11, and gives the same record as the plain layout with the same numbers |
| `PingOutput.ErrorLayoutExample` | transonic2.py:64-66 | The summary line `5 packets transmitted, 0 received, +5 errors, 100% packet loss, time 4003ms`, with its twelve words joined by single spaces, reads to (5, 0, 100, 4003) |
| `PingOutput.RttOf` | transonic2.py:72-75 | The rtt line fails with IndexError iff it has fewer than 4 fields; it succeeds iff field 4 holds exactly three `/`; the four strings it yields join with `/` back into field 4 |
| `PingOutput.RttRoundTrip` | transonic2.py:72-75 | The rtt line ping prints is recognised and gives back its four figures as text, unconverted |
| `PingOutput.ParseLinesOutcome` | transonic2.py:60-76 | The parse succeeds iff no matching line raises; otherwise it fails with the exception of the first line that raises |
| `PingOutput.ParseLinesLastWins` | transonic2.py:60-76 | `pstat` is unset iff there is no summary line, and otherwise holds the record of the last one; the same holds for `rtts` and rtt lines |
| `PingOutput.ParseLinesFound` | transonic2.py:60-76 | The parse sets `pstat` exactly when a summary line exists, and then to four integers; it sets `rtts` exactly when an rtt line exists |
| `PingOutput.UnmatchedLineIgnored` | transonic2.py:60-76 | Inserting a line that matches neither test anywhere in the output leaves the parse unchanged |
| `PingOutput.RunStopsAtError` | transonic2.py:63-75 | Once a line has raised, no later line affects the outcome |
| `PingOutput.OutputRoundTrip` | transonic2.py:58-77 | Any header lines followed by ping's summary line and rtt line, joined by newlines, parse back to the printed numbers and figures |
| `PingRecord.FieldText` | transonic2.py:38-40 | A field renders as one word; `int` reads an integer field back, and `"?"` is rendered exactly for the placeholder |
| `PingRecord.RttTextSplits` | transonic2.py:38-40 | The four figures joined by `/` form one word that splits back into them |
| `PingRecord.RenderLine` | transonic2.py:38-40 | The format string lays out four space-separated parts: the host name, `S<tx>/R<rx>,`, `maMD:` and the four figures joined by `/` |
| `PingRecord.RenderLineFields` | transonic2.py:37-40 | The rendering's whitespace fields are the host, `S<tx>/R<rx>,`, `maMD:` and the figures joined by `/`, which split back into the four figures |
| `Transonic2.NewPingResult` | transonic2.py:25-35 | The host is kept, and given stats and figures are stored; a missing part becomes the four-`"?"` record |
| `Transonic2.UnknownStr` | transonic2.py:28-40 | A record built without stats and figures renders as `<host> S?/R?, maMD: ?/?/?/?` |
| `Transonic2.Str` | transonic2.py:37-40 | `str(result)` starts with the host name followed by ` S<tx>/R`, and ends with `, maMD: ` followed by the four figures joined by `/` |
| `Transonic2.StrReadsBack` | transonic2.py:37-40 | `str(result)` has four fields: the host, `S<tx>/R<rx>,`, `maMD:`, and a field that splits on `/` into the four figures |
| `Transonic2.IsDown` | transonic2.py:89-90 | The test of both loops (repeated at lines 101-102): a host with counts is up iff rx >= tx and rx > 0; a host with the `"?"` placeholder is always up |
| `Transonic2.CountUp` | transonic2.py:94 | The number of hosts the loops count up (`counts[0] += 1`, also line 106) plus the number counted down equals the number of results |
| `Transonic2.CountDown` | transonic2.py:91 | The number of hosts the loops count down (`counts[1] += 1`, also line 103) is at most the number of results |
| `Transonic2.CountDownIsDownHosts` | transonic2.py:89-91 | The down count is the number of positions whose host is down |
| `Transonic2.FormatResults` | transonic2.py:81-108 | `list` gives the renderings joined by `"\n"`; `cell` and `ccell` give the entries followed by `"\n<up> up, <down> down"` with the true counts; any other style gives None |
| `Transonic2.CellLoop` | transonic2.py:87-96 | The `cell` loop appends each host's name, reverse-video wrapped iff down, and ends with `counts` holding the up and down counts |
| `Transonic2.CcellLoop` | transonic2.py:99-108 | The `ccell` loop appends `!` for each down host and `.` for each up host, and ends with `counts` holding the up and down counts |
| `Transonic2.CellWord` | transonic2.py:89-95 | A down host's cell entry is its name between the reverse-video and normal escapes, and so longer by both; an up host's entry is its bare name |
| `Transonic2.CcellWord` | transonic2.py:101-107 | A ccell entry is one character: `!` exactly when the host is down, `.` exactly when it is up |
| `Transonic2.Marks` | transonic2.py:98-108 | One character per host, in order: `!` exactly for down hosts, `.` exactly for up hosts |
| `Transonic2.CcellJoin` | transonic2.py:108 | `"".join` of the ccell entries is the per-host marks string |
| `Transonic2.MarksCount` | transonic2.py:98-108 | The marks hold as many `!` as hosts down and as many `.` as hosts up |
| `Transonic2.CcellReadsBack` | transonic2.py:98-108 | The ccell text splits into two lines, the marks and the tally, and the tally's numbers are the counts of `.` and `!` in the marks |
| `Transonic2.CcellExample` | transonic2.py:98-108 | Three hosts with the third down render as exactly `..!\n2 up, 1 down` |
| `Transonic2.TallyLine` | transonic2.py:96 | The tally `"%i up, %i down"` (also line 108) has the fields `<up>`, `up,`, `<down>`, `down`, and `int` reads both counts back |
| `Transonic2.CellReadsBack` | transonic2.py:86-96 | For host names that are single words without an ESC character, the cell line's fields are the entries in host order, and an entry starts with the reverse-video escape iff its host is down |
| `Transonic2.CellLines` | transonic2.py:86-96 | With host names free of line breaks, the cell text is exactly two lines: the entries joined by spaces, then the tally |
| `Transonic2.ListText` | transonic2.py:83-84 | For at least one host, and renderings without a line break, the list text splits on `"\n"` into the hosts' renderings, one line per host, in input order (with no hosts the text is empty, and `"".split("\n")` is `[""]`) |
| `Transonic2.HostResult` | transonic2.py:53-79 | `pinger` fails exactly when the parse fails, with the same exception; otherwise it returns a record for that host whose stats are all integers or all `"?"` |
| `Transonic2.HostResultNoSummary` | transonic2.py:28-31 | The record holds the four-`"?"` stats exactly when the output had no summary line |
| `Transonic2.HostResultLastSummary` | transonic2.py:60-70 | Otherwise the record holds the stats of the last summary line |
| `Transonic2.HostResultLastRtt` | transonic2.py:72-77 | Otherwise the record holds the figures of the last rtt line |
| `Transonic2.LongCountHostUp` | transonic2.py:62-90 | With a transmitted count of 10 or more, ping's summary line is not recognised, the host gets the `"?"` record, and it is counted up even when rx is 0 |
| `Transonic2.HostResultNoRtt` | transonic2.py:32-35 | Without an rtt line the record holds the four-`"?"` figures |
| `Transonic2.Pinger` | transonic2.py:53-79 | `pinger` on a given output yields `HostResult` of that host and output |
| `Transonic2.PingAll` | transonic2.py:133 | Result i is host i's record, in input order, and every record is well formed; otherwise the run fails with the exception of the first host that raised one |
| `Transonic2.AnsweredHost` | transonic2.py:53-79 | A host whose report ends with ping's summary and rtt lines gets a record with exactly the printed numbers and figures |
| `Transonic.NewStyledResult` | transonic.py:17-28 | Like the second iteration's constructor, with missing parts set to `"?"`, and it stores the style (`"line"` by default) |
| `Transonic.Str` | transonic.py:30-36 | Style `"line"` renders exactly as the second iteration's `__str__`; any other style gives a text that starts `Unknown style '` and ends with a quote |
| `Transonic.DefaultStyleIsLine` | transonic.py:17-34 | A record built with the default style renders as the second iteration's record |
| `Transonic.UnknownStyleMessage` | transonic.py:35-36 | Any other style gives `Unknown style '<style>' for '<host>'`: it depends on the style and host only, is 23 characters longer than the two, and the style and the host read back from characters 15 on and from after `' for '` up to the closing quote |
| `Transonic.HostResult` | transonic.py:46-72 | `pinger` fails exactly when the parse fails; otherwise it returns a record for that host with style `"line"` and stats that are all integers or all `"?"` |
| `Transonic.Pinger` | transonic.py:46-72 | `pinger` on a given output yields `HostResult` of that host and output |
| `Transonic.IterationsAgree` | transonic.py:53-72 | Both iterations fail on the same outputs and otherwise build the same record, which renders the same way |
| `PyText.JoinSplit` | transonic2.py:60 | Joining the pieces of `s.split(c)` with `c` gives back `s` |
| `PyText.SplitOn` | transonic2.py:60 | `s.split(c)` yields at least one piece, and no piece contains `c` |
| `PyText.SplitJoin` | transonic2.py:84 | Splitting a `join` of parts that do not contain the separator gives back the parts, so `join` is the inverse of `split` on them (also for the `"/"` split at line 74) |
| `PyText.SplitCount` | transonic2.py:74 | `s.split(c)` has one more piece than `s` has occurrences of `c` |
| `PyText.FieldsUnwords` | transonic2.py:63 | Whitespace `split()` undoes `" ".join` of words |
| `PyText.Fields` | transonic2.py:63 | Every field of the whitespace `split()` is a non-empty word without whitespace |
| `PyText.ParseNatToString` | transonic2.py:65-69 | `int` reads back what `%i` prints |
| `PyText.NatToString` | transonic2.py:96 | `%i` of a natural number is a non-empty digit string without a leading zero, one character long exactly for numbers below 10 |
| `PyText.ParseNat` | transonic2.py:65-69 | `int` of a field succeeds exactly on a non-empty string of ASCII digits |

## Left out

- The ping invocation (`subprocess.getstatusoutput`, transonic2.py:57-58 and transonic.py:50-51) is external process I/O. Its output becomes a parameter, and its exit status, which the code does not use, is dropped.
- `multiprocessing.Pool` (transonic2.py:131-133, transonic.py:79-80) is concurrency. `Transonic2.PingAll` runs the hosts one after another. Which exception `pool.map` re-raises when several hosts fail is not modelled; the model reports the first host in input order.
- The command line, `eprint`, `usage`, the no-op `set_pingcount`, and the wall-clock timing and per-host float division are I/O, glue and floating point.
- terminal.py is not part of this model. It probes terminal capabilities through curses and changes module-level state.
- The ANSI escape constants are kept as opaque literal strings.
- `PyText.ParseNat`: models `int()` on plain ASCII decimal digits only. Python also accepts a sign, surrounding whitespace, underscores and non-ASCII digits. Fields of a summary line never contain whitespace, so only the other forms differ. CPython 3.11 and later also refuse numerals of more than 4300 digits in `int()` and `str()`; the model accepts numerals of any length.
- The model uses Python 3 semantics throughout: the Unicode whitespace set of `str.split()` (`PyText.IsSpace`) and a TypeError for comparing an integer with a string. transonic2.py:1 names python2, but the file only runs under Python 3, since `subprocess.getstatusoutput` (transonic2.py:58) does not exist in Python 2.
- `Transonic2.FormatResults`: for the `cell` and `ccell` styles, requires every record's stats to be all integers or all `"?"`. This is stronger than Python needs: only a tx/rx pair that mixes an integer with `"?"` raises TypeError, through the `>` at transonic2.py:89 and 101. The requirement holds at the only source of records, because `Transonic2.PingAll` and `Transonic2.HostResult` ensure it.
- The rtt line is read with the plain whitespace split. `line.split(None, 4)[3]` in the code is the same fourth field whenever the line has at least four fields.
