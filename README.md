# PIREP CLI — a verified model

This project models the core of a small command-line tool for pilot weather
reports (PIREPs). The tool does four things:

- It asks for the fields of a report on the console, checking each answer.
- It formats the report as one line of text (`ROA PIREP KJFK /TM 1430 /FL050 /TP B737 /WX TURB ICE /TA M05`).
- It stores the report in a three-table database: airports, reports and weather phenomena.
- It lists every stored report in a box-drawn table.

The files follow the program's structure:

- `Wrappers.dfy`: `Option` (Python's `None`) and `Outcome`.
- `Text.dfy`: the ASCII behaviour of the Python string builtins the tool uses. These are `strip`, `upper`, `str(n)`, `split`, `join`, fixed-width slicing, and the `<`/`^` alignments.
- `Models.dfy`: the report record, the three validators and `format_pirep` (`pirep_cli/models.py`).
- `Collector.dfy`: `get_pirep_data`. It is defined twice:
  - `CollectFrom`, a function of the typed lines;
  - `Collect`, a method whose re-prompt loops are proved equal to that function.
- `CollectorExamples.dfy`: one worked session. In it a time is re-asked, the first pass sees `DONE` with no phenomena and restarts, and the second pass completes.
- `Store.dfy`: `save_pirep` and `list_pireps` (`pirep_cli/db_ops.py`). The three tables are modelled in two forms:
  - a value `Tables`, with `Committed` (a successful save) and `ListPireps` as functions;
  - a class `PirepStore` whose `Save` method stages its rows and commits them, or changes nothing.
- `Listing.dfy`: the `--list` table (`pirep_cli/cli.py` lines 41–80). It is a function `ListOutput` of the formatted reports, plus a method `Render` with the source's nested loops.
- `Cli.dfy`: the `--save` and `--list` branches of `main`, as glue.

The headline results:

- Every record the collector returns passes all validators (`Collector.CollectValid`, `Collector.Collect`).
- Saving then listing gives the earlier listing followed by the saved report's text (`Store.RoundTrip`). This holds whether or not the airport already existed.
- The table places report `i` under the label `PIREP i:`, with a separator row between reports only (`Listing.ReportPlacement`).

The source reads records from a database whose retrieval order is not specified. The model assumes insertion order, which is also key order.

Three behaviours of the code worth knowing:

- **Which errors `main` reports.** `main` reports only `IOError`, `OSError` and `ValueError`. The errors of the database library are not subclasses of these, so a storage failure usually escapes `main` instead of being printed. The model keeps this open: each storage fault carries a flag, `caughtByMain`.
- **Where lines are split.** The table splits a report at newlines. It then highlights each line up to its first colon. A formatted report normally has neither, so it is printed as one unhighlighted line (or wrapped into several rows) rather than one row per field.
- **Row widths.** The rules are 80 characters wide (two corners and 78 rules). The title and body rows are 82 characters wide (bar, space, 78 columns, space, bar). `Listing.RowWidths` states both widths.

## Model

| member | source | states |
|---|---|---|
| Text.StripShape | pirep_cli/models.py:65 | `strip()` returns the input's middle `s[a..b]` unchanged, with only whitespace before `a` and from `b` on; it leaves no whitespace at either end, never lengthens, and gives `""` exactly when every character is whitespace |
| Text.UpperIsUpper | pirep_cli/models.py:65 | `upper()` maps each character to its capital, leaves no lower-case letter, keeps a stripped string stripped, and is idempotent |
| Text.DecimalOfNatToString | pirep_cli/cli.py:67 | `str(n)` is a digit string whose decimal value is `n` |
| Text.NatToString | pirep_cli/cli.py:67 | `str(n)` is non-empty, all digits, and has no leading zero when `n > 0` |
| Text.SplitOnJoin | pirep_cli/cli.py:65 | `split(c)` pieces contain no `c` and re-join with `c` to the original; a string without `c` is one piece |
| Text.FirstIndex | pirep_cli/cli.py:71 | the index returned holds the first occurrence of the character and none comes before it |
| Text.ChunksConcat | pirep_cli/cli.py:76 | the 78-wide slices concatenate back to the content |
| Text.ChunksWidths | pirep_cli/cli.py:76 | each slice is non-empty and at most 78 wide, and every slice but the last is exactly 78 wide |
| Text.PadRightShape | pirep_cli/cli.py:77 | `{:<w}` keeps the text as a prefix and fills with spaces to width `w` |
| Text.CenterShape | pirep_cli/cli.py:62 | `{:^w}` has width `w`, holds the text at offset `(w-len)/2` with every other position a space, and puts the odd fill space on the right |
| Models.FullMatchRepeatIff | pirep_cli/models.py:44 | `re.fullmatch` of `[cls]{n}` holds iff the string has length `n` and every character is in the class |
| Models.ValidateIcaoIff | pirep_cli/models.py:42-44 | `validate_icao(s)` iff `s` is four letters `A`–`Z` |
| Models.IcaoExamples | pirep_cli/models.py:42-44 | `KJFK` is accepted; `kjfk` and `KJF` are rejected |
| Models.ValidateTimeIff | pirep_cli/models.py:46-54 | `validate_time(s)` is false unless `s` is four digits, and for four digits holds iff hours ≤ 23 and minutes ≤ 59 |
| Models.TimeExamples | pirep_cli/models.py:46-54 | `2460`, `935` and `1260` are rejected; `0000` and `2359` are accepted |
| Models.ValidateAltitudeIff | pirep_cli/models.py:56-58 | `validate_altitude(s)` iff `s` is `SFC` or three digits |
| Models.AltitudeExamples | pirep_cli/models.py:56-58 | `SFC` and `050` are accepted; `50` and `abc` are rejected |
| Models.JoinOptional | pirep_cli/models.py:136-142 | an optional segment adds `" " + tag + value` when the field is present and non-empty, and nothing otherwise |
| Models.FormatLayout | pirep_cli/models.py:127-142 | the report text is the five mandatory segments in order, then `/TA`, `/WV`, `/RM` in that order, each only when present and non-empty |
| Models.FormatWithoutOptionals | pirep_cli/models.py:129-142 | with no optional field present the text is exactly the five mandatory segments joined by single spaces |
| Models.FormatIgnoresAirportName | pirep_cli/models.py:127-142 | the airport name does not influence the report text |
| Models.FormatExample | pirep_cli/models.py:127-142 | ROA/KJFK/1430/050/B737/[TURB, ICE]/M05 formats as `ROA PIREP KJFK /TM 1430 /FL050 /TP B737 /WX TURB ICE /TA M05` |
| Collector.OptionalField | pirep_cli/models.py:119-124 | an optional answer is `None` iff it is empty after normalisation, else the answer itself |
| Collector.FirstAcceptedIsFirst | pirep_cli/models.py:64-104 | every line a prompt skips, or every remaining line when none is accepted, is rejected by that prompt |
| Collector.Ask | pirep_cli/models.py:64-104 | an accepted answer is the normalised form of a later line and passes the prompt's check |
| Collector.DoneIndexIsFirst | pirep_cli/models.py:108-111 | no line before the `DONE` line normalises to `DONE` |
| Collector.TokensValid | pirep_cli/models.py:108-113 | every phenomenon kept is non-empty, stripped, upper-case and not `DONE` |
| Collector.AnswerNormalized | pirep_cli/models.py:64-104 | an accepted answer is stripped, and upper-case for every prompt but airport name and time |
| Collector.RequiredValid | pirep_cli/models.py:62-104 | the six required answers: report type UUA or ROA, ICAO valid, name non-empty, time valid, altitude valid, aircraft type non-empty and upper-case |
| Collector.OptionalNormalized | pirep_cli/models.py:119-124 | temperature and wind are absent or non-empty upper-case; remarks are absent or non-empty and only stripped |
| Collector.FinishComplete | pirep_cli/models.py:106-125 | a completed pass yields phenomena equal to the non-empty tokens before `DONE`, in input order with duplicates, and the optionals from the next three lines |
| Collector.AttemptComplete | pirep_cli/models.py:60-125 | a completed pass satisfies every validator; its six required fields are the answers its six prompts accepted, the phenomena loop starts on the line after them, and phenomena and optionals come from the lines up to and after `DONE` |
| Collector.CollectValid | pirep_cli/models.py:60-125 | every record `get_pirep_data` returns, after any number of restarts, satisfies all validators |
| Collector.CollectFromLastPass | pirep_cli/models.py:60-125 | the required fields of the returned record are the answers accepted by the prompts of one pass that began at or after the starting line |
| Collector.RestartWhenNoPhenomena | pirep_cli/models.py:114-116 | a pass that reaches `DONE` with no phenomenon restarts the whole protocol on the next line |
| Collector.ReadAnswer | pirep_cli/models.py:64-69 | the re-prompt loop returns the first accepted answer and the position after it, or nothing when input runs out |
| Collector.ReadPhenomena | pirep_cli/models.py:106-113 | the phenomena loop stops at the first `DONE` and keeps the non-empty tokens before it |
| Collector.ReadRequired | pirep_cli/models.py:62-104 | the six prompt loops in order give the required answers |
| Collector.FinishPass | pirep_cli/models.py:114-125 | after `DONE`: a restart without phenomena, else the three optional answers |
| Collector.ReadPass | pirep_cli/models.py:60-125 | one pass of the prompts computes the protocol's pass |
| Collector.Collect | pirep_cli/models.py:60-125 | returns a record iff the input suffices, that record is the protocol's, and it satisfies all validators |
| CollectorExamples.CollectExample | pirep_cli/models.py:60-125 | a session with a rejected time and an empty first phenomena list ends with the second pass's record |
| Store.FindAirport | pirep_cli/db_ops.py:24 | the airport found carries the ICAO code; when none is found no row carries it |
| Store.AirportById | pirep_cli/db_ops.py:57 | the airport found has the key; when none is found no row has it |
| Store.NextIdFresh | pirep_cli/db_ops.py:28 | a newly assigned key is larger than every key in use, so keys keep growing |
| Store.SaveAirport | pirep_cli/db_ops.py:24-28 | an existing airport is reused unchanged, otherwise exactly one row is added; ICAO codes stay unique; the chosen key names the airport with the report's code |
| Store.SavePirep | pirep_cli/db_ops.py:29-40 | exactly one pirep row is added, with a fresh key, the report's fields, and a link to the airport with the report's code |
| Store.SavePhenomena | pirep_cli/db_ops.py:41-42 | exactly one phenomenon row per phenomenon is added, in list order, all linked to the new pirep |
| Store.SavedPhenomena | pirep_cli/db_ops.py:41-42 | in a well-formed database the phenomena stored for the new pirep are exactly the report's, in order |
| Store.PhenomenaOfRows | pirep_cli/db_ops.py:58 | the rows written for a report give back its phenomena in order |
| Store.CommittedWellFormed | pirep_cli/db_ops.py:20-48 | a committed save keeps keys growing, ICAO codes unique and every foreign key valid |
| Store.SameIcaoTwice | pirep_cli/db_ops.py:24-40 | two saves with the same ICAO code add at most one airport row and two pirep rows linked to the same airport |
| Store.RebuildOld | pirep_cli/db_ops.py:54-72 | a save does not change how any earlier report is rebuilt |
| Store.RebuildNew | pirep_cli/db_ops.py:56-70 | the new report is rebuilt with its own fields and phenomena, differing at most in the airport name |
| Store.RoundTrip | pirep_cli/db_ops.py:20-72 | after a committed save the listing is the earlier listing followed by the saved report's text |
| Store.ListEndsWithSaved | pirep_cli/db_ops.py:50-72 | after a committed save the last listed string is the saved report's text |
| Store.PirepStore.constructor | pirep_cli/db_ops.py:15-18 | a fresh database has three empty tables and is well formed |
| Store.PirepStore.Save | pirep_cli/db_ops.py:20-48 | success unless the engine fails within its round trips; on success the tables are the committed ones, on failure they are unchanged and the error is returned |
| Store.PirepStore.List | pirep_cli/db_ops.py:50-74 | returns one formatted rebuilt report per pirep row in order, and changes nothing |
| Listing.RowWidths | pirep_cli/cli.py:61-63 | the rules are 80 wide; the title and body rows are 82 wide; the title has `PIREP LIST` between 34 spaces on each side; a body row holds its piece padded with spaces |
| Listing.LabelText | pirep_cli/cli.py:67 | the label row of report `n` reads `PIREP n:` after the highlight code, and its digits read back as `n` |
| Listing.HighlightNoColon | pirep_cli/cli.py:70-75 | a line without a colon is printed unchanged |
| Listing.HighlightSplit | pirep_cli/cli.py:70-75 | a line `field:rest` whose field has no colon is printed as highlighted `field:` followed by `rest` |
| Listing.HighlightHasSplit | pirep_cli/cli.py:71 | a line with a colon is its part before the first colon, the colon, and the rest |
| Listing.LineRowsShape | pirep_cli/cli.py:76-77 | the rows of a line are body rows of pieces that spell the highlighted line, each at most 78 wide; an empty line prints nothing |
| Listing.ReportRowsSingleLine | pirep_cli/cli.py:65 | a report without a newline is printed as one line |
| Listing.TableFrame | pirep_cli/cli.py:41-80 | no reports prints only the message; otherwise the top rule, title and separator come first and the bottom rule last |
| Listing.BlockAt | pirep_cli/cli.py:64-79 | report `i` is printed as its block from line `Start(i)` |
| Listing.LabelAndRows | pirep_cli/cli.py:64-79 | report `i` is announced by `PIREP i+1:`, followed by its rows and, unless it is last, a separator |
| Listing.LastBeforeBottom | pirep_cli/cli.py:78-80 | the last report's rows are followed directly by the bottom rule |
| Listing.SeparatorBeforeLabel | pirep_cli/cli.py:78-79 | every label but the first directly follows a separator |
| Listing.ReportPlacement | pirep_cli/cli.py:64-80 | label, rows, then a separator between reports and the bottom rule after the last |
| Listing.RenderLine | pirep_cli/cli.py:68-77 | the wrapping loop prints the line's rows |
| Listing.RenderReport | pirep_cli/cli.py:65-77 | the loop over a report's lines prints the report's rows |
| Listing.Render | pirep_cli/cli.py:41-80 | the listing branch prints exactly the message or the table |
| Cli.SaveAndReport | pirep_cli/cli.py:33-37 | a successful save prints the saved message; a failure that `main` catches prints the error; any other failure escapes; only success changes the store |
| Cli.RunSave | pirep_cli/cli.py:27-37 | prints the banner, then the generated report and the save outcome when input suffices; running out of input escapes with only the banner printed |
| Cli.RunList | pirep_cli/cli.py:38-82 | prints the rendered listing, or the caught error message, or nothing when the error escapes |
| Cli.SavedReportListedLast | pirep_cli/cli.py:64-80 | after a successful save the table's last block is labelled with the report count and holds the saved report's rows before the bottom rule |

## Left out

- The database engine, sessions, `flush`, `commit` and `rollback` are replaced by an in-memory store. A storage failure is a parameter: the engine round trip at which it strikes. All-or-nothing behaviour is proved for every such failure point.
- Retrieval order: neither query in `list_pireps` has an `order_by`. The model lists pireps and phenomena in insertion order, which is also key order.
- Column length limits (`String(4)` and the others) are not enforced by SQLite and are not modelled.
- Cascade delete is not modelled: there is no delete path.
- Keys follow SQLite's rule for a table without `AUTOINCREMENT`: one above the largest key, and 1 in an empty table.
- Collector.CollectFrom: restarts are unbounded in the model. The program restarts by calling `get_pirep_data` recursively, so about 1000 passes in a row without phenomena hit Python's recursion limit; the resulting `RecursionError` escapes `main`. `Collect` loops instead.
- Console I/O:
  - Input is a finite sequence of lines typed; output is a sequence of printed lines.
  - The prompt texts and the re-prompt error messages are not modelled. Nor are the two other lines the collector prints: the phenomena instruction and the restart notice. `Cli.RunSave`'s output omits them.
  - Running out of input makes collection return `None`. The program would instead block or raise an end-of-file error.
- Cli.RunSave: the traceback of an escaping exception is only a flag, `aborted`. Its text is not modelled.
- Argument parsing (`argparse` and its mutually exclusive flags) and the import boilerplate are not modelled.
- Unicode: `\d`, `strip` and `upper` are modelled on ASCII digits, ASCII whitespace and ASCII letter case. Python's versions also act on non-ASCII characters.
- `datetime.strptime('%H%M')` is replaced by the range check it amounts to on four digits: hours at most 23 and minutes at most 59.
- ANSI colour codes and box-drawing characters are opaque constants with no terminal meaning. Wrapping counts the colour-code characters, as the source does.
- Text.ChunksWidths: does not state the number of slices (the ceiling of length over 78); only the width of each slice.
- Cli.RunList: a storage failure while listing is a parameter that either applies before anything is printed or not at all.
