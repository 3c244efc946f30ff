# calendar2pdf core, modelled in Dafny

calendar2pdf turns iCalendar files into a one-page PDF wall calendar for
2024. It has twelve month blocks in four columns and one row per day
number. Each all-day event is drawn as a coloured bar over the days it
spans, with its summary written into the bar line by line.

This project models the logic between parsing and drawing. Each part is
proved against a specification written as Dafny functions:

- **Dates** (`dates.dfy`) is the proleptic Gregorian calendar that
  chrono's `NaiveDate` provides. Dates are (year, month, day) triples
  with a day number that counts from 0001-01-01, a Monday. The module
  covers:
  - validity;
  - successor;
  - adding days;
  - differences;
  - weekdays;
  - the `YYYYMMDD` DATE token of section 3.3.4 of RFC 5545.
- **Events** (`events.rs`, `events.dfy`) models `get_events`. It reads
  each calendar as its parsed top-level components and the
  sub-components under them. It picks the last DTSTART, DTEND and
  SUMMARY of each, skips incomplete components, and panics on a date
  that does not parse. It counts `num_days = 1 + (end - start)` and
  drops `"Canceled: "` summaries. Each event gets its calendar's index
  as its id.
- **Days** (`main.rs`, `days.dfy`) models `populate_days`, the map from
  each date to the summaries of the events covering it.
- **Grid** (`main.rs` and `printable.rs`, `grid.dfy`) models
  `base_calendar`. It decides which dates get a cell and where the cell
  sits, as an integer (column, row) slot. It also decides whether the
  cell's day boxes are shaded, through the shade flag that every Monday
  toggles, and places the month headers.
- **LineBreaks** (`printable.rs`, `linebreaks.dfy`) models the second
  half of `calc_line_breaks`. The input is the y coordinate of each
  glyph. Glyphs are grouped into lines, the text is sliced at the line
  starts, and each slice has its trailing whitespace trimmed.
- **Placement** (`printable.rs`, `placement.dfy`) models `write_events`
  as the draw records it emits:
  - a box per event and day that has a cell, with its date, offset,
    slot, lane, fill and first/last-day insets;
  - a label with the summary line of that offset.

  The label guard is a parameter. `AsWritten` is the source's
  `day <= lines.len()`, which can index past the last line, and
  `Corrected` is `day < lines.len()` (see Findings).

A Rust panic (an `unwrap` on a failed parse, a slice or index out of
range) is modelled as an `Err` outcome of a `Result` (`results.dfy`).
Each imperative loop of the source is a `method` with a loop, proved
equal to its specification function or map. The iterator pipelines of
`calc_line_breaks` (`enumerate`/`group_by`/`map` and
`tuple_windows`/`map`, `src/printable.rs:70-79`) compute values without
mutation, so they are recursive functions (`LineStarts`, `Windows`). The
lemmas state the properties of these functions.

RFC 5545 (section 3.6.1) makes DTEND of an all-day event exclusive. The
code counts it as an occupied day (`src/events.rs:39`, and
`day <= event.end` at `src/main.rs:245`). The model follows the code.

## Model

| member | source | states |
|---|---|---|
| Dates.Valid | src/main.rs:109 | definition, no contract: `from_ymd_opt(y, m, d)` succeeds exactly for months 1 to 12 and days 1 to `DaysInMonth`; its properties are stated by Dates.DaysInMonth, Dates.Succ and Grid.LeapDayLaidOut |
| Dates.DiffDays | src/events.rs:39 | definition, no contract: `(a - b).num_days()` as a difference of day numbers; stated by Dates.AddDiffDays and Dates.DiffAddDays |
| Dates.IsMonday | src/main.rs:110-111 | definition, no contract: `format("%a") == "Mon"` as weekday 0; stated by Dates.WeekdaySucc, Dates.FirstOf2024IsMonday and Grid.ShadeFlipsOnMonday |
| Dates.DaysInMonth | src/main.rs:109 | months have 28 to 31 days; 29 exactly for February of a leap year (the day numbers `from_ymd_opt` accepts) |
| Dates.Succ | src/main.rs:249 | the next day is a valid date, comes after the day, and has the next day number, across month and year ends |
| Dates.AddDays | src/printable.rs:103 | `start + n days` is a valid date whose day number is `n` more than start's |
| Dates.BeforeIffDayNumber | src/main.rs:245 | chronological order of valid dates is the order of their day numbers |
| Dates.NotAfterIffDayNumber | src/main.rs:245 | `a <= b` on valid dates iff day number of a <= day number of b |
| Dates.DayNumberInjective | src/events.rs:39 | two valid dates have the same day number iff they are the same date |
| Dates.AddDiffDays | src/events.rs:39 | for a <= b, `(b - a).num_days()` is non-negative and adding it to a gives b |
| Dates.DiffAddDays | src/printable.rs:103 | the difference between `start + n days` and start is n |
| Dates.WeekdaySucc | src/main.rs:110-111 | the weekday advances by one, modulo 7, from each day to the next |
| Dates.FirstOf2024IsMonday | src/main.rs:79 | 2024-01-01 is a valid date and a Monday |
| Dates.DaysBeforeYearStep | src/main.rs:249 | the days before year y+1 are those before y plus the length of y (365, or 366 in a leap year) |
| Dates.ParseDate | src/events.rs:37-38 | a token parses only to a valid date with a year of at most four digits; the full characterisation, including the panic on every other token, is Dates.ParseDateExact |
| Dates.ParseDateExact | src/events.rs:37-38 | a token parses to d iff d is valid, its year has at most four digits, and the token begins with d's eight digits; every other token is the `unwrap` panic |
| Dates.ParseDateRejects | src/events.rs:37-38 | `20240230`, `20241301` and `2024-03-04` are the parse panic |
| Dates.DigitsValueInjective | src/events.rs:37 | two digit runs of the same length that spell the same number are the same run, so a parsed token's digits are determined by its date |
| Dates.FormatDate | src/events.rs:37 | not in the source: the printing side of the `%Y%m%d` format the source parses with, used to state the round trip and the exact parse; the token of a date is eight ASCII digits |
| Dates.ParseFormatDate | src/events.rs:37-38 | round trip: parsing the token of a valid date, followed by any remainder, gives back that date |
| Dates.ParseDateIgnoresRemainder | src/events.rs:37-38 | what follows the eight leading characters (a `T...` time part) never changes the parse |
| Events.ScanProperties | src/events.rs:24-34 | start, end and summary are each the value of the last property of that name, or none |
| Events.LastValueIsLastOccurrence | src/events.rs:27-33 | the value kept is v iff some property of that name has value v and no later property has that name (the last occurrence wins) |
| Events.LastValueMissing | src/events.rs:24-34 | no value is kept iff no property has that name |
| Events.ComponentEvent | src/events.rs:35-53 | definition, no contract: what one sub-component yields; stated by Events.ComponentEventErr, Events.IncompleteSkipped, Events.CompleteComponentEvent, Events.CanceledDropped, Events.NumDaysOfRange and Events.ComponentEventId |
| Events.VisitComponent | src/events.rs:35-53 | one sub-component yields exactly what the specification says: nothing, an event, or the parse panic |
| Events.ComponentEventErr | src/events.rs:35-52 | a sub-component panics iff it is complete and its DTSTART or DTEND does not parse; a missing field skips it before any parse |
| Events.IncompleteSkipped | src/events.rs:35-53 | a component missing DTSTART, DTEND or SUMMARY yields nothing and does not panic |
| Events.CompleteComponentEvent | src/events.rs:36-50 | a complete component with parseable dates yields nothing when canceled; otherwise it yields the event with its calendar's id, both dates, `1 + (end - start)` days and the summary unchanged |
| Events.CanceledDropped | src/events.rs:42-49 | a summary that begins with the exact prefix `"Canceled: "` yields no event |
| Events.NumDaysOfRange | src/events.rs:37-49 | an emitted event has valid dates and `num_days = 1 + (end - start)`; start == end gives 1; end < start is not rejected and gives num_days <= 0 (both directions) |
| Events.ComponentEventId | src/events.rs:44 | an event's id is the index of the calendar its component came from |
| Events.GetEvents | src/events.rs:15-58 | the loops return exactly the events of every sub-component of every calendar, in visiting order, or the first panic |
| Events.VisitCalendar | src/events.rs:17-56 | one calendar extends the events by its own, or its panic is the outcome of the whole run |
| Events.VisitTop | src/events.rs:22-55 | one top-level component extends the events by those of its sub-components, or its panic is final |
| Events.PanicIsFinal | src/events.rs:37-38 | a panic in a sub-component, after all earlier ones succeeded, is the result of `get_events` |
| Events.ErrPersists | src/events.rs:37-38 | once a prefix of the visits panics, every longer run has that same outcome |
| Events.EventsOfOkIff | src/events.rs:37-38 | extraction succeeds iff every visited sub-component's own outcome succeeds |
| Events.EventsOfErrIff | src/events.rs:35-38 | extraction panics iff some complete sub-component (DTSTART, DTEND and SUMMARY all present) has a DTSTART or DTEND that does not parse; incomplete sub-components are never parsed |
| Events.EventsOfAppend | src/events.rs:17-23 | the events of two runs visited one after the other are the events of the first, then those of the second |
| Events.EventsOfMembers | src/events.rs:22-50 | an event is in the output iff some visited sub-component yields it |
| Events.StreamIds | src/events.rs:17 | sub-components are visited calendar by calendar: their ids are below the calendar count and never decrease |
| Events.OrderedIds | src/events.rs:17-23 | when the visits go in calendar order, the events they yield do too |
| Events.AllEventsFacts | src/events.rs:17-49 | every event has id < number of calendars, is not canceled, has valid dates and `num_days = 1 + (end - start)`; ids never decrease along the output (calendar order) |
| Days.Covering | src/main.rs:242-248 | definition, no contract: the summaries of the events covering a date, in input order; stated by Days.CoveringInOrder, Days.KeyIffCovered, Days.SpanCovered and Days.CanceledIgnored |
| Days.PopulateDays | src/main.rs:240-254 | a date is a key iff some non-canceled event covers it, and its entry is the summaries of the covering events in input order |
| Days.AddSpan | src/main.rs:244-250 | walking one event from start to end appends its summary to every date it covers, adds exactly those dates as keys, and leaves every other entry alone |
| Days.CoveringStep | src/main.rs:242-248 | one more event appends its summary to the entries of the dates it covers and to no other |
| Days.CoveringInOrder | src/main.rs:242-248 | `days[d]` is, in input order, the summary of each event covering d and of no other; its length is the number of such events |
| Days.KeyIffCovered | src/main.rs:243-246 | a date has a non-empty entry iff some event covers it |
| Days.SpanCovered | src/main.rs:244-249 | a non-canceled event covers exactly the dates start + k for 0 <= k <= end - start |
| Days.ReversedRangeCoversNothing | src/main.rs:245-246 | an event whose end is before its start covers no date |
| Days.CanceledIgnored | src/main.rs:243 | removing a canceled event changes no entry |
| Grid.BaseCalendar | src/main.rs:74-179 | the cells are exactly the 366 dates of 2024, each in its slot; the shaded cells are exactly those with an odd number of Mondays from Jan 1 to the date; the twelve headers are in order with the `MONTHS` names |
| Grid.LayColumn | src/main.rs:91-175 | a column lays out its three months, carrying the cells, shades, flag and headers to the first month of the next column |
| Grid.LayBlock | src/main.rs:92-106 | a month block draws its header in row 32k of its column and then lays out its day rows; the block ends 32 rows below where it started |
| Grid.LayMonth | src/main.rs:107-161 | the 31 day rows of a month lay out every date of the month, 31 rows whether or not each day exists |
| Grid.LayDay | src/main.rs:109-114 | a day number that exists toggles the flag on a Monday and gets its cell and shade; one that does not changes nothing |
| Grid.ColumnOfMonth | src/main.rs:88-91 | month m is block (m-1) % 3 of column (m-1) / 3 |
| Grid.HeaderStep | src/main.rs:92-104 | the header drawn for a month carries its `MONTHS` name and sits in row 32k of its column |
| Grid.CellStep | src/main.rs:107-114 | the row in which the loop places day d of block k is 32k + d, the date's slot |
| Grid.ShadeVisit | src/main.rs:109-114 | one day of the loop on the shading: a date that exists flips the flag on a Monday and takes its value |
| Grid.WalkKeys | src/main.rs:107-114 | at every point of the walk, exactly the dates of 2024 already passed have a cell |
| Grid.WalkSlots | src/main.rs:105-114 | every cell laid out sits in its date's slot |
| Grid.WalkMarks | src/main.rs:114-133 | exactly the dates with a cell have a shade |
| Grid.WalkCount | src/main.rs:107-114 | the number of cells is the number of dates of 2024 passed so far |
| Grid.WalkFlag | src/main.rs:82-113 | the running flag is the parity of the Mondays passed so far; it carries across month and column boundaries |
| Grid.WalkShade | src/main.rs:110-133 | each cell's shade is the parity of the Mondays from Jan 1 to its date, both included |
| Grid.MondayParity | src/main.rs:110-113 | toggling the parity flag on a Monday gives the parity up to and including that day |
| Grid.FinishedLayout | src/printable.rs:140-178 | after the walk: the keys are the dates of 2024, each in its slot, shaded iff Shaded, and there are 366 of them |
| Grid.SlotsDistinct | src/main.rs:88-91 | distinct dates of 2024 get distinct (column, row) slots |
| Grid.SlotBelowHeader | src/main.rs:89-105 | a day cell lies in its month's column, strictly between its header row and the next block, and never on a header slot |
| Grid.MondaysFromMonday | src/main.rs:110-113 | counting from a Monday, there is one Monday per week started |
| Grid.ShadedWeeks | src/main.rs:82-113 | since 2024 starts on a Monday, a date is shaded iff it lies in an even-numbered week of the year (the first week, from 0, is shaded) |
| Grid.ShadeFlipsOnMonday | src/main.rs:110-113 | from one day to the next, the shade changes exactly when the next day is a Monday |
| Grid.LeapDayLaidOut | src/main.rs:107-109 | Feb 29 2024 gets a cell; Feb 30 and Apr 31 do not |
| LineBreaks.TrimEnd | src/printable.rs:79 | `trim_end` gives a prefix of the text, drops only whitespace and leaves no trailing whitespace |
| LineBreaks.TrimEndKeepsUpToLastVisible | src/printable.rs:79 | everything up to the last visible character survives trimming, leading whitespace included |
| LineBreaks.TrimEndIdempotent | src/printable.rs:79 | trimming twice is trimming once |
| LineBreaks.CalcLineBreaks | src/printable.rs:70-79 | definition, no contract: `calc_line_breaks` after the glyph layout, the windows of the line starts followed by the text length; stated by LineBreaks.LineBreaksContent, LineBreaks.LineBreaksPanic, LineBreaks.NoGlyphsNoLines and LineBreaks.LinesCoverText |
| LineBreaks.LineStarts | src/printable.rs:70-76 | there are no more line starts than glyphs, and at least one when there is a glyph; exactly which glyphs start lines is LineBreaks.LineStartsExact |
| LineBreaks.Windows | src/printable.rs:79 | definition, no contract: `tuple_windows` over the bounds, each slice trimmed, an out-of-range slice being a panic; stated by LineBreaks.WindowsOk |
| LineBreaks.LineStartsExact | src/printable.rs:70-76 | the line starts are exactly glyph 0 and each glyph whose y differs from its predecessor's, strictly increasing |
| LineBreaks.NoGlyphsNoLines | src/printable.rs:77-79 | no glyphs give no lines |
| LineBreaks.WindowsOk | src/printable.rs:79 | slicing between consecutive bounds succeeds iff the bounds lie in the text and do not decrease; it gives one trimmed slice per window |
| LineBreaks.SliceableStep | src/printable.rs:79 | bounds are sliceable iff the first window is a valid slice and the remaining bounds are sliceable |
| LineBreaks.LineBreaksPanic | src/printable.rs:77-79 | `calc_line_breaks` panics iff the last line start lies past the end of the text |
| LineBreaks.BoundsSliceable | src/printable.rs:72-79 | when no line start lies past the end of the text, every window is a valid slice |
| LineBreaks.LineBreaksContent | src/printable.rs:70-79 | the number of lines is the number of y groups; line k is the text from group k's start to the next start (or the text's end), trailing whitespace trimmed |
| LineBreaks.OneGlyphPerCharNeverPanics | src/printable.rs:72-79 | with at most one glyph per character, the slicing never panics |
| LineBreaks.SlicesIndex | src/printable.rs:79 | there is one untrimmed slice per window, and slice k is the text between bounds k and k+1 |
| LineBreaks.SlicesConcat | src/printable.rs:79 | the untrimmed slices put back together are the text between the first bound and the last |
| LineBreaks.LinesCoverText | src/printable.rs:72-79 | with one glyph per character the untrimmed lines concatenate to the whole text, and each returned line is its slice minus trailing whitespace |
| Placement.Visits | src/printable.rs:101-103 | the dates `start + o days` for o in `0..n`, as its definition; what they cover is Placement.VisitsAreSpan |
| Placement.VisitsAreSpan | src/printable.rs:101-103 | for an event with the day count `get_events` gives it, the offsets visit exactly the dates from its start to its end, both included, which are the dates `populate_days` puts its summary on |
| Placement.DayDraws | src/printable.rs:102-130 | definition, no contract: one offset's draws under a guard, the index past the last line being a panic; stated by Placement.DayDrawsShape and Placement.DrawDay |
| Placement.EventDraws | src/printable.rs:93-132 | definition, no contract: one event's draws; stated by Placement.EventDrawsContent, Placement.AsWrittenEvent and Placement.EventCorrectedOk |
| Placement.AllDraws | src/printable.rs:85-134 | definition, no contract: the draws of `write_events` under a guard, `AsWritten` being the source as written; stated by Placement.WriteEvents, Placement.AllDrawsFromEvents, Placement.OffByOnePanics and Placement.CorrectedPanicsOnlyInLineBreaks |
| Placement.VisitsStep | src/printable.rs:101-103 | one more offset appends the next date |
| Placement.WriteEvents | src/printable.rs:85-134 | under either guard (`AsWritten` being the source's `<=`), the loop over events emits exactly the draws of each event in turn, or the first panic |
| Placement.WriteEvent | src/printable.rs:91-99 | one event under either guard: its fill, then its summary broken into lines (a panic there is the event's outcome), then its offsets |
| Placement.DrawEvent | src/printable.rs:101-132 | under either guard, the loop over `0..num_days` emits exactly the draws of each offset in turn, or ends with the first offset's panic |
| Placement.DrawDay | src/printable.rs:102-130 | one offset draws nothing when its date has no cell; otherwise its box, then, when the guard lets it through, its summary line; under `AsWritten` at `day == lines.len()` it panics |
| Placement.DrawnStep | src/printable.rs:101-132 | the draws of offsets `0..day+1` are those of `0..day` followed by offset `day`'s |
| Placement.DrawnThenPanic | src/printable.rs:121-123 | an offset that panics after the earlier ones drew makes the run up to it panic |
| Placement.DrawnPanics | src/printable.rs:121-123 | such a panic is the outcome of the whole event |
| Placement.OffsetsPanicIsFinal | src/printable.rs:121-123 | a panic among the first k offsets is the outcome of the event |
| Placement.EventOutcome | src/printable.rs:99-101 | an event panics when breaking its summary does; otherwise its draws are those of its offsets |
| Placement.ChainStep | src/printable.rs:91 | the run over one more outcome is the run so far followed by that outcome |
| Placement.RunStep | src/printable.rs:91 | drawing one more event appends its draws, or its panic, to the run so far |
| Placement.PanicIsFinal | src/printable.rs:122-123 | a panic among the first k outcomes is the outcome of the whole run |
| Placement.RunPanicIsFinal | src/printable.rs:122-123 | a panic while drawing the first k events ends `write_events` with that panic |
| Placement.ChainOk | src/printable.rs:91-133 | a run completes iff every event's drawing does |
| Placement.ChainMembers | src/printable.rs:91-133 | a completed run holds each event's draws and no other draw |
| Placement.DrawsStep | src/printable.rs:101-132 | a completed run over the offsets is the run over all but the last offset, then the last offset's draws |
| Placement.DayDrawsShape | src/printable.rs:102-130 | an offset's draws all lie on its date and cell: its box when the date has one, and a label only with a line to show; the corrected guard labels every offset that has a line |
| Placement.OffsetBoxes | src/printable.rs:101-119 | every offset whose date has a cell gets its box; every box is such an offset's box |
| Placement.OffsetLabels | src/printable.rs:120-130 | labels appear only on offsets with a line and a cell, each showing line `day`; with the corrected guard every such offset is labelled |
| Placement.EventDrawsContent | src/printable.rs:93-130 | each box is in lane id, green iff id == 0, shortened iff on offset 0, raised iff on offset num_days - 1 (one-day events get both); dates with no cell are skipped without affecting the others; labels show `lines[day]` |
| Placement.NoDaysNoDraws | src/printable.rs:101 | an event with num_days <= 0 draws nothing |
| Placement.AllDrawsFromEvents | src/printable.rs:91-133 | the draws of `write_events` are those of its events: each event's draws are all there and every draw comes from some event |
| Placement.CorrectedOffsetsOk | src/printable.rs:121-123 | with the guard `day < lines.len()` the offsets never panic |
| Placement.AsWrittenOffsets | src/printable.rs:121-123 | with the guard as written, the offsets panic iff there are fewer lines than offsets and the first unlabelled offset's date has a cell; otherwise they draw what the corrected guard draws |
| Placement.AsWrittenEvent | src/printable.rs:121-123 | the same at event level: an event panics under `day <= lines.len()` exactly when offset `lines.len()` exists and its date has a cell |
| Placement.EventCorrectedOk | src/printable.rs:99-123 | with the corrected guard an event panics iff breaking its summary into lines does, never with one glyph per character |
| Placement.CorrectedPanicsOnlyInLineBreaks | src/printable.rs:85-134 | with the corrected guard `write_events` panics iff some summary's line breaking does; with one glyph per character it never panics |
| Placement.OneLineOfFour | src/printable.rs:70-76 | four glyphs at one height start a single line at glyph 0 |
| Placement.TripIsOneLine | src/printable.rs:70-79 | the summary "Trip" on one line breaks into `["Trip"]` |
| Placement.TripDays | src/printable.rs:101-103 | the three offsets from 2024-03-04 fall on March 4, 5 and 6 |
| Placement.TripOffsets | src/printable.rs:121-123 | for a three-day event with one line, the guard as written panics; the corrected guard draws three boxes and one label |
| Placement.OffByOnePanics | src/printable.rs:121-123 | `write_events` as written panics on a three-day event whose summary fits one line; corrected, it draws three green boxes (first shortened, last raised) and one label |

## Left out

- Reading files and parsing iCalendar text (`read_to_string`, `parser::unfold`, `read_calendar_simple`, `src/events.rs:18-21`, `src/main.rs:206-209`) are outside the model. A calendar arrives as its parsed components.
- The `?` on a failed file read is outside the model too: reading is not modelled, so `get_events` fails only through a date that does not parse.
- PDF output is outside the model: `create_pdf`, `rect`, `use_text`, colours, graphics state and `write_month`. It is replaced by the draw records and the cell/shade/header maps.
- The month border rectangle of `base_calendar` (`src/main.rs:163-173`) and the day-number and weekday texts of each cell are drawing only. The cells they sit in are modelled.
- Glyph layout (`calculate_glyphs`, font loading, `src/printable.rs:51-68`) is a foreign library. Its result enters as the sequence of glyph y values, a parameter of `calc_line_breaks` and of `write_events`. The width and height passed to it are therefore not modelled.
- Page coordinates are f32 arithmetic (`ROW`, `CW`, `SUMMARY`, `left`, `bottom`, the insets). They are replaced by integer slots: a column index and a row index counted down from the column's top row. A lane is the event id. The insets are the flags `shortened` (height ROW-1) and `raised` (y + 1).
- `main()` and the stub `write_events` of `src/main.rs:47-54` are left out. Its body does not compile.
- The `Event` of `src/main.rs:30-34` lacks the id and day count of `src/events.rs:7-13`. `populate_days` only reads start, end and summary, so it is modelled over the `src/events.rs` event.
- Dates.ParseDate: reads exactly eight leading ASCII digits. chrono's `%Y%m%d` also accepts fields with fewer digits, signed years, and leading whitespace before a numeric field (`2024 3 4`); those tokens are rejected here.
- Dates.AddDays, Dates.Succ, Days.AddSpan: chrono's date range (years up to about ±262000) is not modelled. Dates are unbounded, so neither `checked_add_days(..).unwrap()` nor the `day += Duration::days(1)` step of main.rs:249 can go past the last date and panic here. `write_events` only adds offsets up to `end - start`, and end is itself a date.
- Strings are sequences of characters. `text.len()` and slicing in `calc_line_breaks` count bytes, and the code itself assumes one glyph per byte. The model counts characters, which matches for ASCII summaries. A slice that would split a multi-byte character is not modelled.
- The source's loops are each modelled as one method whose body may call helper methods for its inner loops:
  - `GetEvents`, with `VisitCalendar`, `VisitTop`, `VisitComponent` and `ScanProperties`;
  - `PopulateDays`, with `AddSpan`;
  - `BaseCalendar`, with `LayColumn`, `LayBlock`, `LayMonth` and `LayDay`;
  - `WriteEvents`, with `WriteEvent`, `DrawEvent` and `DrawDay`.

  Each method's draws or events are gathered and appended to the caller's. Nothing in the source observes the difference.
- Placement.DrawEvent: loops to `Span(event)`, which is `num_days` when positive and 0 otherwise. This is the number of iterations of the Rust range `0..num_days`.
- The calendar is fixed to 2024 with 4 columns, as in the source (`src/main.rs:36,79`). No other year or column count is modelled.

## Findings

| source | as written | input that shows it | evidently intended | confidence | as-written member | corrected member |
|---|---|---|---|---|---|---|
| src/printable.rs:121 | `if (day as usize) <= lines.len()` then `lines[day as usize]`: when `day == lines.len()` the index is out of bounds and the program panics | a 3-day event from 2024-03-04 to 2024-03-06 whose summary "Trip" fits on one line: on day 1, `lines[1]` is indexed | `day < lines.len()`: label the days that have a line, leave the rest blank | not executed | Placement.OffByOnePanics | Placement.CorrectedPanicsOnlyInLineBreaks |
