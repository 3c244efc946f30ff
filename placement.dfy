/** `write_events` (src/printable.rs): for every event, a filled box in the
    event's lane on each day cell of its span, and on the cells of its
    first days the lines of its summary, one line per day. Drawing is
    replaced by the sequence of draw records it emits; the glyph layout of
    a summary is a parameter giving the y coordinate of each glyph. */
module Placement {
  import opened Results
  import opened Dates
  import opened Events
  import opened Grid
  import opened LineBreaks

  /** The box colour: light green for the first calendar, light red for
      every other. */
  datatype Fill = Green | Red

  /** One drawing call. `lane` is the horizontal offset, in lanes of width
      SUMMARY + SUMMARY_GUTTER, from the left of the cell; `shortened` is
      the box of the first day, one unit lower than ROW, and `raised` the
      box of the last day, moved up by one unit. */
  datatype Draw =
    | Box(date: Date, offset: nat, slot: Slot, lane: nat, fill: Fill, shortened: bool, raised: bool)
    | Label(date: Date, offset: nat, slot: Slot, lane: nat, text: string)

  /** The guard in front of the label: as written (`day <= lines.len()`)
      or as evidently intended (`day < lines.len()`). */
  datatype Guard = AsWritten | Corrected

  predicate Labelled(g: Guard, day: nat, count: nat) {
    match g
    case AsWritten => day <= count
    case Corrected => day < count
  }

  function FillOf(id: nat): Fill {
    if id == 0 then Green else Red
  }

  /** The number of offsets `0..num_days` visits: none when `num_days` is
      not positive. */
  function Span(e: Event): nat {
    if e.numDays > 0 then e.numDays else 0
  }

  /** The dates `start + day` for `day` in `0..n`. */
  function Visits(start: Date, n: nat): (dates: seq<Date>)
    requires Valid(start)
    ensures |dates| == n
    ensures forall o :: 0 <= o < n ==> dates[o] == AddDays(start, o)
  {
    seq(n, o requires 0 <= o < n => AddDays(start, o))
  }

  /** One more visit: the dates so far, then `start + n`. */
  lemma VisitsStep(start: Date, n: nat)
    requires Valid(start)
    ensures Visits(start, n + 1) == Visits(start, n) + [AddDays(start, n)]
  {
    var next := Visits(start, n + 1);
    assert next[..n] == Visits(start, n);
    assert next == next[..n] + [next[n]];
  }

  /** The offsets of an event with the day count `get_events` gives it
      visit exactly the dates from its start to its end, both included:
      the dates `populate_days` puts its summary on. */
  lemma VisitsAreSpan(e: Event, d: Date)
    requires Valid(e.start) && Valid(e.end) && e.numDays == 1 + DiffDays(e.end, e.start)
    ensures d in Visits(e.start, Span(e)) <==> Valid(d) && NotAfter(e.start, d) && NotAfter(d, e.end)
  {
    var visits := Visits(e.start, Span(e));
    if d in visits {
      var o :| 0 <= o < |visits| && visits[o] == d;
      assert d == AddDays(e.start, o);
      NotAfterIffDayNumber(e.start, d);
      NotAfterIffDayNumber(d, e.end);
    }
    if Valid(d) && NotAfter(e.start, d) && NotAfter(d, e.end) {
      AddDiffDays(e.start, d);
      NotAfterIffDayNumber(d, e.end);
      var o := DiffDays(d, e.start);
      assert o < Span(e);
      assert visits[o] == d;
    }
  }

  /** The box drawn on the cell `slot` of `date`, offset `day` of event `e`. */
  function BoxAt(e: Event, date: Date, slot: Slot, day: nat): Draw {
    Box(date, day, slot, e.id, FillOf(e.id), day == 0, day == e.numDays - 1)
  }

  /** What the offset `day` of event `e`, falling on `date`, draws: nothing
      when the date has no cell; otherwise the box and, when the guard
      lets it through, line `day` of the summary, indexing `lines` out of
      range being a panic. */
  function DayDraws(e: Event, lines: seq<string>, posMap: map<Date, Slot>, date: Date, day: nat, g: Guard): Result<seq<Draw>> {
    if date !in posMap then Ok([])
    else if !Labelled(g, day, |lines|) then Ok([BoxAt(e, date, posMap[date], day)])
    else if day < |lines| then Ok([BoxAt(e, date, posMap[date], day), Label(date, day, posMap[date], e.id, lines[day])])
    else Err(LineIndexOutOfRange)
  }

  /** Draws followed by more draws; a panic ends the run. */
  function Then(acc: Result<seq<Draw>>, next: Result<seq<Draw>>): Result<seq<Draw>> {
    match acc
    case Err(f) => Err(f)
    case Ok(ds) =>
      match next
      case Err(f) => Err(f)
      case Ok(more) => Ok(ds + more)
  }

  /** The draws of the offsets `0..|dates|` of event `e`, offset `o` falling
      on `dates[o]`. */
  function OffsetDraws(e: Event, lines: seq<string>, posMap: map<Date, Slot>, dates: seq<Date>, g: Guard): Result<seq<Draw>> {
    if dates == [] then Ok([])
    else
      var n := |dates| - 1;
      Then(OffsetDraws(e, lines, posMap, dates[..n], g), DayDraws(e, lines, posMap, dates[n], n, g))
  }

  /** The draws of one event: its summary broken into lines, then its
      offsets. */
  function EventDraws<Y(==)>(e: Event, layout: Event -> seq<Y>, posMap: map<Date, Slot>, g: Guard): Result<seq<Draw>>
    requires Valid(e.start)
  {
    match CalcLineBreaks(e.summary, layout(e))
    case Err(f) => Err(f)
    case Ok(lines) => OffsetDraws(e, lines, posMap, Visits(e.start, Span(e)), g)
  }

  predicate StartsValid(events: seq<Event>) {
    forall i :: 0 <= i < |events| ==> Valid(events[i].start)
  }

  /** The outcome of drawing each event on its own. */
  function Outcomes<Y(==)>(events: seq<Event>, layout: Event -> seq<Y>, posMap: map<Date, Slot>, g: Guard): (rs: seq<Result<seq<Draw>>>)
    requires StartsValid(events)
    ensures |rs| == |events|
    ensures forall k :: 0 <= k < |events| ==> rs[k] == EventDraws(events[k], layout, posMap, g)
  {
    seq(|events|, k requires 0 <= k < |events| => EventDraws(events[k], layout, posMap, g))
  }

  /** The outcomes run one after the other: the draws of each in turn,
      until the first panic. */
  function Chain(rs: seq<Result<seq<Draw>>>): Result<seq<Draw>> {
    if rs == [] then Ok([])
    else Then(Chain(rs[..|rs| - 1]), rs[|rs| - 1])
  }

  /** The draws of all events, in order. */
  function AllDraws<Y(==)>(events: seq<Event>, layout: Event -> seq<Y>, posMap: map<Date, Slot>, g: Guard): Result<seq<Draw>>
    requires StartsValid(events)
  {
    Chain(Outcomes(events, layout, posMap, g))
  }

  /** `write_events`: for each event in turn its draws, until the first
      panic. With `g == AsWritten` the label guard is the source's
      `day <= lines.len()`; with `g == Corrected` it is `day < lines.len()`. */
  method WriteEvents<Y(==)>(events: seq<Event>, layout: Event -> seq<Y>, posMap: map<Date, Slot>, g: Guard)
    returns (r: Result<seq<Draw>>)
    requires StartsValid(events)
    ensures r == AllDraws(events, layout, posMap, g)
  {
    var draws: seq<Draw> := [];
    var i := 0;
    while i < |events|
      invariant 0 <= i <= |events|
      invariant AllDraws(events[..i], layout, posMap, g) == Ok(draws)
    {
      var outcome := WriteEvent(events[i], layout, posMap, g);
      RunStep(events, layout, posMap, g, i);
      if outcome.Err? {
        RunPanicIsFinal(events, layout, posMap, g, i + 1);
        return Err(outcome.failure);
      }
      draws := draws + outcome.value;
      i := i + 1;
    }
    assert events[..i] == events;
    r := Ok(draws);
  }

  /** The body of the loop over events: the fill, the summary broken into
      lines (a panic there ends the run), then the offsets. */
  method WriteEvent<Y(==)>(event: Event, layout: Event -> seq<Y>, posMap: map<Date, Slot>, g: Guard) returns (r: Result<seq<Draw>>)
    requires Valid(event.start)
    ensures r == EventDraws(event, layout, posMap, g)
  {
    var fill := if event.id == 0 then Green else Red;
    var lines := CalcLineBreaks(event.summary, layout(event));
    EventOutcome(event, layout, posMap, lines, g);
    if lines.Err? {
      return Err(lines.failure);
    }
    r := DrawEvent(event, fill, lines.value, posMap, g);
  }

  /** The body of the loop over events once the summary is broken into
      lines: the loop over `0..num_days`, which a label index out of range
      ends. */
  method DrawEvent(event: Event, fill: Fill, lines: seq<string>, posMap: map<Date, Slot>, g: Guard)
    returns (r: Result<seq<Draw>>)
    requires Valid(event.start) && fill == FillOf(event.id)
    ensures r == OffsetDraws(event, lines, posMap, Visits(event.start, Span(event)), g)
  {
    var draws := [];
    var day := 0;
    NothingDrawn(event, lines, posMap, g);
    while day < Span(event)
      invariant 0 <= day <= Span(event)
      invariant Drawn(event, lines, posMap, day, draws, g)
    {
      var date := AddDays(event.start, day);
      var step := DrawDay(event, fill, lines, posMap, date, day, g);
      if step.Err? {
        DrawnPanics(event, lines, posMap, day, draws, g);
        return step;
      }
      DrawnStep(event, lines, posMap, day, draws, step.value, g);
      draws := draws + step.value;
      day := day + 1;
    }
    r := Ok(draws);
  }

  /** `draws` are the draws of the first `day` offsets of `e`. */
  ghost predicate Drawn(e: Event, lines: seq<string>, posMap: map<Date, Slot>, day: nat, draws: seq<Draw>, g: Guard)
    requires Valid(e.start)
  {
    OffsetDraws(e, lines, posMap, Visits(e.start, day), g) == Ok(draws)
  }

  /** The draws of offset `day`, on `date`: the box when the date has a
      cell, and when the guard lets it through the summary line of that
      offset, indexing past the last line being a panic. */
  method DrawDay(event: Event, fill: Fill, lines: seq<string>, posMap: map<Date, Slot>, date: Date, day: nat, g: Guard)
    returns (r: Result<seq<Draw>>)
    requires fill == FillOf(event.id)
    ensures r == DayDraws(event, lines, posMap, date, day, g)
  {
    var step := [];
    if date in posMap {
      var slot := posMap[date];
      var box := Box(date, day, slot, event.id, fill, day == 0, day == event.numDays - 1);
      assert box == BoxAt(event, date, slot, day);
      step := [box];
      if Labelled(g, day, |lines|) {
        if day >= |lines| {
          return Err(LineIndexOutOfRange);
        }
        step := step + [Label(date, day, slot, event.id, lines[day])];
        assert step == [BoxAt(event, date, slot, day), Label(date, day, slot, event.id, lines[day])];
      }
    }
    r := Ok(step);
  }

  lemma NothingDrawn(e: Event, lines: seq<string>, posMap: map<Date, Slot>, g: Guard)
    requires Valid(e.start)
    ensures Drawn(e, lines, posMap, 0, [], g)
  {
    assert Visits(e.start, 0) == [];
  }

  /** One more offset: the draws so far, then the offset's own. */
  lemma DrawnStep(e: Event, lines: seq<string>, posMap: map<Date, Slot>, day: nat, draws: seq<Draw>, step: seq<Draw>, g: Guard)
    requires Valid(e.start) && Drawn(e, lines, posMap, day, draws, g)
    requires DayDraws(e, lines, posMap, AddDays(e.start, day), day, g) == Ok(step)
    ensures Drawn(e, lines, posMap, day + 1, draws + step, g)
  {
    VisitsStep(e.start, day);
    var next := Visits(e.start, day + 1);
    assert next[..day] == Visits(e.start, day);
  }

  /** An offset that panics after the earlier ones drew ends the event
      with its panic. */
  lemma DrawnPanics(e: Event, lines: seq<string>, posMap: map<Date, Slot>, day: nat, draws: seq<Draw>, g: Guard)
    requires Valid(e.start) && day < Span(e) && Drawn(e, lines, posMap, day, draws, g)
    requires DayDraws(e, lines, posMap, AddDays(e.start, day), day, g).Err?
    ensures OffsetDraws(e, lines, posMap, Visits(e.start, Span(e)), g) == DayDraws(e, lines, posMap, AddDays(e.start, day), day, g)
  {
    DrawnThenPanic(e, lines, posMap, day, draws, g);
    VisitsPrefix(e.start, day + 1, Span(e));
    OffsetsPanicIsFinal(e, lines, posMap, Visits(e.start, Span(e)), day + 1, g);
  }

  /** The offsets up to a panicking one end with its panic. */
  lemma DrawnThenPanic(e: Event, lines: seq<string>, posMap: map<Date, Slot>, day: nat, draws: seq<Draw>, g: Guard)
    requires Valid(e.start) && Drawn(e, lines, posMap, day, draws, g)
    requires DayDraws(e, lines, posMap, AddDays(e.start, day), day, g).Err?
    ensures OffsetDraws(e, lines, posMap, Visits(e.start, day + 1), g) == DayDraws(e, lines, posMap, AddDays(e.start, day), day, g)
  {
    VisitsStep(e.start, day);
    var next := Visits(e.start, day + 1);
    assert next[..day] == Visits(e.start, day);
    assert next[day] == AddDays(e.start, day);
  }

  /** The first `k` visits of a longer span are the visits of `k` days. */
  lemma VisitsPrefix(start: Date, k: nat, n: nat)
    requires Valid(start) && k <= n
    ensures Visits(start, n)[..k] == Visits(start, k)
  {
  }

  // ---------------------------------------------------------------------
  // Panics

  /** A panic among the first `k` outcomes is the outcome of the whole
      run. */
  lemma {:induction false} PanicIsFinal(rs: seq<Result<seq<Draw>>>, k: nat)
    requires k <= |rs| && Chain(rs[..k]).Err?
    ensures Chain(rs) == Chain(rs[..k])
    decreases |rs| - k
  {
    if k == |rs| {
      assert rs[..k] == rs;
    } else {
      var n := |rs| - 1;
      assert rs[..n][..k] == rs[..k];
      PanicIsFinal(rs[..n], k);
    }
  }

  /** A panic among the first `k` offsets is the outcome of the event. */
  lemma {:induction false} OffsetsPanicIsFinal(e: Event, lines: seq<string>, posMap: map<Date, Slot>, dates: seq<Date>, k: nat, g: Guard)
    requires k <= |dates| && OffsetDraws(e, lines, posMap, dates[..k], g).Err?
    ensures OffsetDraws(e, lines, posMap, dates, g) == OffsetDraws(e, lines, posMap, dates[..k], g)
    decreases |dates| - k
  {
    if k == |dates| {
      assert dates[..k] == dates;
    } else {
      var n := |dates| - 1;
      assert dates[..n][..k] == dates[..k];
      OffsetsPanicIsFinal(e, lines, posMap, dates[..n], k, g);
    }
  }

  /** An event's outcome once its summary is broken into lines. */
  lemma EventOutcome<Y>(e: Event, layout: Event -> seq<Y>, posMap: map<Date, Slot>, lines: Result<seq<string>>, g: Guard)
    requires Valid(e.start) && lines == CalcLineBreaks(e.summary, layout(e))
    ensures lines.Err? ==> EventDraws(e, layout, posMap, g) == Err(lines.failure)
    ensures lines.Ok? ==> EventDraws(e, layout, posMap, g) == OffsetDraws(e, lines.value, posMap, Visits(e.start, Span(e)), g)
  {
  }

  /** One more outcome: the run so far, then that outcome. */
  lemma ChainStep(rs: seq<Result<seq<Draw>>>, i: nat)
    requires i < |rs|
    ensures Chain(rs[..i + 1]) == Then(Chain(rs[..i]), rs[i])
  {
    assert rs[..i + 1][..i] == rs[..i];
  }

  /** One more event: the draws of the events so far, then its own. */
  lemma RunStep<Y>(events: seq<Event>, layout: Event -> seq<Y>, posMap: map<Date, Slot>, g: Guard, i: nat)
    requires StartsValid(events) && i < |events|
    ensures AllDraws(events[..i + 1], layout, posMap, g) ==
      Then(AllDraws(events[..i], layout, posMap, g), EventDraws(events[i], layout, posMap, g))
  {
    var rs := Outcomes(events[..i + 1], layout, posMap, g);
    assert rs[..i] == Outcomes(events[..i], layout, posMap, g);
    ChainStep(rs, i);
    assert rs[..i + 1] == rs;
  }

  /** A panic while drawing the first `k` events is the outcome of the
      whole run. */
  lemma RunPanicIsFinal<Y>(events: seq<Event>, layout: Event -> seq<Y>, posMap: map<Date, Slot>, g: Guard, k: nat)
    requires StartsValid(events) && k <= |events|
    requires AllDraws(events[..k], layout, posMap, g).Err?
    ensures AllDraws(events, layout, posMap, g) == AllDraws(events[..k], layout, posMap, g)
  {
    var rs := Outcomes(events, layout, posMap, g);
    assert rs[..k] == Outcomes(events[..k], layout, posMap, g);
    PanicIsFinal(rs, k);
  }

  /** A run completes exactly when every outcome in it does. */
  lemma {:induction false} ChainOk(rs: seq<Result<seq<Draw>>>)
    ensures Chain(rs).Ok? <==> forall k :: 0 <= k < |rs| ==> rs[k].Ok?
  {
    if rs != [] {
      var n := |rs| - 1;
      ChainOk(rs[..n]);
      assert forall k :: 0 <= k < n ==> rs[..n][k] == rs[k];
    }
  }

  /** The draws of a completed run are those of its outcomes: every draw
      comes from one of them, and each one's draws are all there. */
  lemma {:induction false} ChainMembers(rs: seq<Result<seq<Draw>>>)
    requires Chain(rs).Ok?
    ensures forall k :: 0 <= k < |rs| ==> rs[k].Ok?
    ensures forall k, d :: 0 <= k < |rs| && d in rs[k].value ==> d in Chain(rs).value
    ensures forall d :: d in Chain(rs).value ==> exists k :: 0 <= k < |rs| && d in rs[k].value
  {
    ChainOk(rs);
    if rs != [] {
      var n := |rs| - 1;
      ChainOk(rs[..n]);
      ChainMembers(rs[..n]);
      assert forall k :: 0 <= k < n ==> rs[..n][k] == rs[k];
    }
  }

  /** The corrected guard never indexes past the last line. */
  lemma {:induction false} CorrectedOffsetsOk(e: Event, lines: seq<string>, posMap: map<Date, Slot>, dates: seq<Date>)
    ensures OffsetDraws(e, lines, posMap, dates, Corrected).Ok?
  {
    if dates != [] {
      CorrectedOffsetsOk(e, lines, posMap, dates[..|dates| - 1]);
    }
  }

  /** With the guard as written, the offsets panic exactly when there are
      fewer lines than offsets and the first unlabelled offset has a cell;
      otherwise they draw what the corrected guard draws. */
  lemma {:induction false} AsWrittenOffsets(e: Event, lines: seq<string>, posMap: map<Date, Slot>, dates: seq<Date>)
    ensures OffsetDraws(e, lines, posMap, dates, AsWritten) ==
      if |lines| < |dates| && dates[|lines|] in posMap then Err(LineIndexOutOfRange)
      else OffsetDraws(e, lines, posMap, dates, Corrected)
  {
    if dates != [] {
      var n := |dates| - 1;
      AsWrittenOffsets(e, lines, posMap, dates[..n]);
      CorrectedOffsetsOk(e, lines, posMap, dates[..n]);
      if |lines| < n {
        assert dates[..n][|lines|] == dates[|lines|];
      }
    }
  }

  /** The off-by-one at event level: an event panics under the guard as
      written exactly when its summary has fewer lines than it has days and
      the date of the day after its last line has a cell; otherwise the two
      guards draw the same. */
  lemma AsWrittenEvent<Y>(e: Event, layout: Event -> seq<Y>, posMap: map<Date, Slot>)
    requires Valid(e.start)
    ensures var lines := CalcLineBreaks(e.summary, layout(e));
      EventDraws(e, layout, posMap, AsWritten) ==
        if lines.Ok? && |lines.value| < e.numDays && AddDays(e.start, |lines.value|) in posMap
        then Err(LineIndexOutOfRange)
        else EventDraws(e, layout, posMap, Corrected)
  {
    var lines := CalcLineBreaks(e.summary, layout(e));
    if lines.Ok? {
      AsWrittenOffsets(e, lines.value, posMap, Visits(e.start, Span(e)));
    }
  }

  /** With the corrected guard, an event panics exactly when breaking its
      summary into lines does, which one glyph per character rules out. */
  lemma EventCorrectedOk<Y>(e: Event, layout: Event -> seq<Y>, posMap: map<Date, Slot>)
    requires Valid(e.start)
    ensures EventDraws(e, layout, posMap, Corrected).Err? <==> CalcLineBreaks(e.summary, layout(e)).Err?
    ensures |layout(e)| <= |e.summary| ==> EventDraws(e, layout, posMap, Corrected).Ok?
  {
    var lines := CalcLineBreaks(e.summary, layout(e));
    if lines.Ok? {
      CorrectedOffsetsOk(e, lines.value, posMap, Visits(e.start, Span(e)));
    }
    if |layout(e)| <= |e.summary| {
      OneGlyphPerCharNeverPanics(e.summary, layout(e));
    }
  }

  /** With the corrected guard, a run panics exactly when breaking some
      summary into lines does; with one glyph per character it never
      panics. */
  lemma CorrectedPanicsOnlyInLineBreaks<Y>(events: seq<Event>, layout: Event -> seq<Y>, posMap: map<Date, Slot>)
    requires StartsValid(events)
    ensures AllDraws(events, layout, posMap, Corrected).Err? <==>
      exists k :: 0 <= k < |events| && CalcLineBreaks(events[k].summary, layout(events[k])).Err?
    ensures (forall k :: 0 <= k < |events| ==> |layout(events[k])| <= |events[k].summary|) ==>
      AllDraws(events, layout, posMap, Corrected).Ok?
  {
    var rs := Outcomes(events, layout, posMap, Corrected);
    ChainOk(rs);
    forall k | 0 <= k < |events|
      ensures rs[k].Err? <==> CalcLineBreaks(events[k].summary, layout(events[k])).Err?
      ensures |layout(events[k])| <= |events[k].summary| ==> rs[k].Ok?
    {
      EventCorrectedOk(events[k], layout, posMap);
    }
  }

  // ---------------------------------------------------------------------
  // What an event draws

  /** The offsets draw, for each offset whose date has a cell, its box,
      and no other box. */
  lemma {:induction false} OffsetBoxes(e: Event, lines: seq<string>, posMap: map<Date, Slot>, dates: seq<Date>, g: Guard)
    requires OffsetDraws(e, lines, posMap, dates, g).Ok?
    ensures forall o :: 0 <= o < |dates| && dates[o] in posMap ==>
      BoxAt(e, dates[o], posMap[dates[o]], o) in OffsetDraws(e, lines, posMap, dates, g).value
    ensures forall d :: d in OffsetDraws(e, lines, posMap, dates, g).value && d.Box? ==>
      d.offset < |dates| && d.date == dates[d.offset] && d.date in posMap
      && d == BoxAt(e, d.date, posMap[d.date], d.offset)
  {
    if dates != [] {
      DrawsStep(e, lines, posMap, dates, g);
      OffsetBoxes(e, lines, posMap, dates[..|dates| - 1], g);
      BoxesStep(e, lines, posMap, dates, g);
    }
  }

  /** A run of offsets that does not panic: the draws of all offsets but
      the last, then those of the last. */
  lemma DrawsStep(e: Event, lines: seq<string>, posMap: map<Date, Slot>, dates: seq<Date>, g: Guard)
    requires dates != [] && OffsetDraws(e, lines, posMap, dates, g).Ok?
    ensures OffsetDraws(e, lines, posMap, dates[..|dates| - 1], g).Ok?
    ensures DayDraws(e, lines, posMap, dates[|dates| - 1], |dates| - 1, g).Ok?
    ensures OffsetDraws(e, lines, posMap, dates, g).value ==
      OffsetDraws(e, lines, posMap, dates[..|dates| - 1], g).value + DayDraws(e, lines, posMap, dates[|dates| - 1], |dates| - 1, g).value
  {
  }

  /** What one offset draws when it does not panic: everything on its own
      date and cell, its box when the date has a cell, and a label only
      with a line to show; the corrected guard labels every offset that has
      one. */
  lemma DayDrawsShape(e: Event, lines: seq<string>, posMap: map<Date, Slot>, date: Date, day: nat, g: Guard)
    requires DayDraws(e, lines, posMap, date, day, g).Ok?
    ensures date in posMap ==> BoxAt(e, date, posMap[date], day) in DayDraws(e, lines, posMap, date, day, g).value
    ensures forall d :: d in DayDraws(e, lines, posMap, date, day, g).value ==>
      d.date == date && d.offset == day && date in posMap
      && (d.Box? ==> d == BoxAt(e, date, posMap[date], day))
      && (d.Label? ==> day < |lines| && d == Label(date, day, posMap[date], e.id, lines[day]))
    ensures g == Corrected && date in posMap && day < |lines| ==>
      Label(date, day, posMap[date], e.id, lines[day]) in DayDraws(e, lines, posMap, date, day, g).value
  {
  }

  lemma BoxesStep(e: Event, lines: seq<string>, posMap: map<Date, Slot>, dates: seq<Date>, g: Guard)
    requires dates != [] && OffsetDraws(e, lines, posMap, dates, g).Ok?
    requires OffsetDraws(e, lines, posMap, dates[..|dates| - 1], g).Ok?
    requires DayDraws(e, lines, posMap, dates[|dates| - 1], |dates| - 1, g).Ok?
    requires OffsetDraws(e, lines, posMap, dates, g).value ==
      OffsetDraws(e, lines, posMap, dates[..|dates| - 1], g).value + DayDraws(e, lines, posMap, dates[|dates| - 1], |dates| - 1, g).value
    requires var pre := dates[..|dates| - 1];
      forall o :: 0 <= o < |pre| && pre[o] in posMap ==>
        BoxAt(e, pre[o], posMap[pre[o]], o) in OffsetDraws(e, lines, posMap, pre, g).value
    requires var pre := dates[..|dates| - 1];
      forall d :: d in OffsetDraws(e, lines, posMap, pre, g).value && d.Box? ==>
        d.offset < |pre| && d.date == pre[d.offset] && d.date in posMap
        && d == BoxAt(e, d.date, posMap[d.date], d.offset)
    ensures forall o :: 0 <= o < |dates| && dates[o] in posMap ==>
      BoxAt(e, dates[o], posMap[dates[o]], o) in OffsetDraws(e, lines, posMap, dates, g).value
    ensures forall d :: d in OffsetDraws(e, lines, posMap, dates, g).value && d.Box? ==>
      d.offset < |dates| && d.date == dates[d.offset] && d.date in posMap
      && d == BoxAt(e, d.date, posMap[d.date], d.offset)
  {
    var n := |dates| - 1;
    var pre := dates[..n];
    var prev := OffsetDraws(e, lines, posMap, pre, g).value;
    var step := DayDraws(e, lines, posMap, dates[n], n, g).value;
    var all := OffsetDraws(e, lines, posMap, dates, g).value;
    DayDrawsShape(e, lines, posMap, dates[n], n, g);
    forall o | 0 <= o < |dates| && dates[o] in posMap
      ensures BoxAt(e, dates[o], posMap[dates[o]], o) in all
    {
      if o < n {
        assert pre[o] == dates[o];
        assert BoxAt(e, dates[o], posMap[dates[o]], o) in prev;
      } else {
        assert BoxAt(e, dates[o], posMap[dates[o]], o) in step;
      }
    }
    forall d | d in all && d.Box?
      ensures d.offset < |dates| && d.date == dates[d.offset] && d.date in posMap
      ensures d == BoxAt(e, d.date, posMap[d.date], d.offset)
    {
      if d in prev {
        assert pre[d.offset] == dates[d.offset];
      } else {
        assert d in step;
      }
    }
  }

  /** Labels appear only on offsets with a line and a cell, each showing
      that line; with the corrected guard every such offset is labelled. */
  lemma {:induction false} OffsetLabels(e: Event, lines: seq<string>, posMap: map<Date, Slot>, dates: seq<Date>, g: Guard)
    requires OffsetDraws(e, lines, posMap, dates, g).Ok?
    ensures forall d :: d in OffsetDraws(e, lines, posMap, dates, g).value && d.Label? ==>
      d.offset < |dates| && d.offset < |lines| && d.date == dates[d.offset] && d.date in posMap
      && d == Label(d.date, d.offset, posMap[d.date], e.id, lines[d.offset])
    ensures g == Corrected ==> forall o :: 0 <= o < |dates| && o < |lines| && dates[o] in posMap ==>
      Label(dates[o], o, posMap[dates[o]], e.id, lines[o]) in OffsetDraws(e, lines, posMap, dates, g).value
  {
    if dates != [] {
      DrawsStep(e, lines, posMap, dates, g);
      OffsetLabels(e, lines, posMap, dates[..|dates| - 1], g);
      LabelsStep(e, lines, posMap, dates, g);
    }
  }

  lemma LabelsStep(e: Event, lines: seq<string>, posMap: map<Date, Slot>, dates: seq<Date>, g: Guard)
    requires dates != [] && OffsetDraws(e, lines, posMap, dates, g).Ok?
    requires OffsetDraws(e, lines, posMap, dates[..|dates| - 1], g).Ok?
    requires DayDraws(e, lines, posMap, dates[|dates| - 1], |dates| - 1, g).Ok?
    requires OffsetDraws(e, lines, posMap, dates, g).value ==
      OffsetDraws(e, lines, posMap, dates[..|dates| - 1], g).value + DayDraws(e, lines, posMap, dates[|dates| - 1], |dates| - 1, g).value
    requires var pre := dates[..|dates| - 1];
      forall d :: d in OffsetDraws(e, lines, posMap, pre, g).value && d.Label? ==>
        d.offset < |pre| && d.offset < |lines| && d.date == pre[d.offset] && d.date in posMap
        && d == Label(d.date, d.offset, posMap[d.date], e.id, lines[d.offset])
    requires var pre := dates[..|dates| - 1];
      g == Corrected ==> forall o :: 0 <= o < |pre| && o < |lines| && pre[o] in posMap ==>
        Label(pre[o], o, posMap[pre[o]], e.id, lines[o]) in OffsetDraws(e, lines, posMap, pre, g).value
    ensures forall d :: d in OffsetDraws(e, lines, posMap, dates, g).value && d.Label? ==>
      d.offset < |dates| && d.offset < |lines| && d.date == dates[d.offset] && d.date in posMap
      && d == Label(d.date, d.offset, posMap[d.date], e.id, lines[d.offset])
    ensures g == Corrected ==> forall o :: 0 <= o < |dates| && o < |lines| && dates[o] in posMap ==>
      Label(dates[o], o, posMap[dates[o]], e.id, lines[o]) in OffsetDraws(e, lines, posMap, dates, g).value
  {
    var n := |dates| - 1;
    var pre := dates[..n];
    var prev := OffsetDraws(e, lines, posMap, pre, g).value;
    var step := DayDraws(e, lines, posMap, dates[n], n, g).value;
    var all := OffsetDraws(e, lines, posMap, dates, g).value;
    DayDrawsShape(e, lines, posMap, dates[n], n, g);
    forall d | d in all && d.Label?
      ensures d.offset < |dates| && d.offset < |lines| && d.date == dates[d.offset] && d.date in posMap
      ensures d == Label(d.date, d.offset, posMap[d.date], e.id, lines[d.offset])
    {
      if d in prev {
        assert pre[d.offset] == dates[d.offset];
      } else {
        assert d in step;
      }
    }
    if g == Corrected {
      forall o | 0 <= o < |dates| && o < |lines| && dates[o] in posMap
        ensures Label(dates[o], o, posMap[dates[o]], e.id, lines[o]) in all
      {
        if o < n {
          assert pre[o] == dates[o];
          assert Label(dates[o], o, posMap[dates[o]], e.id, lines[o]) in prev;
        } else {
          assert Label(dates[o], o, posMap[dates[o]], e.id, lines[o]) in step;
        }
      }
    }
  }

  /** Each offset `o` of an event falls on `start + o`; an offset whose
      date has no cell is skipped and every other offset gets its box, in
      the event's lane, green exactly for calendar 0, shortened on the
      first day and raised on the last (a one-day event gets both). Labels
      show line `o` of the summary, and with the corrected guard every
      offset that has a line and a cell is labelled. */
  lemma EventDrawsContent<Y>(e: Event, layout: Event -> seq<Y>, posMap: map<Date, Slot>, g: Guard)
    requires Valid(e.start) && EventDraws(e, layout, posMap, g).Ok?
    ensures CalcLineBreaks(e.summary, layout(e)).Ok?
    ensures var ds := EventDraws(e, layout, posMap, g).value;
      forall o :: 0 <= o < e.numDays && AddDays(e.start, o) in posMap ==>
        Box(AddDays(e.start, o), o, posMap[AddDays(e.start, o)], e.id, FillOf(e.id), o == 0, o == e.numDays - 1) in ds
    ensures forall d :: d in EventDraws(e, layout, posMap, g).value && d.Box? ==>
      0 <= d.offset < e.numDays && d.date == AddDays(e.start, d.offset) && d.date in posMap && d.slot == posMap[d.date]
      && d.lane == e.id && (d.fill == Green <==> e.id == 0)
      && (d.shortened <==> d.offset == 0) && (d.raised <==> d.offset == e.numDays - 1)
    ensures var lines := CalcLineBreaks(e.summary, layout(e)).value;
      forall d :: d in EventDraws(e, layout, posMap, g).value && d.Label? ==>
        0 <= d.offset < e.numDays && d.offset < |lines| && d.date == AddDays(e.start, d.offset) && d.date in posMap
        && d == Label(d.date, d.offset, posMap[d.date], e.id, lines[d.offset])
    ensures var lines := CalcLineBreaks(e.summary, layout(e)).value;
      g == Corrected ==> forall o :: 0 <= o < e.numDays && o < |lines| && AddDays(e.start, o) in posMap ==>
        Label(AddDays(e.start, o), o, posMap[AddDays(e.start, o)], e.id, lines[o]) in EventDraws(e, layout, posMap, g).value
  {
    var lines := CalcLineBreaks(e.summary, layout(e)).value;
    OffsetBoxes(e, lines, posMap, Visits(e.start, Span(e)), g);
    OffsetLabels(e, lines, posMap, Visits(e.start, Span(e)), g);
  }

  /** An event with no positive day count draws nothing. */
  lemma NoDaysNoDraws<Y>(e: Event, layout: Event -> seq<Y>, posMap: map<Date, Slot>, g: Guard)
    requires Valid(e.start) && e.numDays <= 0 && CalcLineBreaks(e.summary, layout(e)).Ok?
    ensures EventDraws(e, layout, posMap, g) == Ok([])
  {
  }

  /** The draws of a run are the draws of its events, in order: every draw
      comes from some event, and every event's draws are all there. */
  lemma AllDrawsFromEvents<Y>(events: seq<Event>, layout: Event -> seq<Y>, posMap: map<Date, Slot>, g: Guard)
    requires StartsValid(events) && AllDraws(events, layout, posMap, g).Ok?
    ensures forall k :: 0 <= k < |events| ==> EventDraws(events[k], layout, posMap, g).Ok?
    ensures forall k, d :: 0 <= k < |events| && d in EventDraws(events[k], layout, posMap, g).value ==>
      d in AllDraws(events, layout, posMap, g).value
    ensures forall d :: d in AllDraws(events, layout, posMap, g).value ==>
      exists k :: 0 <= k < |events| && d in EventDraws(events[k], layout, posMap, g).value
  {
    ChainMembers(Outcomes(events, layout, posMap, g));
  }

  // ---------------------------------------------------------------------
  // The off-by-one as written

  /** Four glyphs at the same height start a single line. */
  lemma OneLineOfFour()
    ensures LineStarts([0, 0, 0, 0]) == [0]
  {
    var ys: seq<int> := [0, 0, 0, 0];
    LineStartsExact(ys);
    var r := LineStarts(ys);
    assert StartsLine(ys, 0);
    assert forall i :: StartsLine(ys, i) ==> i == 0;
    assert 0 in r;
  }

  /** "Trip" laid out on a single line of four glyphs is one line. */
  lemma TripIsOneLine()
    ensures CalcLineBreaks("Trip", [0, 0, 0, 0]) == Ok(["Trip"])
  {
    OneLineOfFour();
    assert Bounds("Trip", [0, 0, 0, 0]) == [0, 4];
    assert [0, 4][1..] == [4];
    assert Windows("Trip", [4]) == Ok([]);
    assert !IsWhitespace('p');
    assert TrimEnd("Trip") == "Trip";
    assert "Trip"[0..4] == "Trip";
    assert [TrimEnd("Trip"[0..4])] + [] == ["Trip"];
  }

  /** The three days from 2024-03-04. */
  lemma TripDays()
    ensures Valid(Date(2024, 3, 4))
    ensures Visits(Date(2024, 3, 4), 3) == [Date(2024, 3, 4), Date(2024, 3, 5), Date(2024, 3, 6)]
  {
    var d := Date(2024, 3, 4);
    assert AddDays(d, 1) == Date(2024, 3, 5);
    assert AddDays(d, 2) == AddDays(Succ(d), 1) == Date(2024, 3, 6);
    assert Visits(d, 1) == [d];
    assert Visits(d, 2) == [d, Date(2024, 3, 5)];
  }

  /** Its three offsets, with one line: the guard as written panics on the
      second, the corrected guard labels the first only. */
  lemma TripOffsets(e: Event, posMap: map<Date, Slot>)
    requires e == Event(0, Date(2024, 3, 4), Date(2024, 3, 6), 3, "Trip")
    requires posMap == map[Date(2024, 3, 4) := Slot(0, 68), Date(2024, 3, 5) := Slot(0, 69), Date(2024, 3, 6) := Slot(0, 70)]
    ensures var dates := [Date(2024, 3, 4), Date(2024, 3, 5), Date(2024, 3, 6)];
      OffsetDraws(e, ["Trip"], posMap, dates, AsWritten) == Err(LineIndexOutOfRange)
      && OffsetDraws(e, ["Trip"], posMap, dates, Corrected) == Ok([
        Box(Date(2024, 3, 4), 0, Slot(0, 68), 0, Green, true, false),
        Label(Date(2024, 3, 4), 0, Slot(0, 68), 0, "Trip"),
        Box(Date(2024, 3, 5), 1, Slot(0, 69), 0, Green, false, false),
        Box(Date(2024, 3, 6), 2, Slot(0, 70), 0, Green, false, true)])
  {
    var d3 := [Date(2024, 3, 4), Date(2024, 3, 5), Date(2024, 3, 6)];
    var d2 := [Date(2024, 3, 4), Date(2024, 3, 5)];
    var d1 := [Date(2024, 3, 4)];
    assert d3[..2] == d2 && d2[..1] == d1 && d1[..0] == [];
    var b0 := Box(Date(2024, 3, 4), 0, Slot(0, 68), 0, Green, true, false);
    var l0 := Label(Date(2024, 3, 4), 0, Slot(0, 68), 0, "Trip");
    var b1 := Box(Date(2024, 3, 5), 1, Slot(0, 69), 0, Green, false, false);
    var b2 := Box(Date(2024, 3, 6), 2, Slot(0, 70), 0, Green, false, true);
    forall g: Guard ensures OffsetDraws(e, ["Trip"], posMap, d1, g) == Ok([b0, l0]) {
      assert DayDraws(e, ["Trip"], posMap, Date(2024, 3, 4), 0, g) == Ok([b0, l0]);
      assert [] + [b0, l0] == [b0, l0];
    }
    assert DayDraws(e, ["Trip"], posMap, Date(2024, 3, 5), 1, AsWritten) == Err(LineIndexOutOfRange);
    assert DayDraws(e, ["Trip"], posMap, Date(2024, 3, 5), 1, Corrected) == Ok([b1]);
    assert DayDraws(e, ["Trip"], posMap, Date(2024, 3, 6), 2, Corrected) == Ok([b2]);
    assert [b0, l0] + [b1] == [b0, l0, b1];
    assert [b0, l0, b1] + [b2] == [b0, l0, b1, b2];
    assert OffsetDraws(e, ["Trip"], posMap, d2, AsWritten) == Err(LineIndexOutOfRange);
    assert OffsetDraws(e, ["Trip"], posMap, d2, Corrected) == Ok([b0, l0, b1]);
    assert d3[2] == Date(2024, 3, 6);
  }

  /** A three-day event whose summary fits on one line: with the guard as
      written, the second day indexes `lines[1]` and panics; with the
      corrected guard the event draws its three boxes and one label. */
  lemma OffByOnePanics()
    ensures var e := Event(0, Date(2024, 3, 4), Date(2024, 3, 6), 3, "Trip");
      var posMap := map[Date(2024, 3, 4) := Slot(0, 68), Date(2024, 3, 5) := Slot(0, 69), Date(2024, 3, 6) := Slot(0, 70)];
      var layout := (x: Event) => [0, 0, 0, 0];
      Valid(e.start)
      && AllDraws([e], layout, posMap, AsWritten) == Err(LineIndexOutOfRange)
      && AllDraws([e], layout, posMap, Corrected) == Ok([
        Box(Date(2024, 3, 4), 0, Slot(0, 68), 0, Green, true, false),
        Label(Date(2024, 3, 4), 0, Slot(0, 68), 0, "Trip"),
        Box(Date(2024, 3, 5), 1, Slot(0, 69), 0, Green, false, false),
        Box(Date(2024, 3, 6), 2, Slot(0, 70), 0, Green, false, true)])
  {
    var e := Event(0, Date(2024, 3, 4), Date(2024, 3, 6), 3, "Trip");
    var posMap := map[Date(2024, 3, 4) := Slot(0, 68), Date(2024, 3, 5) := Slot(0, 69), Date(2024, 3, 6) := Slot(0, 70)];
    var layout := (x: Event) => [0, 0, 0, 0];
    TripIsOneLine();
    TripDays();
    TripOffsets(e, posMap);
    assert layout(e) == [0, 0, 0, 0];
    assert Span(e) == 3;
    var ds := [Box(Date(2024, 3, 4), 0, Slot(0, 68), 0, Green, true, false),
      Label(Date(2024, 3, 4), 0, Slot(0, 68), 0, "Trip"),
      Box(Date(2024, 3, 5), 1, Slot(0, 69), 0, Green, false, false),
      Box(Date(2024, 3, 6), 2, Slot(0, 70), 0, Green, false, true)];
    assert EventDraws(e, layout, posMap, AsWritten) == Err(LineIndexOutOfRange);
    assert EventDraws(e, layout, posMap, Corrected) == Ok(ds);
    var rs := Outcomes([e], layout, posMap, AsWritten);
    assert rs[..0] == [] && rs[0] == Err(LineIndexOutOfRange);
    assert Chain(rs) == Err(LineIndexOutOfRange);
    var cs := Outcomes([e], layout, posMap, Corrected);
    assert cs[..0] == [] && cs[0] == Ok(ds);
    assert [] + ds == ds;
    assert Chain(cs) == Ok(ds);
  }
}
