/** Extraction of all-day events from parsed calendar components
    (`get_events` in src/events.rs). Reading the files and the iCalendar
    parser are outside the model: each calendar arrives as its list of
    top-level components, whose sub-components carry (name, value)
    properties. */
module Events {
  import opened Results
  import opened Dates

  datatype Property = Property(name: string, value: string)

  /** A parsed component: its properties and the components nested in it. */
  datatype Component = Component(properties: seq<Property>, components: seq<Component>)

  /** `Event` of src/events.rs: `id` is the index of the calendar it came from. */
  datatype Event = Event(id: nat, start: Date, end: Date, numDays: int, summary: string)

  /** A sub-component together with the index of its calendar. */
  datatype Tagged = Tagged(id: nat, component: Component)

  const CanceledPrefix: string := "Canceled: "

  /** `str::starts_with`: exact, case-sensitive prefix. */
  predicate StartsWith(s: string, prefix: string) {
    |prefix| <= |s| && s[..|prefix|] == prefix
  }

  predicate IsCanceled(summary: string) {
    StartsWith(summary, CanceledPrefix)
  }

  // ---------------------------------------------------------------------
  // Specification

  /** The value of the last property called `name`, if there is one. */
  function LastValue(props: seq<Property>, name: string): Option<string>
  {
    if props == [] then None
    else if props[|props| - 1].name == name then Some(props[|props| - 1].value)
    else LastValue(props[..|props| - 1], name)
  }

  predicate Complete(c: Component) {
    LastValue(c.properties, "DTSTART").Some?
    && LastValue(c.properties, "DTEND").Some?
    && LastValue(c.properties, "SUMMARY").Some?
  }

  /** What one sub-component contributes: nothing when a field is missing or
      the summary is canceled, a panic when a date does not parse (the parse
      comes before the cancellation test), an event otherwise. */
  function ComponentEvent(t: Tagged): Result<Option<Event>>
  {
    var props := t.component.properties;
    match (LastValue(props, "DTSTART"), LastValue(props, "DTEND"), LastValue(props, "SUMMARY"))
    case (Some(s), Some(e), Some(summary)) =>
      (match (ParseDate(s), ParseDate(e))
       case (Ok(start), Ok(end)) =>
         if IsCanceled(summary) then Ok(None)
         else Ok(Some(Event(t.id, start, end, 1 + DiffDays(end, start), summary)))
       case _ => Err(BadDate))
    case _ => Ok(None)
  }

  /** The sub-components of a list of top-level components, in order. */
  function SubComponents(tops: seq<Component>): seq<Component>
  {
    if tops == [] then []
    else SubComponents(tops[..|tops| - 1]) + tops[|tops| - 1].components
  }

  function Tag(id: nat, comps: seq<Component>): (r: seq<Tagged>)
    ensures |r| == |comps|
    ensures forall k :: 0 <= k < |r| ==> r[k] == Tagged(id, comps[k])
  {
    if comps == [] then [] else Tag(id, comps[..|comps| - 1]) + [Tagged(id, comps[|comps| - 1])]
  }

  /** Every sub-component of every calendar, in the order `get_events`
      visits them, tagged with its calendar's index. */
  function Stream(calendars: seq<seq<Component>>): seq<Tagged>
  {
    if calendars == [] then []
    else
      var n := |calendars| - 1;
      Stream(calendars[..n]) + Tag(n, SubComponents(calendars[n]))
  }

  /** Adds what one sub-component contributes to the events so far; a
      panic, once raised, is final. */
  function Collect(acc: Result<seq<Event>>, next: Result<Option<Event>>): Result<seq<Event>>
  {
    match acc
    case Err(f) => Err(f)
    case Ok(evs) =>
      match next
      case Err(f) => Err(f)
      case Ok(None) => Ok(evs)
      case Ok(Some(e)) => Ok(evs + [e])
  }

  /** The events a run of tagged sub-components yields, or its first panic. */
  function EventsOf(s: seq<Tagged>): Result<seq<Event>>
  {
    if s == [] then Ok([])
    else Collect(EventsOf(s[..|s| - 1]), ComponentEvent(s[|s| - 1]))
  }

  function AllEvents(calendars: seq<seq<Component>>): Result<seq<Event>>
  {
    EventsOf(Stream(calendars))
  }

  // ---------------------------------------------------------------------
  // The extraction loop

  /** The property loop of `get_events`: each DTSTART, DTEND or SUMMARY
      overwrites the one seen before it. */
  method ScanProperties(props: seq<Property>) returns (start: Option<string>, end: Option<string>, summary: Option<string>)
    ensures start == LastValue(props, "DTSTART")
    ensures end == LastValue(props, "DTEND")
    ensures summary == LastValue(props, "SUMMARY")
  {
    start, end, summary := None, None, None;
    var p := 0;
    while p < |props|
      invariant 0 <= p <= |props|
      invariant start == LastValue(props[..p], "DTSTART")
      invariant end == LastValue(props[..p], "DTEND")
      invariant summary == LastValue(props[..p], "SUMMARY")
    {
      assert props[..p + 1][..p] == props[..p];
      var prop := props[p];
      if prop.name == "DTSTART" {
        start := Some(prop.value);
      } else if prop.name == "DTEND" {
        end := Some(prop.value);
      } else if prop.name == "SUMMARY" {
        summary := Some(prop.value);
      }
      p := p + 1;
    }
    assert props[..p] == props;
  }

  /** The body of the sub-component loop of `get_events`. */
  method VisitComponent(id: nat, component: Component) returns (r: Result<Option<Event>>)
    ensures r == ComponentEvent(Tagged(id, component))
  {
    var start, end, summary := ScanProperties(component.properties);
    if start.Some? && end.Some? && summary.Some? {
      var parsedStart := ParseDate(start.value);
      var parsedEnd := ParseDate(end.value);
      if parsedStart.Err? || parsedEnd.Err? {
        return Err(BadDate);
      }
      var numDays := 1 + DiffDays(parsedEnd.value, parsedStart.value);
      if !IsCanceled(summary.value) {
        return Ok(Some(Event(id, parsedStart.value, parsedEnd.value, numDays, summary.value)));
      }
    }
    return Ok(None);
  }

  /** The sub-components visited before sub-component `c` of top-level
      component `t` of calendar `id`. */
  ghost function Visited(calendars: seq<seq<Component>>, id: nat, t: nat, c: nat): seq<Tagged>
    requires id < |calendars| && t < |calendars[id]| && c <= |calendars[id][t].components|
  {
    Stream(calendars[..id]) + Tag(id, SubComponents(calendars[id][..t]) + calendars[id][t].components[..c])
  }

  /** `get_events`: visit every sub-component of every top-level component
      of every calendar, collecting the events; the first unparseable date
      panics. */
  method GetEvents(calendars: seq<seq<Component>>) returns (r: Result<seq<Event>>)
    ensures r == AllEvents(calendars)
  {
    var events: seq<Event> := [];
    var id := 0;
    while id < |calendars|
      invariant 0 <= id <= |calendars|
      invariant EventsOf(Stream(calendars[..id])) == Ok(events)
    {
      var outcome := VisitCalendar(calendars, id, events);
      if outcome.Err? {
        return outcome;
      }
      events := outcome.value;
      id := id + 1;
    }
    assert calendars[..id] == calendars;
    r := Ok(events);
  }

  /** The loop over the top-level components of calendar `id`: the events
      so far extended by those of the calendar, or the panic that ends the
      whole extraction. */
  method VisitCalendar(calendars: seq<seq<Component>>, id: nat, events: seq<Event>) returns (r: Result<seq<Event>>)
    requires id < |calendars| && EventsOf(Stream(calendars[..id])) == Ok(events)
    ensures r.Ok? ==> EventsOf(Stream(calendars[..id + 1])) == r
    ensures r.Err? ==> AllEvents(calendars) == r
  {
    var tops := calendars[id];
    var acc := events;
    var t := 0;
    FirstTop(calendars, id);
    while t < |tops|
      invariant 0 <= t <= |tops|
      invariant EventsOf(Stream(calendars[..id]) + Tag(id, SubComponents(tops[..t]))) == Ok(acc)
    {
      FirstVisited(calendars, id, t);
      var outcome := VisitTop(calendars, id, t, acc);
      if outcome.Err? {
        return outcome;
      }
      acc := outcome.value;
      NextTop(calendars, id, t);
      t := t + 1;
    }
    NextCalendar(calendars, id);
    r := Ok(acc);
  }

  /** The loop over the sub-components of top-level component `t` of
      calendar `id`. */
  method VisitTop(calendars: seq<seq<Component>>, id: nat, t: nat, events: seq<Event>) returns (r: Result<seq<Event>>)
    requires id < |calendars| && t < |calendars[id]|
    requires EventsOf(Visited(calendars, id, t, 0)) == Ok(events)
    ensures r.Ok? ==> EventsOf(Visited(calendars, id, t, |calendars[id][t].components|)) == r
    ensures r.Err? ==> AllEvents(calendars) == r
  {
    var comps := calendars[id][t].components;
    var acc := events;
    var c := 0;
    while c < |comps|
      invariant 0 <= c <= |comps|
      invariant EventsOf(Visited(calendars, id, t, c)) == Ok(acc)
    {
      var outcome := VisitComponent(id, comps[c]);
      VisitedStep(calendars, id, t, c);
      match outcome {
        case Err(f) =>
          PanicIsFinal(calendars, id, t, c);
          return Err(f);
        case Ok(None) =>
        case Ok(Some(e)) =>
          acc := acc + [e];
      }
      c := c + 1;
    }
    r := Ok(acc);
  }

  // ---------------------------------------------------------------------
  // Helpers for the loop proof

  lemma AppendOne(s: seq<Tagged>, x: Tagged)
    ensures EventsOf(s + [x]) == Collect(EventsOf(s), ComponentEvent(x))
  {
    assert (s + [x])[..|s|] == s;
  }

  lemma {:induction false} TagAppend(id: nat, a: seq<Component>, b: seq<Component>)
    ensures Tag(id, a + b) == Tag(id, a) + Tag(id, b)
  {
  }

  lemma {:induction false} SubComponentsPrefix(tops: seq<Component>, t: nat)
    requires t <= |tops|
    ensures SubComponents(tops[..t]) <= SubComponents(tops)
    decreases |tops| - t
  {
    if t < |tops| {
      SubComponentsPrefix(tops, t + 1);
      assert tops[..t + 1][..t] == tops[..t];
    } else {
      assert tops[..t] == tops;
    }
  }

  lemma {:induction false} StreamPrefix(calendars: seq<seq<Component>>, id: nat)
    requires id <= |calendars|
    ensures Stream(calendars[..id]) <= Stream(calendars)
    decreases |calendars| - id
  {
    if id < |calendars| {
      StreamPrefix(calendars, id + 1);
      assert calendars[..id + 1][..id] == calendars[..id];
    } else {
      assert calendars[..id] == calendars;
    }
  }

  lemma {:induction false} ErrPersists(s: seq<Tagged>, u: seq<Tagged>)
    requires s <= u && EventsOf(s).Err?
    ensures EventsOf(u) == EventsOf(s)
    decreases |u|
  {
    if |s| < |u| {
      ErrPersists(s, u[..|u| - 1]);
    } else {
      assert s == u;
    }
  }

  lemma VisitedStep(calendars: seq<seq<Component>>, id: nat, t: nat, c: nat)
    requires id < |calendars| && t < |calendars[id]| && c < |calendars[id][t].components|
    ensures Visited(calendars, id, t, c + 1) == Visited(calendars, id, t, c) + [Tagged(id, calendars[id][t].components[c])]
    ensures EventsOf(Visited(calendars, id, t, c + 1))
         == Collect(EventsOf(Visited(calendars, id, t, c)), ComponentEvent(Tagged(id, calendars[id][t].components[c])))
  {
    var comps := calendars[id][t].components;
    var pre := SubComponents(calendars[id][..t]);
    assert pre + comps[..c + 1] == (pre + comps[..c]) + [comps[c]];
    TagAppend(id, pre + comps[..c], [comps[c]]);
    AppendOne(Visited(calendars, id, t, c), Tagged(id, comps[c]));
  }

  lemma FirstVisited(calendars: seq<seq<Component>>, id: nat, t: nat)
    requires id < |calendars| && t < |calendars[id]|
    ensures Visited(calendars, id, t, 0) == Stream(calendars[..id]) + Tag(id, SubComponents(calendars[id][..t]))
  {
    assert calendars[id][t].components[..0] == [];
    assert SubComponents(calendars[id][..t]) + [] == SubComponents(calendars[id][..t]);
  }

  lemma NextTop(calendars: seq<seq<Component>>, id: nat, t: nat)
    requires id < |calendars| && t < |calendars[id]|
    ensures Visited(calendars, id, t, |calendars[id][t].components|)
         == Stream(calendars[..id]) + Tag(id, SubComponents(calendars[id][..t + 1]))
  {
    var tops := calendars[id];
    assert tops[..t + 1][..t] == tops[..t];
    assert tops[t].components[..|tops[t].components|] == tops[t].components;
  }

  lemma FirstTop(calendars: seq<seq<Component>>, id: nat)
    requires id < |calendars|
    ensures Stream(calendars[..id]) + Tag(id, SubComponents(calendars[id][..0])) == Stream(calendars[..id])
  {
    assert calendars[id][..0] == [];
  }

  lemma NextCalendar(calendars: seq<seq<Component>>, id: nat)
    requires id < |calendars|
    ensures Stream(calendars[..id]) + Tag(id, SubComponents(calendars[id][..|calendars[id]|]))
         == Stream(calendars[..id + 1])
  {
    assert calendars[..id + 1][..id] == calendars[..id];
    assert calendars[id][..|calendars[id]|] == calendars[id];
  }

  lemma {:induction false} TagPrefix(id: nat, a: seq<Component>, b: seq<Component>)
    requires a <= b
    ensures Tag(id, a) <= Tag(id, b)
  {
    assert b == a + b[|a|..];
    TagAppend(id, a, b[|a|..]);
  }

  /** What has been visited is a prefix of the whole stream. */
  lemma VisitedPrefix(calendars: seq<seq<Component>>, id: nat, t: nat, c: nat)
    requires id < |calendars| && t < |calendars[id]| && c <= |calendars[id][t].components|
    ensures Visited(calendars, id, t, c) <= Stream(calendars)
  {
    var tops := calendars[id];
    var comps := tops[t].components;
    var part := SubComponents(tops[..t]) + comps[..c];
    assert tops[..t + 1][..t] == tops[..t];
    assert SubComponents(tops[..t + 1]) == SubComponents(tops[..t]) + comps;
    SubComponentsPrefix(tops, t + 1);
    assert part <= SubComponents(tops);
    TagPrefix(id, part, SubComponents(tops));
    NextCalendar(calendars, id);
    assert tops[..|tops|] == tops;
    StreamPrefix(calendars, id + 1);
  }

  /** A panic in the sub-component being visited is the outcome of the whole
      extraction. */
  lemma PanicIsFinal(calendars: seq<seq<Component>>, id: nat, t: nat, c: nat)
    requires id < |calendars| && t < |calendars[id]| && c < |calendars[id][t].components|
    requires EventsOf(Visited(calendars, id, t, c)).Ok?
    requires ComponentEvent(Tagged(id, calendars[id][t].components[c])).Err?
    ensures AllEvents(calendars) == Err(ComponentEvent(Tagged(id, calendars[id][t].components[c])).failure)
  {
    VisitedStep(calendars, id, t, c);
    VisitedPrefix(calendars, id, t, c + 1);
    ErrPersists(Visited(calendars, id, t, c + 1), Stream(calendars));
  }

  // ---------------------------------------------------------------------
  // What `get_events` promises

  /** Property `i` is a `name` property with value `v`, and no later
      property has that name. */
  predicate LastAt(props: seq<Property>, name: string, v: string, i: int) {
    0 <= i < |props| && props[i] == Property(name, v)
    && forall j :: i < j < |props| ==> props[j].name != name
  }

  /** When a property name repeats, the last occurrence wins. */
  lemma LastValueIsLastOccurrence(props: seq<Property>, name: string, v: string)
    ensures LastValue(props, name) == Some(v) <==> exists i :: LastAt(props, name, v, i)
  {
    if LastValue(props, name) == Some(v) {
      LastValueWitness(props, name, v);
    }
    if exists i :: LastAt(props, name, v, i) {
      var i :| LastAt(props, name, v, i);
      LastAtValue(props, name, v, i);
    }
  }

  lemma {:induction false} LastValueWitness(props: seq<Property>, name: string, v: string)
    requires LastValue(props, name) == Some(v)
    ensures exists i :: LastAt(props, name, v, i)
  {
    var n := |props| - 1;
    if props[n].name == name {
      assert LastAt(props, name, v, n);
    } else {
      LastValueWitness(props[..n], name, v);
      var i :| LastAt(props[..n], name, v, i);
      forall j | i < j < |props|
        ensures props[j].name != name
      {
        if j < n {
          assert props[..n][j] == props[j];
        }
      }
      assert props[..n][i] == props[i];
      assert LastAt(props, name, v, i);
    }
  }

  lemma {:induction false} LastAtValue(props: seq<Property>, name: string, v: string, i: int)
    requires LastAt(props, name, v, i)
    ensures LastValue(props, name) == Some(v)
  {
    var n := |props| - 1;
    if i < n {
      assert props[n].name != name;
      forall j | i < j < n
        ensures props[..n][j].name != name
      {
        assert props[..n][j] == props[j];
      }
      assert LastAt(props[..n], name, v, i);
      LastAtValue(props[..n], name, v, i);
    }
  }

  /** A field is missing exactly when no property has its name. */
  lemma {:induction false} LastValueMissing(props: seq<Property>, name: string)
    ensures LastValue(props, name) == None <==> forall i :: 0 <= i < |props| ==> props[i].name != name
  {
    if props != [] {
      LastValueMissing(props[..|props| - 1], name);
      if props[|props| - 1].name != name {
        assert forall i :: 0 <= i < |props| - 1 ==> props[..|props| - 1][i] == props[i];
      }
    }
  }

  /** A sub-component lacking DTSTART, DTEND or SUMMARY is skipped silently. */
  lemma IncompleteSkipped(t: Tagged)
    requires !Complete(t.component)
    ensures ComponentEvent(t) == Ok(None)
  {
  }

  /** A sub-component panics exactly when it is complete and its DTSTART or
      DTEND is not a date; an incomplete one is skipped before any parse. */
  lemma ComponentEventErr(t: Tagged)
    ensures ComponentEvent(t).Err? <==>
      Complete(t.component)
      && (ParseDate(LastValue(t.component.properties, "DTSTART").value).Err?
          || ParseDate(LastValue(t.component.properties, "DTEND").value).Err?)
  {
  }

  /** A complete sub-component whose dates parse and whose summary is not
      canceled yields an event tagged with its calendar's index, counting
      DTEND as an occupied day; the summary is kept unchanged. */
  lemma CompleteComponentEvent(t: Tagged, start: Date, end: Date, summary: string)
    requires LastValue(t.component.properties, "DTSTART").Some?
    requires ParseDate(LastValue(t.component.properties, "DTSTART").value) == Ok(start)
    requires LastValue(t.component.properties, "DTEND").Some?
    requires ParseDate(LastValue(t.component.properties, "DTEND").value) == Ok(end)
    requires LastValue(t.component.properties, "SUMMARY") == Some(summary)
    ensures IsCanceled(summary) ==> ComponentEvent(t) == Ok(None)
    ensures !IsCanceled(summary) ==> ComponentEvent(t) == Ok(Some(Event(t.id, start, end, 1 + DiffDays(end, start), summary)))
  {
  }

  /** Any summary that is the cancellation prefix followed by anything is
      dropped, whatever its dates. */
  lemma CanceledDropped(t: Tagged, rest: string)
    requires LastValue(t.component.properties, "SUMMARY") == Some(CanceledPrefix + rest)
    ensures ComponentEvent(t).Ok? ==> ComponentEvent(t) == Ok(None)
  {
    assert (CanceledPrefix + rest)[..|CanceledPrefix|] == CanceledPrefix;
  }

  /** A single-day event (DTSTART == DTEND) spans one day; DTEND before
      DTSTART is not rejected and gives a day count of zero or less. */
  lemma NumDaysOfRange(e: Event, t: Tagged)
    requires ComponentEvent(t) == Ok(Some(e))
    ensures Valid(e.start) && Valid(e.end) && e.id == t.id && !IsCanceled(e.summary)
    ensures e.numDays == 1 + DiffDays(e.end, e.start)
    ensures e.start == e.end ==> e.numDays == 1
    ensures Before(e.end, e.start) <==> e.numDays <= 0
  {
    BeforeIffDayNumber(e.end, e.start);
  }

  /** What one sub-component adds to the events: its event, if any. */
  function Yielded(o: Option<Event>): seq<Event>
  {
    if o.Some? then [o.value] else []
  }

  /** The last step of a successful extraction: the events of all but the
      last sub-component, then whatever the last one yields. */
  lemma LastStep(s: seq<Tagged>)
    requires s != [] && EventsOf(s).Ok?
    ensures EventsOf(s[..|s| - 1]).Ok? && ComponentEvent(s[|s| - 1]).Ok?
    ensures EventsOf(s).value == EventsOf(s[..|s| - 1]).value + Yielded(ComponentEvent(s[|s| - 1]).value)
  {
    var n := |s| - 1;
    assert EventsOf(s) == Collect(EventsOf(s[..n]), ComponentEvent(s[n]));
    CollectOk(EventsOf(s[..n]), ComponentEvent(s[n]));
  }

  lemma CollectOk(acc: Result<seq<Event>>, next: Result<Option<Event>>)
    ensures Collect(acc, next).Ok? <==> acc.Ok? && next.Ok?
    ensures Collect(acc, next).Ok? ==>
      Collect(acc, next).value == acc.value + Yielded(next.value)
  {
  }

  /** The events are the concatenation, in visiting order, of what each
      sub-component yields. */
  lemma {:induction false} EventsOfAppend(s: seq<Tagged>, u: seq<Tagged>)
    requires EventsOf(s + u).Ok?
    ensures EventsOf(s).Ok? && EventsOf(u).Ok?
    ensures EventsOf(s + u).value == EventsOf(s).value + EventsOf(u).value
    decreases |u|
  {
    if u == [] {
      assert s + u == s;
    } else {
      PrefixOk(s, u);
      EventsOfAppend(s, u[..|u| - 1]);
      AppendStep(s, u);
    }
  }

  /** Dropping the last sub-component of a successful run leaves a
      successful run. */
  lemma PrefixOk(s: seq<Tagged>, u: seq<Tagged>)
    requires u != [] && EventsOf(s + u).Ok?
    ensures EventsOf(s + u[..|u| - 1]).Ok? && ComponentEvent(u[|u| - 1]).Ok?
    ensures EventsOf(s + u).value == EventsOf(s + u[..|u| - 1]).value + Yielded(ComponentEvent(u[|u| - 1]).value)
  {
    var su := s + u;
    assert su[..|su| - 1] == s + u[..|u| - 1];
    assert su[|su| - 1] == u[|u| - 1];
    LastStep(su);
  }

  lemma AppendStep(s: seq<Tagged>, u: seq<Tagged>)
    requires u != [] && ComponentEvent(u[|u| - 1]).Ok?
    requires EventsOf(s).Ok? && EventsOf(u[..|u| - 1]).Ok? && EventsOf(s + u[..|u| - 1]).Ok?
    requires EventsOf(s + u[..|u| - 1]).value == EventsOf(s).value + EventsOf(u[..|u| - 1]).value
    requires EventsOf(s + u).Ok?
    requires EventsOf(s + u).value == EventsOf(s + u[..|u| - 1]).value + Yielded(ComponentEvent(u[|u| - 1]).value)
    ensures EventsOf(u).Ok?
    ensures EventsOf(s + u).value == EventsOf(s).value + EventsOf(u).value
  {
    var n := |u| - 1;
    assert EventsOf(u) == Collect(EventsOf(u[..n]), ComponentEvent(u[n]));
    CollectOk(EventsOf(u[..n]), ComponentEvent(u[n]));
    var front, back := EventsOf(s).value, EventsOf(u[..n]).value;
    var tail := Yielded(ComponentEvent(u[n]).value);
    assert EventsOf(u).value == back + tail;
    assert (front + back) + tail == front + (back + tail);
  }

  /** Extraction succeeds exactly when every sub-component's outcome does. */
  lemma {:induction false} EventsOfOkIff(s: seq<Tagged>)
    ensures EventsOf(s).Ok? <==> forall k :: 0 <= k < |s| ==> ComponentEvent(s[k]).Ok?
  {
    if s != [] {
      var n := |s| - 1;
      EventsOfOkIff(s[..n]);
      assert forall k :: 0 <= k < n ==> s[..n][k] == s[k];
    }
  }

  /** Extraction panics exactly when some complete sub-component has a
      DTSTART or DTEND that does not parse. */
  lemma EventsOfErrIff(s: seq<Tagged>)
    ensures EventsOf(s).Err? <==>
      exists k :: 0 <= k < |s| && Complete(s[k].component)
        && (ParseDate(LastValue(s[k].component.properties, "DTSTART").value).Err?
            || ParseDate(LastValue(s[k].component.properties, "DTEND").value).Err?)
  {
    EventsOfOkIff(s);
    forall k | 0 <= k < |s| {
      ComponentEventErr(s[k]);
    }
  }

  /** When extraction succeeds, an event is in its output exactly when some
      sub-component yields it. */
  lemma {:induction false} EventsOfMembers(s: seq<Tagged>, e: Event)
    requires EventsOf(s).Ok?
    ensures e in EventsOf(s).value <==> exists k :: 0 <= k < |s| && ComponentEvent(s[k]) == Ok(Some(e))
  {
    if s != [] {
      var n := |s| - 1;
      LastStep(s);
      var pre := EventsOf(s[..n]).value;
      EventsOfMembers(s[..n], e);
      if e in EventsOf(s).value {
        if e in pre {
          var k :| 0 <= k < n && ComponentEvent(s[..n][k]) == Ok(Some(e));
          assert s[..n][k] == s[k];
        } else {
          assert ComponentEvent(s[n]) == Ok(Some(e));
        }
      } else {
        forall k | 0 <= k < |s|
          ensures ComponentEvent(s[k]) != Ok(Some(e))
        {
          if k < n {
            assert s[..n][k] == s[k];
          }
        }
      }
    }
  }

  lemma {:induction false} StreamIds(calendars: seq<seq<Component>>)
    ensures forall k :: 0 <= k < |Stream(calendars)| ==> Stream(calendars)[k].id < |calendars|
    ensures forall k1, k2 :: 0 <= k1 < k2 < |Stream(calendars)| ==> Stream(calendars)[k1].id <= Stream(calendars)[k2].id
  {
    if calendars != [] {
      var n := |calendars| - 1;
      StreamIds(calendars[..n]);
    }
  }

  /** Every event of a calendar carries the calendar's index; outside a
      panic, the events are in calendar order and none is canceled. */
  lemma AllEventsFacts(calendars: seq<seq<Component>>)
    requires AllEvents(calendars).Ok?
    ensures forall e :: e in AllEvents(calendars).value ==>
      e.id < |calendars| && !IsCanceled(e.summary) && Valid(e.start) && Valid(e.end)
      && e.numDays == 1 + DiffDays(e.end, e.start)
    ensures forall i, j :: 0 <= i < j < |AllEvents(calendars).value| ==>
      AllEvents(calendars).value[i].id <= AllEvents(calendars).value[j].id
  {
    var s := Stream(calendars);
    var out := AllEvents(calendars).value;
    StreamIds(calendars);
    forall e | e in out
      ensures e.id < |calendars| && !IsCanceled(e.summary) && Valid(e.start) && Valid(e.end)
      ensures e.numDays == 1 + DiffDays(e.end, e.start)
    {
      EventsOfMembers(s, e);
      var k :| 0 <= k < |s| && ComponentEvent(s[k]) == Ok(Some(e));
      NumDaysOfRange(e, s[k]);
    }
    forall i, j | 0 <= i < j < |out|
      ensures out[i].id <= out[j].id
    {
      OrderedIds(s, i, j);
    }
  }

  /** Ids of the events follow the ids of the sub-components they come from. */
  lemma {:induction false} OrderedIds(s: seq<Tagged>, i: int, j: int)
    requires EventsOf(s).Ok?
    requires forall k1, k2 :: 0 <= k1 < k2 < |s| ==> s[k1].id <= s[k2].id
    requires 0 <= i < j < |EventsOf(s).value|
    ensures EventsOf(s).value[i].id <= EventsOf(s).value[j].id
  {
    var n := |s| - 1;
    LastStep(s);
    var out := EventsOf(s).value;
    var pre := EventsOf(s[..n]).value;
    if j < |pre| {
      forall k1, k2 | 0 <= k1 < k2 < n
        ensures s[..n][k1].id <= s[..n][k2].id
      {
        assert s[..n][k1] == s[k1] && s[..n][k2] == s[k2];
      }
      assert out[i] == pre[i] && out[j] == pre[j];
      OrderedIds(s[..n], i, j);
    } else {
      // the last event comes from s[n]; every earlier one from some s[k]
      assert ComponentEvent(s[n]) == Ok(Some(out[j]));
      ComponentEventId(s[n]);
      var e := out[i];
      assert e == pre[i];
      EventsOfMembers(s[..n], e);
      var k :| 0 <= k < n && ComponentEvent(s[..n][k]) == Ok(Some(e));
      assert s[..n][k] == s[k];
      ComponentEventId(s[k]);
    }
  }

  lemma ComponentEventId(t: Tagged)
    requires ComponentEvent(t).Ok? && ComponentEvent(t).value.Some?
    ensures ComponentEvent(t).value.value.id == t.id
  {
  }
}
