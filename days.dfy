/** The date-to-summaries map of `populate_days` (src/main.rs). */
module Days {
  import opened Dates
  import opened Events

  /** Event `e` puts its summary on date `d`: it is not canceled and `d`
      lies between its start and its end, both included. */
  predicate Covers(e: Event, d: Date) {
    !IsCanceled(e.summary) && Valid(d) && NotAfter(e.start, d) && NotAfter(d, e.end)
  }

  /** The summaries of the events covering `d`, in input order. */
  function Covering(events: seq<Event>, d: Date): seq<string>
  {
    if events == [] then []
    else
      var n := |events| - 1;
      Covering(events[..n], d) + (if Covers(events[n], d) then [events[n].summary] else [])
  }

  /** The indices of the events covering `d`, in input order. */
  function CoveringIndices(events: seq<Event>, d: Date): seq<nat>
  {
    if events == [] then []
    else
      var n := |events| - 1;
      CoveringIndices(events[..n], d) + (if Covers(events[n], d) then [n] else [])
  }

  predicate ValidDates(events: seq<Event>) {
    forall i :: 0 <= i < |events| ==> Valid(events[i].start) && Valid(events[i].end)
  }

  /** `populate_days`: for each event that is not canceled, walk from its
      start to its end one day at a time, appending the summary to the
      entry of each day. */
  method PopulateDays(events: seq<Event>) returns (days: map<Date, seq<string>>)
    requires ValidDates(events)
    ensures forall d :: d in days <==> Covering(events, d) != []
    ensures forall d :: d in days ==> days[d] == Covering(events, d)
  {
    days := map[];
    var i := 0;
    while i < |events|
      invariant 0 <= i <= |events|
      invariant forall d :: d in days <==> Covering(events[..i], d) != []
      invariant forall d :: d in days ==> days[d] == Covering(events[..i], d)
    {
      var e := events[i];
      if !IsCanceled(e.summary) {
        days := AddSpan(days, e);
      }
      forall d
        ensures d in days <==> Covering(events[..i + 1], d) != []
        ensures d in days ==> days[d] == Covering(events[..i + 1], d)
      {
        CoveringStep(events, i, d);
      }
      i := i + 1;
    }
    assert events[..i] == events;
  }

  /** The entry of `d` in `days`, empty when `d` is not a key. */
  function Entry(days: map<Date, seq<string>>, d: Date): seq<string> {
    if d in days then days[d] else []
  }

  /** The inner walk of `populate_days` for one event that is not canceled:
      each date from its start to its end, both included, gets the summary
      appended; the other entries are left alone. */
  method AddSpan(days: map<Date, seq<string>>, e: Event) returns (days': map<Date, seq<string>>)
    requires Valid(e.start) && Valid(e.end) && !IsCanceled(e.summary)
    ensures forall d :: d in days' <==> d in days || Covers(e, d)
    ensures forall d :: d in days' ==> days'[d] == Entry(days, d) + (if Covers(e, d) then [e.summary] else [])
  {
    days' := days;
    var day := e.start;
    while NotAfter(day, e.end)
      invariant Valid(day) && NotAfter(e.start, day)
      invariant forall d :: d in days' <==> d in days || (Covers(e, d) && Before(d, day))
      invariant forall d :: d in days' ==> days'[d] == Entry(days, d) + (if Covers(e, d) && Before(d, day) then [e.summary] else [])
      decreases DayNumber(e.end) - DayNumber(day)
    {
      NotAfterIffDayNumber(day, e.end);
      BeforeSucc(day);
      var prior := if day in days' then days'[day] else [];
      days' := days'[day := prior + [e.summary]];
      NotAfterTrans(e.start, day, Succ(day));
      day := Succ(day);
    }
    forall d | Covers(e, d) ensures Before(d, day) {
      PastEnd(d, e.end, day);
    }
  }

  /** Taking one more event appends its summary to the dates it covers. */
  lemma CoveringStep(events: seq<Event>, i: nat, d: Date)
    requires i < |events|
    ensures Covering(events[..i + 1], d) ==
      Covering(events[..i], d) + (if Covers(events[i], d) then [events[i].summary] else [])
  {
    assert events[..i + 1][..i] == events[..i];
  }

  // ---------------------------------------------------------------------
  // What the map holds

  /** `days[d]` lists, in input order, the summary of every event covering
      `d` and of no other event: its length is the number of such events. */
  lemma {:induction false} CoveringInOrder(events: seq<Event>, d: Date)
    ensures |Covering(events, d)| == |CoveringIndices(events, d)|
    ensures forall k :: 0 <= k < |CoveringIndices(events, d)| ==>
      CoveringIndices(events, d)[k] < |events|
      && Covers(events[CoveringIndices(events, d)[k]], d)
      && Covering(events, d)[k] == events[CoveringIndices(events, d)[k]].summary
    ensures forall k1, k2 :: 0 <= k1 < k2 < |CoveringIndices(events, d)| ==>
      CoveringIndices(events, d)[k1] < CoveringIndices(events, d)[k2]
    ensures forall i :: 0 <= i < |events| && Covers(events[i], d) ==> i in CoveringIndices(events, d)
  {
    if events != [] {
      var n := |events| - 1;
      CoveringInOrder(events[..n], d);
      assert forall i :: 0 <= i < n ==> events[..n][i] == events[i];
    }
  }

  /** A date is a key of the map exactly when some event covers it. */
  lemma KeyIffCovered(events: seq<Event>, d: Date)
    ensures Covering(events, d) != [] <==> exists i :: 0 <= i < |events| && Covers(events[i], d)
  {
    CoveringInOrder(events, d);
    var indices := CoveringIndices(events, d);
    if exists i :: 0 <= i < |events| && Covers(events[i], d) {
      var i :| 0 <= i < |events| && Covers(events[i], d);
      assert i in indices;
      assert |indices| > 0;
    }
    if Covering(events, d) != [] {
      assert |indices| > 0;
      assert Covers(events[indices[0]], d);
    }
  }

  /** The dates an event that is not canceled covers are exactly its start
      plus 0, 1, ..., up to and including its end. */
  lemma SpanCovered(e: Event, d: Date)
    requires Valid(e.start) && Valid(e.end) && !IsCanceled(e.summary)
    ensures Covers(e, d) <==>
      Valid(d) && 0 <= DiffDays(d, e.start) <= DiffDays(e.end, e.start) && d == AddDays(e.start, DiffDays(d, e.start))
  {
    if Valid(d) {
      NotAfterIffDayNumber(e.start, d);
      NotAfterIffDayNumber(d, e.end);
      if 0 <= DiffDays(d, e.start) {
        DiffAddDays(e.start, DiffDays(d, e.start));
        DayNumberInjective(d, AddDays(e.start, DiffDays(d, e.start)));
      }
    }
  }

  /** An event whose end comes before its start adds no key. */
  lemma ReversedRangeCoversNothing(e: Event, d: Date)
    requires Valid(e.start) && Valid(e.end) && Before(e.end, e.start)
    ensures !Covers(e, d)
  {
    BeforeIffDayNumber(e.end, e.start);
    if Valid(d) {
      NotAfterIffDayNumber(e.start, d);
      NotAfterIffDayNumber(d, e.end);
    }
  }

  /** A canceled event contributes nothing: removing it leaves every entry
      unchanged. */
  lemma {:induction false} CanceledIgnored(events: seq<Event>, k: nat, d: Date)
    requires k < |events| && IsCanceled(events[k].summary)
    ensures Covering(events[..k] + events[k + 1..], d) == Covering(events, d)
    decreases |events|
  {
    var n := |events| - 1;
    if k == n {
      assert events[..k] + events[k + 1..] == events[..n];
    } else {
      var rest := events[..k] + events[k + 1..];
      assert rest[..|rest| - 1] == events[..n][..k] + events[..n][k + 1..];
      assert rest[|rest| - 1] == events[n];
      CanceledIgnored(events[..n], k, d);
    }
  }

  // ---------------------------------------------------------------------
  // Order facts used by the walk

  lemma BeforeSucc(day: Date)
    requires Valid(day)
    ensures forall d :: Valid(d) ==> (Before(d, Succ(day)) <==> Before(d, day) || d == day)
  {
    forall d | Valid(d) ensures Before(d, Succ(day)) <==> Before(d, day) || d == day {
      BeforeIffDayNumber(d, Succ(day));
      BeforeIffDayNumber(d, day);
      DayNumberInjective(d, day);
    }
  }

  lemma NotAfterTrans(a: Date, b: Date, c: Date)
    requires Valid(a) && Valid(b) && Valid(c) && NotAfter(a, b) && NotAfter(b, c)
    ensures NotAfter(a, c)
  {
    NotAfterIffDayNumber(a, b);
    NotAfterIffDayNumber(b, c);
    NotAfterIffDayNumber(a, c);
  }

  lemma PastEnd(d: Date, end: Date, day: Date)
    requires Valid(d) && Valid(end) && Valid(day) && NotAfter(d, end) && !NotAfter(day, end)
    ensures Before(d, day)
  {
    NotAfterIffDayNumber(d, end);
    NotAfterIffDayNumber(day, end);
    BeforeIffDayNumber(d, day);
  }
}
