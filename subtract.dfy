/**
 * Interval subtractor (`subtractFixedEvents`, backend/src/services/planner.js):
 * fixed events are cut out of the availability windows, and fragments shorter
 * than `MinFreeMinutes` are dropped.
 */
module Subtract {
  import opened PlannerTime
  import opened Windows

  /** Fragments shorter than this are discarded (only when there are events). */
  const MinFreeMinutes: int := 25

  /** A one-off event; its instants are what `new Date(event.start/end)` gives. */
  datatype FixedEvent = FixedEvent(start: DateValue, end: DateValue)

  /** The event takes part in subtraction: both dates valid and end after start. */
  predicate IsValidEvent(e: FixedEvent) {
    e.start.At? && e.end.At? && e.end.minute > e.start.minute
  }

  function EventInterval(e: FixedEvent): Interval
    requires IsValidEvent(e)
  {
    Interval(e.start.minute, e.end.minute)
  }

  /** Minute `t` is occupied by event `e` (an invalid event occupies nothing). */
  predicate Occupies(e: FixedEvent, t: int) {
    IsValidEvent(e) && Contains(EventInterval(e), t)
  }

  /** The `.map(...).filter(end > start)` step, in input order. */
  function ValidEvents(events: seq<FixedEvent>): (r: seq<Interval>)
    ensures forall iv :: iv in r <==> exists e :: e in events && IsValidEvent(e) && EventInterval(e) == iv
  {
    if events == [] then []
    else
      var rest := ValidEvents(events[1..]);
      assert forall e :: e in events <==> e == events[0] || e in events[1..];
      if IsValidEvent(events[0]) then [EventInterval(events[0])] + rest else rest
  }

  /** The events the subtractor walks: valid ones, stably sorted by start. */
  function FixedIntervals(events: seq<FixedEvent>): (r: seq<Interval>)
    ensures forall iv :: iv in r <==> iv in ValidEvents(events)
  {
    var r := SortByStart(ValidEvents(events));
    assert forall iv :: iv in r <==> iv in multiset(r);
    r
  }

  /** The overlap test the inner loop applies (including its own `end > start`). */
  predicate EventHits(ev: Interval, seg: Interval) {
    ev.start < seg.end && ev.end > seg.start && ev.end > ev.start
  }

  /** What one event leaves of one segment: itself, or a part before and a part after. */
  function Split(seg: Interval, ev: Interval): seq<Interval> {
    if !EventHits(ev, seg) then [seg]
    else
      (if ev.start > seg.start then [Interval(seg.start, ev.start)] else [])
      + (if ev.end < seg.end then [Interval(ev.end, seg.end)] else [])
  }

  /** One pass of the event loop over all current segments (`nextSegments`). */
  function ApplyEvent(segs: seq<Interval>, ev: Interval): seq<Interval> {
    if segs == [] then []
    else ApplyEvent(segs[..|segs| - 1], ev) + Split(segs[|segs| - 1], ev)
  }

  /** All events applied, in order, to a list of segments. */
  function ApplyEvents(segs: seq<Interval>, evs: seq<Interval>): seq<Interval>
    decreases |evs|
  {
    if evs == [] then segs else ApplyEvents(ApplyEvent(segs, evs[0]), evs[1..])
  }

  /** The segments of every window, window after window (`result.push(...segments)`). */
  function Remnants(windows: seq<Interval>, evs: seq<Interval>): seq<Interval> {
    if windows == [] then []
    else Remnants(windows[..|windows| - 1], evs) + ApplyEvents([windows[|windows| - 1]], evs)
  }

  /** The final `filter(diffMinutes >= 25)`. */
  function KeepLong(segs: seq<Interval>): (r: seq<Interval>)
    ensures forall s :: s in r <==> s in segs && Length(s) >= MinFreeMinutes
  {
    if segs == [] then []
    else
      assert forall s :: s in segs <==> s == segs[0] || s in segs[1..];
      (if Length(segs[0]) >= MinFreeMinutes then [segs[0]] else []) + KeepLong(segs[1..])
  }

  /** What `subtractFixedEvents` returns. */
  function FreeSlots(windows: seq<Interval>, events: seq<FixedEvent>): seq<Interval> {
    if |events| == 0 then windows
    else KeepLong(Remnants(windows, FixedIntervals(events)))
  }

  /** `subtractFixedEvents`, with its nested loops over windows, events and segments. */
  method SubtractFixedEvents(windows: seq<Interval>, events: seq<FixedEvent>)
    returns (free: seq<Interval>)
    ensures free == FreeSlots(windows, events)
    ensures |events| == 0 ==> free == windows
  {
    if |events| == 0 {
      return windows;
    }
    var fixed := FixedIntervals(events);
    var result: seq<Interval> := [];
    for w := 0 to |windows|
      invariant result == Remnants(windows[..w], fixed)
    {
      var segments := CutWindow(windows[w], fixed);
      assert windows[..w + 1][..w] == windows[..w];
      result := result + segments;
    }
    assert windows[..|windows|] == windows;
    free := KeepLong(result);
  }

  /** The body of the window loop: every event in turn cuts the window's segments. */
  method CutWindow(window: Interval, fixed: seq<Interval>) returns (segments: seq<Interval>)
    ensures segments == ApplyEvents([window], fixed)
  {
    segments := [window];
    var e := 0;
    while e < |fixed|
      invariant 0 <= e <= |fixed|
      invariant ApplyEvents(segments, fixed[e..]) == ApplyEvents([window], fixed)
      decreases |fixed| - e
    {
      var event := fixed[e];
      var nextSegments: seq<Interval> := [];
      for s := 0 to |segments|
        invariant nextSegments == ApplyEvent(segments[..s], event)
      {
        var segment := segments[s];
        assert segments[..s + 1][..s] == segments[..s];
        var overlaps := event.start < segment.end && event.end > segment.start && event.end > event.start;
        if !overlaps {
          nextSegments := nextSegments + [segment];
        } else {
          if event.start > segment.start {
            nextSegments := nextSegments + [Interval(segment.start, event.start)];
          }
          if event.end < segment.end {
            nextSegments := nextSegments + [Interval(event.end, segment.end)];
          }
        }
      }
      assert segments[..|segments|] == segments;
      assert fixed[e..][1..] == fixed[e + 1..];
      segments := nextSegments;
      e := e + 1;
      if |segments| == 0 {
        break;
      }
    }
    if e < |fixed| {
      ApplyEventsNothing(fixed[e..]);
    }
  }

  /** Once no segment is left, later events change nothing (why `break` is safe). */
  lemma {:induction false} ApplyEventsNothing(evs: seq<Interval>)
    ensures ApplyEvents([], evs) == []
  {
    if evs != [] {
      ApplyEventsNothing(evs[1..]);
    }
  }

  // ---------------------------------------------------------------------------
  // What one event does to one segment

  /**
   * An event that overlaps a segment leaves at most two remnants: the part
   * before the event (when the event starts after the segment) and the part
   * after it (when the event ends before the segment); otherwise the segment stays.
   */
  lemma SplitRemnants(seg: Interval, ev: Interval)
    ensures !EventHits(ev, seg) ==> Split(seg, ev) == [seg]
    ensures EventHits(ev, seg) ==>
              && |Split(seg, ev)| <= 2
              && (Interval(seg.start, ev.start) in Split(seg, ev) <==> ev.start > seg.start)
              && (Interval(ev.end, seg.end) in Split(seg, ev) <==> ev.end < seg.end)
              && forall r :: r in Split(seg, ev) ==>
                   r == Interval(seg.start, ev.start) || r == Interval(ev.end, seg.end)
  {
  }

  /** A minute is left by the split exactly when it was in the segment and not in the event. */
  lemma SplitPoints(seg: Interval, ev: Interval, t: int)
    ensures Covers(Split(seg, ev), t) <==> Contains(seg, t) && !Contains(ev, t)
  {
    if Contains(seg, t) && !Contains(ev, t) {
      if EventHits(ev, seg) {
        if t < ev.start {
          assert Split(seg, ev)[0] == Interval(seg.start, ev.start);
        } else {
          assert Interval(ev.end, seg.end) in Split(seg, ev);
        }
      } else {
        assert Split(seg, ev)[0] == seg;
      }
    }
  }

  /** Some segment of `segs` holds minute `t`. */
  predicate Covers(segs: seq<Interval>, t: int) {
    exists i :: 0 <= i < |segs| && Contains(segs[i], t)
  }

  lemma CoversConcat(a: seq<Interval>, b: seq<Interval>, t: int)
    ensures Covers(a + b, t) <==> Covers(a, t) || Covers(b, t)
  {
    if Covers(a + b, t) {
      var i :| 0 <= i < |a + b| && Contains((a + b)[i], t);
      if i >= |a| {
        assert Contains(b[i - |a|], t);
      }
    }
    if Covers(b, t) {
      var i :| 0 <= i < |b| && Contains(b[i], t);
      assert (a + b)[|a| + i] == b[i];
    }
    if Covers(a, t) {
      var i :| 0 <= i < |a| && Contains(a[i], t);
      assert (a + b)[i] == a[i];
    }
  }

  // ---------------------------------------------------------------------------
  // Exactly the free minutes survive (before the 25-minute filter)

  lemma {:induction false} ApplyEventPoints(segs: seq<Interval>, ev: Interval, t: int)
    ensures Covers(ApplyEvent(segs, ev), t) <==> Covers(segs, t) && !Contains(ev, t)
  {
    if segs != [] {
      var init, last := segs[..|segs| - 1], segs[|segs| - 1];
      assert segs == init + [last];
      ApplyEventPoints(init, ev, t);
      CoversConcat(ApplyEvent(init, ev), Split(last, ev), t);
      CoversConcat(init, [last], t);
      SplitPoints(last, ev, t);
      assert Covers([last], t) <==> Contains(last, t);
    }
  }

  lemma {:induction false} ApplyEventsPoints(segs: seq<Interval>, evs: seq<Interval>, t: int)
    ensures Covers(ApplyEvents(segs, evs), t)
            <==> Covers(segs, t) && forall ev :: ev in evs ==> !Contains(ev, t)
    decreases |evs|
  {
    if evs != [] {
      ApplyEventPoints(segs, evs[0], t);
      ApplyEventsPoints(ApplyEvent(segs, evs[0]), evs[1..], t);
      assert forall ev :: ev in evs <==> ev == evs[0] || ev in evs[1..];
    }
  }

  lemma {:induction false} RemnantsPoints(windows: seq<Interval>, evs: seq<Interval>, t: int)
    ensures Covers(Remnants(windows, evs), t)
            <==> Covers(windows, t) && forall ev :: ev in evs ==> !Contains(ev, t)
  {
    if windows != [] {
      var init, last := windows[..|windows| - 1], windows[|windows| - 1];
      assert windows == init + [last];
      RemnantsPoints(init, evs, t);
      ApplyEventsPoints([last], evs, t);
      CoversConcat(Remnants(init, evs), ApplyEvents([last], evs), t);
      CoversConcat(init, [last], t);
    }
  }

  /**
   * Before the 25-minute filter, the segments hold exactly the minutes that lie
   * in some window and in no valid event; degenerate events cut nothing.
   */
  lemma CutExactlyTheEvents(windows: seq<Interval>, events: seq<FixedEvent>, t: int)
    ensures Covers(Remnants(windows, FixedIntervals(events)), t)
            <==> Covers(windows, t) && forall e :: e in events ==> !Occupies(e, t)
  {
    var fixed := FixedIntervals(events);
    RemnantsPoints(windows, fixed, t);
    if forall e :: e in events ==> !Occupies(e, t) {
      forall ev | ev in fixed ensures !Contains(ev, t) {
        var e :| e in events && IsValidEvent(e) && EventInterval(e) == ev;
        assert !Occupies(e, t);
      }
    } else {
      var e :| e in events && Occupies(e, t);
      assert EventInterval(e) in ValidEvents(events);
    }
  }

  // ---------------------------------------------------------------------------
  // Every free slot is inside a window, clear of every event, and long enough

  /** `!Overlaps(ev, outer)` carries over to every sub-interval of `outer`. */
  lemma ClearOfSub(ev: Interval, inner: Interval, outer: Interval)
    requires Within(inner, outer) && !Overlaps(ev, outer)
    ensures !Overlaps(ev, inner)
  {
  }

  lemma {:induction false} ApplyEventSound(segs: seq<Interval>, ev: Interval, s: Interval)
    requires s in ApplyEvent(segs, ev)
    ensures exists g :: g in segs && Within(s, g)
    ensures ev.end > ev.start ==> !Overlaps(ev, s)
  {
    var init, last := segs[..|segs| - 1], segs[|segs| - 1];
    assert segs == init + [last];
    if s in ApplyEvent(init, ev) {
      ApplyEventSound(init, ev, s);
      var g :| g in init && Within(s, g);
      assert g in segs;
    } else {
      assert s in Split(last, ev);
      assert Within(s, last);
    }
  }

  lemma {:induction false} ApplyEventsSound(segs: seq<Interval>, evs: seq<Interval>, s: Interval)
    requires s in ApplyEvents(segs, evs)
    ensures exists g :: g in segs && Within(s, g)
    ensures forall ev :: ev in evs && ev.end > ev.start ==> !Overlaps(ev, s)
    decreases |evs|
  {
    if evs != [] {
      var mid := ApplyEvent(segs, evs[0]);
      ApplyEventsSound(mid, evs[1..], s);
      var h :| h in mid && Within(s, h);
      ApplyEventSound(segs, evs[0], h);
      var g :| g in segs && Within(h, g);
      assert Within(s, g);
      if evs[0].end > evs[0].start {
        ClearOfSub(evs[0], s, h);
      }
      assert forall ev :: ev in evs <==> ev == evs[0] || ev in evs[1..];
    }
  }

  lemma {:induction false} RemnantsSound(windows: seq<Interval>, evs: seq<Interval>, s: Interval)
    requires s in Remnants(windows, evs)
    ensures exists w :: w in windows && Within(s, w)
    ensures forall ev :: ev in evs && ev.end > ev.start ==> !Overlaps(ev, s)
  {
    var init, last := windows[..|windows| - 1], windows[|windows| - 1];
    assert windows == init + [last];
    if s in Remnants(init, evs) {
      RemnantsSound(init, evs, s);
      var w :| w in init && Within(s, w);
      assert w in windows;
    } else {
      ApplyEventsSound([last], evs, s);
    }
  }

  /**
   * With at least one event, every free slot lies inside one input window,
   * overlaps no valid event and is at least 25 minutes long.
   */
  lemma FreeSlotsSound(windows: seq<Interval>, events: seq<FixedEvent>, s: Interval)
    requires |events| > 0
    requires s in FreeSlots(windows, events)
    ensures exists w :: w in windows && Within(s, w)
    ensures forall e :: e in events && IsValidEvent(e) ==> !Overlaps(EventInterval(e), s)
    ensures Length(s) >= MinFreeMinutes
  {
    var fixed := FixedIntervals(events);
    assert s in Remnants(windows, fixed);
    RemnantsSound(windows, fixed, s);
    forall e | e in events && IsValidEvent(e) ensures !Overlaps(EventInterval(e), s) {
      assert EventInterval(e) in ValidEvents(events);
    }
  }
}
