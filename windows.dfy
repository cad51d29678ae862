/**
 * Availability window builder (`buildAvailabilityWindows`,
 * backend/src/services/planner.js): weekly rules become dated intervals of one week.
 */
module Windows {
  import opened PlannerTime
  import opened Wrappers
  import Sorting

  /** A rule's "HH:MM" after `Number()` on each part: both numbers, or malformed (NaN). */
  datatype ClockTime = Clock(hour: int, minute: int) | Malformed

  /** A weekly rule: `day` is an offset in days from the week anchor. */
  datatype AvailabilityRule = AvailabilityRule(day: int, start: ClockTime, end: ClockTime)

  /** The order `windows.sort((a, b) => a.start - b.start)` uses. */
  predicate StartLe(a: Interval, b: Interval) {
    a.start <= b.start
  }

  lemma StartLeIsTotalPreorder()
    ensures Sorting.TotalPreorder(StartLe)
  {
  }

  function SortByStart(s: seq<Interval>): (r: seq<Interval>)
    ensures multiset(r) == multiset(s)
    ensures Sorting.SortedBy(StartLe, r)
  {
    StartLeIsTotalPreorder();
    Sorting.SortSorted(s, StartLe);
    Sorting.Sort(s, StartLe)
  }

  /** Midnight of the rule's day: the anchor moved by `rule.day` days (`setDate`). */
  function RuleDay(weekStart: int, rule: AvailabilityRule): int {
    Midnight(weekStart + rule.day * MinutesPerDay)
  }

  /**
   * The window one rule yields, if any: a malformed time gives an invalid date,
   * which fails `end > start`, as does an end not after the start.
   */
  function RuleWindow(weekStart: int, rule: AvailabilityRule): (r: Option<Interval>)
    ensures r.Some? <==>
              && rule.start.Clock? && rule.end.Clock?
              && rule.start.hour * 60 + rule.start.minute < rule.end.hour * 60 + rule.end.minute
    ensures r.Some? ==>
              && r.value.start == RuleDay(weekStart, rule) + rule.start.hour * 60 + rule.start.minute
              && r.value.end == RuleDay(weekStart, rule) + rule.end.hour * 60 + rule.end.minute
  {
    var day := weekStart + rule.day * MinutesPerDay;
    match (rule.start, rule.end)
    case (Clock(sh, sm), Clock(eh, em)) =>
      var start := DayWithTime(day, sh, sm);
      var end := DayWithTime(day, eh, em);
      if end > start then Some(Interval(start, end)) else None
    case _ => None
  }

  /** The windows of the rules in rule order, before sorting. */
  function RuleWindows(weekStart: int, rules: seq<AvailabilityRule>): seq<Interval> {
    if rules == [] then []
    else
      var last := rules[|rules| - 1];
      RuleWindows(weekStart, rules[..|rules| - 1])
        + (match RuleWindow(weekStart, last) case Some(w) => [w] case None => [])
  }

  /** What `buildAvailabilityWindows` returns. */
  function AvailabilityWindows(weekStart: int, rules: seq<AvailabilityRule>): seq<Interval> {
    SortByStart(RuleWindows(weekStart, rules))
  }

  /** `buildAvailabilityWindows`: one push per valid rule, then a stable sort by start. */
  method BuildAvailabilityWindows(weekStart: int, rules: seq<AvailabilityRule>)
    returns (windows: seq<Interval>)
    ensures windows == AvailabilityWindows(weekStart, rules)
    ensures Sorting.SortedBy(StartLe, windows)
  {
    windows := [];
    for i := 0 to |rules|
      invariant windows == RuleWindows(weekStart, rules[..i])
    {
      var rule := rules[i];
      assert rules[..i + 1][..i] == rules[..i];
      match (rule.start, rule.end)
      case (Clock(sh, sm), Clock(eh, em)) =>
        var day := weekStart + rule.day * MinutesPerDay;
        var start := DayWithTime(day, sh, sm);
        var end := DayWithTime(day, eh, em);
        if end > start {
          windows := windows + [Interval(start, end)];
        }
      case _ =>
    }
    assert rules[..|rules|] == rules;
    windows := SortByStart(windows);
  }

  /**
   * Exactly one window per valid rule: the rule-order windows are, one to one
   * and in order, the windows of the rules whose end is after their start.
   */
  lemma {:induction false} RuleWindowsExact(weekStart: int, rules: seq<AvailabilityRule>)
    ensures |RuleWindows(weekStart, rules)| == |ValidRuleIndices(weekStart, rules)|
    ensures forall k :: 0 <= k < |RuleWindows(weekStart, rules)| ==>
              && 0 <= ValidRuleIndices(weekStart, rules)[k] < |rules|
              && RuleWindow(weekStart, rules[ValidRuleIndices(weekStart, rules)[k]])
                 == Some(RuleWindows(weekStart, rules)[k])
  {
    if rules != [] {
      var init := rules[..|rules| - 1];
      RuleWindowsExact(weekStart, init);
      forall k | 0 <= k < |ValidRuleIndices(weekStart, init)|
        ensures rules[ValidRuleIndices(weekStart, init)[k]] == init[ValidRuleIndices(weekStart, init)[k]]
      {
      }
    }
  }

  /** Indices of the rules that yield a window, in increasing order. */
  function ValidRuleIndices(weekStart: int, rules: seq<AvailabilityRule>): (r: seq<nat>)
    ensures forall k :: 0 <= k < |r| ==> r[k] < |rules|
    ensures forall k, l :: 0 <= k < l < |r| ==> r[k] < r[l]
    ensures forall i :: 0 <= i < |rules| && RuleWindow(weekStart, rules[i]).Some? ==> i in r
    ensures forall k :: 0 <= k < |r| ==> RuleWindow(weekStart, rules[r[k]]).Some?
  {
    if rules == [] then []
    else
      var n := |rules| - 1;
      var init := ValidRuleIndices(weekStart, rules[..n]);
      assert forall i :: 0 <= i < n ==> rules[..n][i] == rules[i];
      init + (if RuleWindow(weekStart, rules[n]).Some? then [n] else [])
  }

  /**
   * Every built window lies on the day `weekStart + rule.day` of the rule it comes
   * from, and the result is sorted by start.
   */
  lemma WindowsOnRuleDays(weekStart: int, rules: seq<AvailabilityRule>, w: Interval)
    requires w in AvailabilityWindows(weekStart, rules)
    ensures exists i :: 0 <= i < |rules| && RuleWindow(weekStart, rules[i]) == Some(w)
    ensures Sorting.SortedBy(StartLe, AvailabilityWindows(weekStart, rules))
  {
    var ws := RuleWindows(weekStart, rules);
    assert w in multiset(AvailabilityWindows(weekStart, rules));
    assert w in ws;
    var k :| 0 <= k < |ws| && ws[k] == w;
    RuleWindowsExact(weekStart, rules);
  }

  /** A rule with wall-clock times of one day yields a window inside that day. */
  lemma RuleWindowInsideDay(weekStart: int, rule: AvailabilityRule)
    requires rule.start.Clock? && rule.end.Clock?
    requires rule.start.hour * 60 + rule.start.minute < rule.end.hour * 60 + rule.end.minute
    requires 0 <= rule.start.hour < 24 && 0 <= rule.start.minute < 60
    requires 0 <= rule.end.hour < 24 && 0 <= rule.end.minute < 60
    ensures RuleWindow(weekStart, rule).Some?
    ensures RuleDay(weekStart, rule) <= RuleWindow(weekStart, rule).value.start
    ensures RuleWindow(weekStart, rule).value.end < RuleDay(weekStart, rule) + MinutesPerDay
  {
  }
}
