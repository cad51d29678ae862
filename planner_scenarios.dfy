/**
 * The two scenarios of backend/src/services/__tests__/planner.test.js, worked
 * through the model. Dates are read in a zone at UTC, so the anchor
 * `'2025-01-06'` is minute 20094 * 1440 and an ISO date `'2025-01-dd'` is
 * midnight of that day.
 */
module PlannerScenarios {
  import opened PlannerTime
  import opened Wrappers
  import opened Windows
  import opened Subtract
  import opened Sequencer
  import opened Allocator
  import opened Planner
  import Sorting

  /** 2025-01-06T00:00Z in minutes since the epoch. */
  const Anchor: int := 20094 * 1440

  function Day(d: int): int {
    Anchor + d * MinutesPerDay
  }

  // ---------------------------------------------------------------------------
  // First scenario: three tasks, two mornings of 09:00-12:00, no events

  const MathReview: Task := Task(Some("t1"), "Math review", Some(Day(4)), 120, 3)
  const CsProject: Task := Task(Some("t2"), "CS project", Some(Day(2)), 60, 5)
  const HistoryNotes: Task := Task(Some("t3"), "History notes", Some(Day(3)), 90, 4)

  function MorningsParams(): PlanParams {
    PlanParams(
      At(Anchor),
      [MathReview, CsProject, HistoryNotes],
      [AvailabilityRule(0, Clock(9, 0), Clock(12, 0)), AvailabilityRule(1, Clock(9, 0), Clock(12, 0))],
      Some([]),
      None)
  }

  function Mornings(): seq<Interval> {
    [Interval(Anchor + 540, Anchor + 720), Interval(Day(1) + 540, Day(1) + 720)]
  }

  lemma MorningsSlots()
    ensures WeekSlots(Anchor, MorningsParams()) == Mornings()
    ensures SortByStart(Mornings()) == Mornings()
  {
    assert Midnight(Day(0)) == Day(0) && Midnight(Day(1)) == Day(1);
    var rules := MorningsParams().availabilityRules;
    assert rules[..1][..0] == [] && rules[..1] == [rules[0]];
    assert RuleWindows(Anchor, rules) == Mornings();
    assert Sorting.Sort([Mornings()[1]], StartLe) == [Mornings()[1]];
    assert Sorting.Sort(Mornings(), StartLe) == Mornings();
  }

  lemma MorningsOrder()
    ensures SortTasks(MorningsParams().tasks) == [CsProject, HistoryNotes, MathReview]
  {
    var tasks := [MathReview, CsProject, HistoryNotes];
    assert tasks[1..] == [CsProject, HistoryNotes] && tasks[1..][1..] == [HistoryNotes];
    assert TaskLe(CsProject, HistoryNotes) && !TaskLe(MathReview, CsProject) && !TaskLe(MathReview, HistoryNotes);
    assert Sorting.Insert(HistoryNotes, [], TaskLe) == [HistoryNotes];
    assert Sorting.Insert(CsProject, [HistoryNotes], TaskLe) == [CsProject, HistoryNotes];
    assert Sorting.Insert(MathReview, [HistoryNotes], TaskLe) == [HistoryNotes, MathReview];
    assert Sorting.Insert(MathReview, [CsProject, HistoryNotes], TaskLe) == [CsProject, HistoryNotes, MathReview];
    assert Sorting.Sort([HistoryNotes], TaskLe) == [HistoryNotes];
    assert Sorting.Sort([CsProject, HistoryNotes], TaskLe) == [CsProject, HistoryNotes];
  }

  function B(task: Task, start: int, end: int): Block {
    Block(task.id, task.title, Anchor + start, Anchor + end, PlannerSource)
  }

  /** 60 minutes of the CS project: 50, a buffer, then 10 in the same morning. */
  lemma MorningsFirstRun()
    ensures Fill(CsProject, PlannerSource, Mornings(), 0, 60)
            == TaskRun([Interval(Anchor + 620, Anchor + 720), Mornings()[1]],
                       [B(CsProject, 540, 590), B(CsProject, 600, 610)], 0, 0)
  {
    var s1 := [Interval(Anchor + 600, Anchor + 720), Mornings()[1]];
    var s2 := [Interval(Anchor + 620, Anchor + 720), Mornings()[1]];
    assert Mornings()[0 := Interval(Anchor + 600, Anchor + 720)] == s1;
    assert s1[0 := Interval(Anchor + 620, Anchor + 720)] == s2;
    assert Fill(CsProject, PlannerSource, s2, 0, 0) == TaskRun(s2, [], 0, 0);
    assert Fill(CsProject, PlannerSource, s1, 0, 10) == TaskRun(s2, [B(CsProject, 600, 610)], 0, 0);
  }

  /** 90 minutes of history notes: 50, then the last 40 minutes of the first morning. */
  lemma MorningsSecondRun()
    ensures Fill(HistoryNotes, PlannerSource, [Interval(Anchor + 620, Anchor + 720), Mornings()[1]], 0, 90)
            == TaskRun([Interval(Anchor + 680, Anchor + 720), Mornings()[1]],
                       [B(HistoryNotes, 620, 670), B(HistoryNotes, 680, 720)], 0, 1)
  {
    var s := [Interval(Anchor + 620, Anchor + 720), Mornings()[1]];
    var s1 := [Interval(Anchor + 680, Anchor + 720), Mornings()[1]];
    assert s[0 := Interval(Anchor + 680, Anchor + 720)] == s1;
    assert Fill(HistoryNotes, PlannerSource, s1, 1, 0) == TaskRun(s1, [], 0, 1);
    assert Fill(HistoryNotes, PlannerSource, s1, 0, 40) == TaskRun(s1, [B(HistoryNotes, 680, 720)], 0, 1);
  }

  /**
   * 120 minutes of math review: the used-up first morning still reads 40 free
   * minutes, so the task gets the very minutes history notes holds, then 80 on
   * the second morning.
   */
  lemma MorningsThirdRun()
    ensures var r := Fill(MathReview, PlannerSource, [Interval(Anchor + 680, Anchor + 720), Mornings()[1]], 0, 120);
            && r.blocks == [B(MathReview, 680, 720), B(MathReview, 1980, 2030), B(MathReview, 2040, 2070)]
            && r.remaining == 0
  {
    var s := [Interval(Anchor + 680, Anchor + 720), Mornings()[1]];
    var s1 := [Interval(Anchor + 680, Anchor + 720), Interval(Anchor + 2040, Anchor + 2160)];
    var s2 := [Interval(Anchor + 680, Anchor + 720), Interval(Anchor + 2080, Anchor + 2160)];
    assert s[1 := Interval(Anchor + 2040, Anchor + 2160)] == s1;
    assert s1[1 := Interval(Anchor + 2080, Anchor + 2160)] == s2;
    assert Fill(MathReview, PlannerSource, s2, 1, 0) == TaskRun(s2, [], 0, 1);
    assert Fill(MathReview, PlannerSource, s1, 1, 30) == TaskRun(s2, [B(MathReview, 2040, 2070)], 0, 1);
    assert Fill(MathReview, PlannerSource, s, 1, 80)
           == TaskRun(s2, [B(MathReview, 1980, 2030), B(MathReview, 2040, 2070)], 0, 1);
  }

  function MorningsBlocks(): seq<Block> {
    [ B(CsProject, 540, 590), B(CsProject, 600, 610),
      B(HistoryNotes, 620, 670), B(HistoryNotes, 680, 720),
      B(MathReview, 680, 720), B(MathReview, 1980, 2030), B(MathReview, 2040, 2070) ]
  }

  /** The task loop over the sorted tasks: seven blocks, nothing short. */
  lemma MorningsRuns()
    ensures var runs := Runs([CsProject, HistoryNotes, MathReview], Mornings(), PlannerSource);
            && Flatten(runs) == MorningsBlocks()
            && Shortfalls([CsProject, HistoryNotes, MathReview], runs) == []
            && Missing(runs) == 0
  {
    MorningsFirstRun();
    MorningsSecondRun();
    MorningsThirdRun();
    var ordered := [CsProject, HistoryNotes, MathReview];
    var r1 := Fill(CsProject, PlannerSource, Mornings(), 0, 60);
    var r2 := Fill(HistoryNotes, PlannerSource, r1.slots, 0, 90);
    var r3 := Fill(MathReview, PlannerSource, r2.slots, 0, 120);
    assert [MathReview][1..] == [];
    assert Runs([MathReview], r2.slots, PlannerSource) == [r3];
    assert [HistoryNotes, MathReview][1..] == [MathReview];
    assert Runs([HistoryNotes, MathReview], r1.slots, PlannerSource) == [r2, r3];
    assert ordered[1..] == [HistoryNotes, MathReview];
    assert Runs(ordered, Mornings(), PlannerSource) == [r1, r2, r3];
    var runs := [r1, r2, r3];
    assert runs[1..] == [r2, r3] && runs[1..][1..] == [r3] && [r3][1..] == [];
    assert Flatten([r3]) == r3.blocks;
    assert Flatten([r2, r3]) == r2.blocks + r3.blocks;
    assert Shortfalls([MathReview], [r3]) == [];
    assert Shortfalls([HistoryNotes, MathReview], [r2, r3]) == [];
    assert Missing([r3]) == 0 && Missing([r2, r3]) == 0;
  }

  /**
   * The first test: there are blocks, the first goes to `t2`, and minutes are
   * scheduled. The second block also goes to `t2` (60 minutes are cut 50 + 10),
   * not to `t3` as the test's third expectation reads; and the fourth and fifth
   * blocks, of `t3` and `t1`, cover the same 40 minutes.
   */
  lemma MorningsPlan()
    ensures var r := PlanWith(MorningsParams(), MorningsParams().tasks, PlannerSource);
            && r.Ok?
            && |r.value.blocks| == 7
            && r.value.blocks[0].taskId == Some("t2")
            && r.value.blocks[1].taskId == Some("t2")
            && r.value.blocks[2].taskId == Some("t3")
            && r.value.summary.totalMinutes == 270
            && r.value.unscheduledTasks == []
            && r.value.blocks[3].taskId == Some("t3") && r.value.blocks[4].taskId == Some("t1")
            && Overlaps(Span(r.value.blocks[3]), Span(r.value.blocks[4]))
  {
    MorningsPipeline();
    MorningsBlocksFacts();
  }

  lemma MorningsPipeline()
    ensures PlanWith(MorningsParams(), MorningsParams().tasks, PlannerSource)
            == Ok(Plan(MorningsBlocks(), [], Summary(7, 270)))
  {
    assert ParseWeekStart(At(Anchor)) == Ok(Anchor);
    MorningsSlots();
    MorningsAllocation();
  }

  lemma MorningsBlocksFacts()
    ensures var blocks := MorningsBlocks();
            && |blocks| == 7
            && blocks[0].taskId == Some("t2") && blocks[1].taskId == Some("t2") && blocks[2].taskId == Some("t3")
            && blocks[3].taskId == Some("t3") && blocks[4].taskId == Some("t1")
            && Overlaps(Span(blocks[3]), Span(blocks[4]))
  {
  }

  /** `allocateBlocks` over the two mornings. */
  lemma MorningsAllocation()
    ensures AllocatePlan(MorningsParams().tasks, Mornings(), PlannerSource)
            == Plan(MorningsBlocks(), [], Summary(7, 270))
  {
    var ordered := [CsProject, HistoryNotes, MathReview];
    var runs := Runs(ordered, Mornings(), PlannerSource);
    MorningsSlots();
    MorningsOrder();
    MorningsRuns();
    MorningsMinutes();
    assert PlanRuns(MorningsParams().tasks, Mornings(), PlannerSource) == runs;
  }

  lemma MorningsMinutes()
    ensures BlockMinutes(MorningsBlocks()) == 270
  {
    var ordered := [CsProject, HistoryNotes, MathReview];
    MorningsRuns();
    RunsAccount(ordered, Mornings(), PlannerSource);
    assert ordered[1..] == [HistoryNotes, MathReview] && ordered[1..][1..] == [MathReview];
    assert Requested([MathReview]) == 120;
    assert Requested(ordered) == 270;
  }

  // ---------------------------------------------------------------------------
  // Second scenario: one long task, one morning of 09:00-11:00 cut by an event

  const LongTask: Task := Task(Some("t1"), "Long task", Some(Day(1)), 360, 5)

  function ShortMorningParams(): PlanParams {
    PlanParams(
      At(Anchor),
      [LongTask],
      [AvailabilityRule(0, Clock(9, 0), Clock(11, 0))],
      Some([FixedEvent(At(Anchor + 570), At(Anchor + 630))]),
      None)
  }

  function HalfHours(): seq<Interval> {
    [Interval(Anchor + 540, Anchor + 570), Interval(Anchor + 630, Anchor + 660)]
  }

  lemma ShortMorningWindows()
    ensures AvailabilityWindows(Anchor, ShortMorningParams().availabilityRules) == [Interval(Anchor + 540, Anchor + 660)]
  {
    assert Midnight(Anchor) == Anchor;
    var rules := ShortMorningParams().availabilityRules;
    assert rules[..0] == [];
    assert RuleWindows(Anchor, rules) == [Interval(Anchor + 540, Anchor + 660)];
  }

  lemma ShortMorningEvents()
    ensures FixedIntervals(OrEmpty(ShortMorningParams().fixedEvents)) == [Interval(Anchor + 570, Anchor + 630)]
  {
    var events := OrEmpty(ShortMorningParams().fixedEvents);
    assert events[1..] == [];
    assert ValidEvents(events) == [Interval(Anchor + 570, Anchor + 630)];
  }

  /** The 09:30-10:30 event leaves two half hours, both kept (30 >= 25). */
  lemma ShortMorningSlots()
    ensures WeekSlots(Anchor, ShortMorningParams()) == HalfHours()
  {
    var window := Interval(Anchor + 540, Anchor + 660);
    var event := Interval(Anchor + 570, Anchor + 630);
    ShortMorningWindows();
    ShortMorningEvents();
    assert Split(window, event) == HalfHours();
    assert ApplyEvent([window], event) == Split(window, event);
    assert Remnants([window], [event]) == ApplyEvents([window], [event]);
    assert HalfHours()[1..][1..] == [];
    assert KeepLong(HalfHours()) == HalfHours();
  }

  /** The 360-minute task over the two half hours: both are used, 300 minutes are missing. */
  lemma ShortMorningRun()
    ensures var run := Fill(LongTask, PlannerSource, HalfHours(), 0, 360);
            && run.blocks == [B(LongTask, 540, 570), B(LongTask, 630, 660)]
            && run.remaining == 300
  {
    var slots := HalfHours();
    assert Fill(LongTask, PlannerSource, slots, 2, 300) == TaskRun(slots, [], 300, 2);
    assert Fill(LongTask, PlannerSource, slots, 1, 330) == TaskRun(slots, [B(LongTask, 630, 660)], 300, 2);
  }

  lemma ShortMorningPipeline()
    ensures PlanWith(ShortMorningParams(), ShortMorningParams().tasks, PlannerSource)
            == Ok(Plan([B(LongTask, 540, 570), B(LongTask, 630, 660)], ["Long task"], Summary(2, 60)))
  {
    assert ParseWeekStart(At(Anchor)) == Ok(Anchor);
    ShortMorningSlots();
    ShortMorningAllocation();
  }

  /** `allocateBlocks` over the two half hours. */
  lemma ShortMorningAllocation()
    ensures AllocatePlan([LongTask], HalfHours(), PlannerSource)
            == Plan([B(LongTask, 540, 570), B(LongTask, 630, 660)], ["Long task"], Summary(2, 60))
  {
    var slots := HalfHours();
    assert Sorting.Sort(slots[1..], StartLe) == slots[1..];
    assert SortByStart(slots) == slots;
    assert Sorting.Sort([LongTask], TaskLe) == [LongTask];
    ShortMorningRun();
    var run := Fill(LongTask, PlannerSource, slots, 0, 360);
    assert Runs([LongTask], slots, PlannerSource) == [run];
    assert SortTasks([LongTask]) == [LongTask];
    assert PlanRuns([LongTask], slots, PlannerSource) == [run];
    assert [run][1..] == [] && [LongTask][1..] == [];
    assert Flatten([run]) == run.blocks;
    assert Shortfalls([LongTask], [run]) == ["Long task"];
    ShortMorningMinutes();
  }

  lemma ShortMorningMinutes()
    ensures BlockMinutes([B(LongTask, 540, 570), B(LongTask, 630, 660)]) == 60
  {
    var blocks := [B(LongTask, 540, 570), B(LongTask, 630, 660)];
    assert blocks[1..] == [B(LongTask, 630, 660)] && blocks[1..][1..] == [];
    assert BlockMinutes(blocks[1..]) == 30;
  }

  /**
   * The second test: the task gets blocks (both half hours) and is still
   * reported unscheduled, 300 minutes short.
   */
  lemma ShortMorningPlan()
    ensures var r := PlanWith(ShortMorningParams(), ShortMorningParams().tasks, PlannerSource);
            && r.Ok?
            && |r.value.blocks| == 2
            && r.value.unscheduledTasks == ["Long task"]
  {
    ShortMorningPipeline();
  }
}
