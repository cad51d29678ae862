/**
 * The two entry points of the weekly planner (`generatePlan` and
 * `reoptimizePlan`, backend/src/services/planner.js): anchor the week, build the
 * availability windows, cut out the fixed events, allocate the tasks.
 */
module Planner {
  import opened PlannerTime
  import opened Wrappers
  import opened Windows
  import opened Subtract
  import opened Sequencer
  import opened Allocator

  /**
   * The parameters both entry points take. `fixedEvents` and `missedTaskIds`
   * may be absent (`?? []`).
   */
  datatype PlanParams = PlanParams(
    weekStart: DateValue,
    tasks: seq<Task>,
    availabilityRules: seq<AvailabilityRule>,
    fixedEvents: Option<seq<FixedEvent>>,
    missedTaskIds: Option<seq<string>>)

  function OrEmpty<T>(xs: Option<seq<T>>): seq<T> {
    match xs
    case None => []
    case Some(s) => s
  }

  /** The free time of the week: the windows of the rules, less the fixed events. */
  function WeekSlots(weekStart: int, params: PlanParams): seq<Interval> {
    FreeSlots(AvailabilityWindows(weekStart, params.availabilityRules), OrEmpty(params.fixedEvents))
  }

  /**
   * The pipeline shared by both entry points, over the given tasks: an invalid
   * anchor is the only failure.
   */
  function PlanWith(params: PlanParams, tasks: seq<Task>, source: Source): (r: Result<Plan>)
    ensures r.Err? <==> params.weekStart.InvalidDate?
    ensures r.Err? ==> r.error == InvalidWeekStart
  {
    match ParseWeekStart(params.weekStart)
    case Err(e) => Err(e)
    case Ok(weekStart) => Ok(AllocatePlan(tasks, WeekSlots(weekStart, params), source))
  }

  /** `generatePlan`. */
  method GeneratePlan(params: PlanParams) returns (r: Result<Plan>)
    ensures r == PlanWith(params, params.tasks, PlannerSource)
  {
    r := RunPipeline(params, params.tasks, PlannerSource);
  }

  /** Whether a task's id (or `''` for a task without one) is among the missed ids. */
  predicate IsMissed(task: Task, missed: seq<string>) {
    match task.id
    case Some(id) => id in missed
    case None => "" in missed
  }

  /** The priority boost of `reoptimizePlan`: one more for a missed task, no clamping. */
  function Boost(tasks: seq<Task>, missed: seq<string>): (r: seq<Task>)
    ensures |r| == |tasks|
  {
    if tasks == [] then []
    else
      var t := tasks[0];
      [if IsMissed(t, missed) then t.(priority := t.priority + 1) else t] + Boost(tasks[1..], missed)
  }

  /**
   * The boost changes nothing but priorities: a missed task gains exactly one
   * point, every other task is kept as it was.
   */
  lemma {:induction false} BoostExact(tasks: seq<Task>, missed: seq<string>)
    ensures forall i :: 0 <= i < |tasks| ==>
              && Boost(tasks, missed)[i].(priority := tasks[i].priority) == tasks[i]
              && Boost(tasks, missed)[i].priority
                 == (if IsMissed(tasks[i], missed) then tasks[i].priority + 1 else tasks[i].priority)
    decreases |tasks|
  {
    if tasks != [] {
      BoostExact(tasks[1..], missed);
      forall i | 0 < i < |tasks| ensures Boost(tasks, missed)[i] == Boost(tasks[1..], missed)[i - 1] {
      }
    }
  }

  /**
   * The boost never moves a missed task behind an unmissed one it was not
   * already behind, and it puts a missed task strictly first among unmissed
   * tasks of the same priority.
   */
  lemma BoostPromotes(a: Task, b: Task, missed: seq<string>)
    requires IsMissed(a, missed) && !IsMissed(b, missed)
    ensures TaskLe(a, b) ==> TaskLe(a.(priority := a.priority + 1), b)
    ensures a.priority == b.priority ==> !TaskLe(b, a.(priority := a.priority + 1))
  {
  }

  /** `reoptimizePlan`: the same pipeline over the boosted tasks, tagged `'reoptimize'`. */
  method ReoptimizePlan(params: PlanParams) returns (r: Result<Plan>)
    ensures r == PlanWith(params, Boost(params.tasks, OrEmpty(params.missedTaskIds)), ReoptimizeSource)
  {
    r := RunPipeline(params, Boost(params.tasks, OrEmpty(params.missedTaskIds)), ReoptimizeSource);
  }

  /** Parse the anchor, then run the three stages. */
  method RunPipeline(params: PlanParams, tasks: seq<Task>, source: Source) returns (r: Result<Plan>)
    ensures r == PlanWith(params, tasks, source)
  {
    var parsed := ParseWeekStart(params.weekStart);
    if parsed.Err? {
      return Err(parsed.error);
    }
    var availability := BuildAvailabilityWindows(parsed.value, params.availabilityRules);
    var windows := SubtractFixedEvents(availability, OrEmpty(params.fixedEvents));
    var plan := AllocateBlocks(tasks, windows, source);
    r := Ok(plan);
  }

  /** Every free slot lies in a window of some rule and overlaps no valid fixed event. */
  lemma WeekSlotsSound(weekStart: int, params: PlanParams, s: Interval)
    requires s in WeekSlots(weekStart, params)
    ensures exists i :: 0 <= i < |params.availabilityRules|
                        && RuleWindow(weekStart, params.availabilityRules[i]).Some?
                        && Within(s, RuleWindow(weekStart, params.availabilityRules[i]).value)
    ensures forall e :: e in OrEmpty(params.fixedEvents) && IsValidEvent(e) ==> !Overlaps(EventInterval(e), s)
  {
    var windows := AvailabilityWindows(weekStart, params.availabilityRules);
    var events := OrEmpty(params.fixedEvents);
    var w: Interval;
    if |events| == 0 {
      w := s;
    } else {
      FreeSlotsSound(windows, events, s);
      w :| w in windows && Within(s, w);
    }
    WindowsOnRuleDays(weekStart, params.availabilityRules, w);
  }

  /**
   * End to end: with a valid anchor, every block of the `g`-th task (in
   * `sortTasks` order) carries that task and the source, lies inside the window
   * of one availability rule, and overlaps no valid fixed event.
   */
  lemma PlanBlocksPlaced(params: PlanParams, tasks: seq<Task>, source: Source, g: nat)
    requires params.weekStart.At? && g < |tasks|
    ensures var weekStart := Midnight(params.weekStart.minute);
            var task := SortTasks(tasks)[g];
            forall b :: b in PlanRuns(tasks, WeekSlots(weekStart, params), source)[g].blocks ==>
              && b.taskId == task.id && b.title == task.title && b.source == source
              && (exists i :: 0 <= i < |params.availabilityRules|
                              && RuleWindow(weekStart, params.availabilityRules[i]).Some?
                              && Within(Span(b), RuleWindow(weekStart, params.availabilityRules[i]).value))
              && (forall e :: e in OrEmpty(params.fixedEvents) && IsValidEvent(e) ==> !Overlaps(EventInterval(e), Span(b)))
  {
    var weekStart := Midnight(params.weekStart.minute);
    var slots := WeekSlots(weekStart, params);
    PlanRunBlocks(tasks, slots, source, g);
    PlanRunInWindows(tasks, slots, source, g);
    forall b | b in PlanRuns(tasks, slots, source)[g].blocks
      ensures (exists i :: 0 <= i < |params.availabilityRules|
                           && RuleWindow(weekStart, params.availabilityRules[i]).Some?
                           && Within(Span(b), RuleWindow(weekStart, params.availabilityRules[i]).value))
      ensures forall e :: e in OrEmpty(params.fixedEvents) && IsValidEvent(e) ==> !Overlaps(EventInterval(e), Span(b))
    {
      var s :| s in slots && Within(Span(b), s);
      WeekSlotsSound(weekStart, params, s);
      forall e | e in OrEmpty(params.fixedEvents) && IsValidEvent(e) ensures !Overlaps(EventInterval(e), Span(b)) {
        ClearOfSub(EventInterval(e), Span(b), s);
      }
    }
  }
}
