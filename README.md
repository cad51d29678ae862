# EduPilot weekly planner, Strict Mode timer store and deadline formatter, in Dafny

This project models three parts of EduPilot, a study-planning application.

**The weekly planner** (`backend/src/services/planner.js`) works in four stages:
- It anchors a week at local midnight (`parseWeekStart`).
- It turns weekly availability rules into dated windows sorted by start (`buildAvailabilityWindows`).
- It cuts fixed events out of those windows and drops fragments under 25 minutes (`subtractFixedEvents`).
- It orders tasks by priority, then deadline, then title (`sortTasks`). Then it greedily cuts blocks of at most 50 minutes, each followed by a 10-minute buffer, out of a shared mutable list of slots (`allocateBlocks`).

`generatePlan` runs the pipeline. `reoptimizePlan` first raises the priority of missed tasks by one.

**The Strict Mode store** (`frontend/src/store/strictStore.js`) holds:
- whether a session runs,
- whether it is a focus or a break session,
- when it ends,
- the two preferred durations, clamped to 5..240 minutes.

**The deadline formatter** (`frontend/src/utils/time.js`) turns a deadline into "No deadline", "Past due" or "Due in N unit(s)". The unit is the largest one the remaining time reaches, and the count is rounded up.

Modelling choices:
- Planner instants are whole minutes, in a local zone with a fixed offset.
- `new Date(x)` is either an instant or the invalid date (`PlannerTime.DateValue`). An invalid date compares false with everything, so an event or rule built from one drops out, as in the code.
- `Array.prototype.sort`, which is stable, is one generic insertion sort (`Sorting.Sort`).
- `localeCompare` is lexicographic order on character codes.
- `Date.now()` is a parameter `now`.

The source files take three forms, and the model follows each:
- **Loops become methods; the allocator's slot list is an array updated in place.** The planner's loops are methods:
  - `Windows.BuildAvailabilityWindows`
  - `Subtract.SubtractFixedEvents` and `Subtract.CutWindow`
  - `Allocator.AllocateBlocks`, `Allocator.PlaceTasks` and `Allocator.PlaceTask`. These three work on an `array` of slots that the inner loop updates in place.
- **Each method is proved equal to a function.** These functions are `AvailabilityWindows`, `FreeSlots`, `Fill`, `Runs`, `AllocateFrom` and `AllocatePlan`, and the lemmas state their properties.
- **The store is a class.** Its fields are the ones the store's actions overwrite.
- **The formatter is pure functions.**

Where the code and its test disagree, the model follows the code:
- **Blocks of different tasks can overlap.** When a slot is used up, `allocateBlocks` only advances `slotIndex` and leaves the slot as it was, and every task restarts at slot 0. So a later task can receive minutes an earlier task already holds. `Allocator.ExhaustedSlotReused` exhibits this. The non-overlap that does hold is proved within one task (`Allocator.PlanRunInOrder`), together with the 10-minute buffer between two blocks of one task in the same window (`Allocator.PlanRunBuffered`).
- **The constant `MIN_BLOCK_MINUTES` is a maximum, not a minimum.** Blocks are at most 50 minutes long and can be as short as 1 minute.
- **The first test's expectation about `blocks[1]` is wrong under the code.** That expectation is at `backend/src/services/__tests__/planner.test.js:22`. Under the code, `t2`'s 60 minutes are cut 50 + 10, so `blocks[1]` also belongs to `t2`, not to `t3` (`PlannerScenarios.MorningsPlan`).

## Model

| member | source | states |
|---|---|---|
| PlannerTime.AddMinutes | backend/src/services/planner.js:4-6 | the result lies exactly `minutes` after `t` |
| PlannerTime.DiffMinutes | backend/src/services/planner.js:8-10 | never negative; zero when the end is not after the start; otherwise adding it to the start gives the end |
| PlannerTime.AddDiffRoundTrip | backend/src/services/planner.js:4-10 | measuring from `t` to `t` plus a non-negative number of minutes gives that number back |
| PlannerTime.Midnight | backend/src/services/planner.js:17 | a whole number of days, at or before `t` and less than a day before it |
| PlannerTime.MidnightUnique | backend/src/services/planner.js:17 | the midnight of `t` is the only whole day in (t - 1 day, t] |
| PlannerTime.ParseWeekStart | backend/src/services/planner.js:12-19 | fails, with the invalid-weekStart error, exactly on an invalid date; otherwise gives the midnight of the day holding the instant |
| PlannerTime.DayWithTime | backend/src/services/planner.js:21-25 | the result is `hours * 60 + minutes` after the midnight of the base day (out-of-range values roll over) |
| PlannerTime.DayWithTimeSameDay | backend/src/services/planner.js:21-25 | a wall-clock time within 00:00-23:59 stays on the base day |
| Windows.StartLeIsTotalPreorder | backend/src/services/planner.js:43 | the start-time comparator is total and transitive |
| Windows.SortByStart | backend/src/services/planner.js:43 | the sorted windows are a permutation of the input, in non-decreasing start order |
| Windows.RuleWindow | backend/src/services/planner.js:31-40 | a rule yields a window exactly when both times parse and the end is after the start; the window runs from the start time to the end time on the day `rule.day` days after the anchor |
| Windows.ValidRuleIndices | backend/src/services/planner.js:30-41 | exactly the indices of the rules that yield a window, in increasing order |
| Windows.RuleWindowsExact | backend/src/services/planner.js:30-41 | before sorting, the windows are, one to one and in rule order, the windows of the rules that yield one |
| Windows.BuildAvailabilityWindows | backend/src/services/planner.js:27-44 | the loop pushes one window per valid rule and returns them sorted by start; equals `AvailabilityWindows` |
| Windows.WindowsOnRuleDays | backend/src/services/planner.js:27-44 | every built window is the window of some rule, and the result is sorted by start |
| Windows.RuleWindowInsideDay | backend/src/services/planner.js:33-37 | a rule whose two times are wall-clock times of one day, end after start, yields a window, and that window lies inside the rule's day |
| Subtract.ValidEvents | backend/src/services/planner.js:48-53 | an interval is kept exactly when it is the interval of an event with valid dates and end after start |
| Subtract.FixedIntervals | backend/src/services/planner.js:48-54 | after the sort, the same intervals as the filtered events |
| Subtract.KeepLong | backend/src/services/planner.js:89 | a segment is kept exactly when it was there and lasts at least 25 minutes |
| Subtract.SubtractFixedEvents | backend/src/services/planner.js:46-90 | the nested loops compute `FreeSlots`; with no events the windows come back unchanged and unfiltered |
| Subtract.CutWindow | backend/src/services/planner.js:59-84 | the segment loop for one window applies every event in order, with the early `break` included |
| Subtract.ApplyEventsNothing | backend/src/services/planner.js:83 | once no segment is left, later events change nothing, so the `break` is safe |
| Subtract.SplitRemnants | backend/src/services/planner.js:64-79 | a non-overlapping event keeps the segment; an overlapping one leaves at most two remnants, the part before it exactly when it starts after the segment, the part after it exactly when it ends before the segment |
| Subtract.SplitPoints | backend/src/services/planner.js:64-79 | a minute survives one split exactly when it was in the segment and not in the event |
| Subtract.ApplyEventPoints | backend/src/services/planner.js:61-84 | one event pass keeps exactly the minutes of the segments outside that event |
| Subtract.ApplyEventsPoints | backend/src/services/planner.js:61-84 | all events applied keep exactly the minutes of the segments outside every event |
| Subtract.RemnantsPoints | backend/src/services/planner.js:58-87 | the segments of all windows hold exactly the window minutes outside every event |
| Subtract.CutExactlyTheEvents | backend/src/services/planner.js:46-87 | before the 25-minute filter, the segments hold exactly the minutes that lie in some window and in no valid event; degenerate or invalid events cut nothing |
| Subtract.ApplyEventSound | backend/src/services/planner.js:61-84 | every segment left by one event pass lies inside an earlier segment and, for a proper event, clear of it |
| Subtract.ApplyEventsSound | backend/src/services/planner.js:61-84 | every segment left by all events lies inside the window and clear of every proper event |
| Subtract.RemnantsSound | backend/src/services/planner.js:58-87 | every pushed segment lies inside one window and clear of every proper event |
| Subtract.FreeSlotsSound | backend/src/services/planner.js:46-90 | with events, every free slot lies inside one input window, overlaps no valid event and lasts at least 25 minutes |
| Sorting.Insert | backend/src/services/planner.js:93 | inserting adds exactly that element |
| Sorting.Sort | backend/src/services/planner.js:107 | the sort returns a permutation of its input |
| Sorting.InsertSorted | backend/src/services/planner.js:93 | inserting into a sorted sequence under a total preorder keeps it sorted |
| Sorting.SortSorted | backend/src/services/planner.js:107 | under a total preorder, the result is sorted |
| Sorting.SortMembers | backend/src/services/planner.js:54 | sorting keeps exactly the same members |
| Sequencer.Compare | backend/src/services/planner.js:93-99 | negative when `a` has higher priority, positive when lower; at equal priority negative when `a` has the earlier deadline (one before none) and positive when `b` has; 0 exactly when priority, deadline and title are all equal |
| Sequencer.TitleCompare | backend/src/services/planner.js:98 | the title comparison is -1, 0 or 1, and 0 exactly for equal titles |
| Sequencer.TitleCompareIsLex | backend/src/services/planner.js:98 | the comparison is at most 0 exactly when the first title is lexicographically no later (an independent definition by first difference) |
| Sequencer.TitleCompareFlip | backend/src/services/planner.js:98 | swapping the titles negates the comparison |
| Sequencer.TitleCompareTrans | backend/src/services/planner.js:98 | the title order is transitive |
| Sequencer.TaskLeIsScheduleOrder | backend/src/services/planner.js:93-99 | the comparator puts `a` no later than `b` exactly when `a` has higher priority, or equal priority and an earlier deadline (none counts as last), or equal both and a title no later |
| Sequencer.TaskLeIsTotalPreorder | backend/src/services/planner.js:93-99 | the task comparator is total and transitive, so the sort is well defined |
| Sequencer.SortTasks | backend/src/services/planner.js:92-100 | a sorted permutation of the tasks; the caller's list is not changed |
| Sequencer.SortTasksOrder | backend/src/services/planner.js:92-100 | every earlier task of the sorted list comes before every later one in the documented order |
| Allocator.Min3 | backend/src/services/planner.js:123 | the allocation is at most each of the three bounds and equal to one of them |
| Allocator.Fill | backend/src/services/planner.js:115-142 | the inner loop never adds or removes slots |
| Allocator.Runs | backend/src/services/planner.js:111-147 | one run per task |
| Allocator.PlanRuns | backend/src/services/planner.js:107-111 | one run per input task, over the sorted tasks and the slots sorted by start |
| Allocator.AllocateBlocks | backend/src/services/planner.js:102-162 | the method (sorted array copy of the windows, task loop, summary) returns `AllocatePlan` |
| Allocator.PlaceTasks | backend/src/services/planner.js:111-147 | the task loop over the shared slot array gives the blocks and unscheduled titles of `AllocateFrom` on the initial slots |
| Allocator.PlaceTask | backend/src/services/planner.js:112-142 | the while loop for one task gives the blocks, remaining minutes and slot array of `Fill` from cursor 0 |
| Allocator.FillSlots | backend/src/services/planner.js:136-141 | a run keeps every slot's end and only moves its start forward |
| Allocator.FillBlocks | backend/src/services/planner.js:123-133 | every block carries the task's id and title and the source, and lasts 1 to 50 minutes |
| Allocator.FillWithin | backend/src/services/planner.js:115-141 | every block lies inside a slot at or after the cursor the run started from |
| Allocator.FillMinutes | backend/src/services/planner.js:112-142 | a non-positive request places nothing; otherwise 0 <= minutes left <= requested and the blocks add up to the requested minutes less those left |
| Allocator.FillExhausts | backend/src/services/planner.js:115 | minutes are left over only once the cursor has passed every slot |
| Allocator.FillOrdered | backend/src/services/planner.js:115-142 | over slots that follow each other, one task's blocks follow each other without overlapping |
| Allocator.OneSlot | backend/src/services/planner.js:115-142 | a block of positive length lies in at most one of a list of slots that follow each other |
| Allocator.FillBuffered | backend/src/services/planner.js:129-141 | over slots that follow each other, a later block of one task cut from the same slot as an earlier one starts at least 10 minutes after the earlier one ends |
| Allocator.FillBufferedMoved | backend/src/services/planner.js:129-138 | the buffer property when a block is cut and the slot keeps its rest from `blockEnd + 10` |
| Allocator.FillBufferedNext | backend/src/services/planner.js:129-141 | the buffer property when a block uses up the rest of its slot and the cursor moves on |
| Allocator.NarrowedSlot | backend/src/services/planner.js:136-138 | a block inside a slot after it was narrowed from the front lies in that same slot of the original list |
| Allocator.BufferedCons | backend/src/services/planner.js:127-133 | prepending a block buffered from every later block in its slot keeps a buffered list buffered |
| Allocator.BufferedNarrowed | backend/src/services/planner.js:136-138 | blocks buffered over the narrowed slot list are buffered over the original one |
| Allocator.HeadBufferedMoved | backend/src/services/planner.js:133-138 | a block cut from the front of a slot ends at least 10 minutes before any later block placed in that slot's rest |
| Allocator.HeadBufferedNext | backend/src/services/planner.js:139-141 | a block cut from a used-up slot shares no slot with blocks placed in later slots |
| Allocator.NarrowSeparated | backend/src/services/planner.js:136-138 | narrowing a slot from the front keeps the slots following each other |
| Allocator.FillPlaced | backend/src/services/planner.js:115-142 | every block of a run has positive length and lies in one of the slots from the cursor on |
| Allocator.RunsAreFills | backend/src/services/planner.js:111-113 | the i-th run is the inner loop for the i-th task, from cursor 0, over the slots the earlier tasks left |
| Allocator.SlotsBeforeShrink | backend/src/services/planner.js:138 | earlier tasks only shorten slots from the front |
| Allocator.Owner | backend/src/services/planner.js:127-133 | every emitted block belongs to some run |
| Allocator.OwnerMonotone | backend/src/services/planner.js:111-133 | a later block never belongs to an earlier run |
| Allocator.RunsAccount | backend/src/services/planner.js:144-152 | placed minutes plus missing minutes equal the requested minutes, and no title is flagged exactly when nothing is missing |
| Allocator.ShortfallsExact | backend/src/services/planner.js:144-146 | a title is flagged exactly when some task of that title got fewer minutes than it asked for |
| Allocator.ShortIndices | backend/src/services/planner.js:144-146 | the positions, strictly increasing, of exactly the tasks whose blocks fall short of their request |
| Allocator.RunsShort | backend/src/services/planner.js:115-146 | a run ends with minutes left exactly when its blocks add up to less than its task asked for |
| Allocator.ShortfallsIndexed | backend/src/services/planner.js:144-146 | the flagged titles are, one for one and in order, the titles at the short positions |
| Allocator.ShortfallsListed | backend/src/services/planner.js:113-146 | the task loop's flagged titles are exactly the titles of the short tasks, in task order, repeated titles included |
| Allocator.RequestedPerm | backend/src/services/planner.js:111 | the requested total does not depend on the order of the tasks |
| Allocator.PlanTotals | backend/src/services/planner.js:149-161 | `totalBlocks` counts the blocks; `totalMinutes` never exceeds the minutes requested and equals them exactly when `unscheduledTasks` is empty |
| Allocator.PlanUnscheduled | backend/src/services/planner.js:144-146 | a title is in `unscheduledTasks` exactly when a task of that title was given fewer minutes than it asked for; the list holds one title per such task, in `sortTasks` order, repeated titles included |
| Allocator.PlanRunBlocks | backend/src/services/planner.js:123-133 | the blocks of each task carry it and the source, last 1 to 50 minutes and add up to no more than it asked for |
| Allocator.PlanRunInWindows | backend/src/services/planner.js:107-141 | every block lies inside one of the windows given |
| Allocator.PlanRunInOrder | backend/src/services/planner.js:115-142 | over windows that follow each other, one task's blocks follow each other without overlapping |
| Allocator.BufferedShrunk | backend/src/services/planner.js:136-138 | blocks buffered over slots shortened from the front are buffered over the original slots |
| Allocator.RunBuffered | backend/src/services/planner.js:113-142 | over slots that follow each other, every task's run keeps the 10-minute buffer within each slot |
| Allocator.PlanRunBuffered | backend/src/services/planner.js:136-138 | over windows that follow each other, two blocks of one task in the same window are at least 10 minutes apart |
| Allocator.PlanGrouped | backend/src/services/planner.js:111-133 | the blocks come grouped by task in `sortTasks` order, each with its task's id |
| Allocator.ExhaustedSlotReused | backend/src/services/planner.js:136-141 | a used-up slot is not cleared and the cursor restarts at 0: with one 55-minute slot, a 50-minute task and then a 30-minute task receive overlapping blocks |
| Planner.PlanWith | backend/src/services/planner.js:164-170 | the pipeline fails, with the invalid-weekStart error, exactly when the anchor is an invalid date |
| Planner.GeneratePlan | backend/src/services/planner.js:164-170 | `generatePlan` is the pipeline over the given tasks, tagged `planner` |
| Planner.RunPipeline | backend/src/services/planner.js:179-183 | parse, build windows, subtract events (absent counts as none), allocate: equals `PlanWith` |
| Planner.Boost | backend/src/services/planner.js:174-177 | the boost keeps the number of tasks |
| Planner.BoostExact | backend/src/services/planner.js:174-177 | a task whose id (or `''` without one) is among the missed ids gains exactly one priority point, with no clamping; every other field and every other task is kept |
| Planner.BoostPromotes | backend/src/services/planner.js:173-177 | the boost never moves a missed task behind an unmissed one, and it puts a missed task strictly ahead of an unmissed one of the same priority |
| Planner.ReoptimizePlan | backend/src/services/planner.js:172-184 | `reoptimizePlan` is the pipeline over the boosted tasks, tagged `reoptimize` |
| Planner.WeekSlotsSound | backend/src/services/planner.js:165-167 | every free slot of the week lies in the window of some rule and overlaps no valid fixed event |
| Planner.PlanBlocksPlaced | backend/src/services/planner.js:164-170 | every block of each task carries that task and the source, lies inside the window of one availability rule and overlaps no valid fixed event |
| PlannerScenarios.MorningsOrder | backend/src/services/__tests__/planner.test.js:8-12 | the first test's tasks sort as t2, t3, t1 |
| PlannerScenarios.MorningsSlots | backend/src/services/__tests__/planner.test.js:13-17 | the two 09:00-12:00 rules with no events give the two mornings as free slots |
| PlannerScenarios.MorningsThirdRun | backend/src/services/planner.js:136-141 | in the first test, t1 is given the 40 minutes of the first morning that t3 already holds, then 80 minutes of the second morning |
| PlannerScenarios.MorningsPlan | backend/src/services/__tests__/planner.test.js:5-24 | the first test: 7 blocks, the first two of t2, total 270 minutes, nothing unscheduled; the fourth and fifth blocks (t3 and t1) overlap |
| PlannerScenarios.ShortMorningSlots | backend/src/services/__tests__/planner.test.js:32-33 | the 09:30-10:30 event leaves two half hours of the 09:00-11:00 window, both kept |
| PlannerScenarios.ShortMorningRun | backend/src/services/__tests__/planner.test.js:30 | the 6-hour task fills both half hours and is 300 minutes short |
| PlannerScenarios.ShortMorningPlan | backend/src/services/__tests__/planner.test.js:26-38 | the second test: two blocks, and "Long task" is in `unscheduledTasks` |
| StrictStore.ClampMinutes | frontend/src/store/strictStore.js:7-11 | the fallback when the value does not parse; otherwise the value brought into 5..240 (kept when inside, 5 below, 240 above) |
| StrictStore.ClampMonotone | frontend/src/store/strictStore.js:10 | clamping is monotone |
| StrictStore.InitialSettings | frontend/src/store/strictStore.js:13-30 | the defaults 45/10 with no window, no entry or an unreadable entry; otherwise each stored field clamped, with its default as fallback; always within 5..240 |
| StrictStore.Store.constructor | frontend/src/store/strictStore.js:44-51 | the store starts idle, in focus mode, with no end time and the initial settings |
| StrictStore.Store.SetFocusMinutes | frontend/src/store/strictStore.js:52-57 | the focus duration becomes the clamped value, or stays when the value does not parse; nothing else changes and the range invariant is kept |
| StrictStore.Store.SetBreakMinutes | frontend/src/store/strictStore.js:58-63 | the same for the break duration |
| StrictStore.Store.Start | frontend/src/store/strictStore.js:64-69 | an active focus session ending `durationMinutes` minutes after `now`; the durations stay |
| StrictStore.Store.BeginBreak | frontend/src/store/strictStore.js:70-75 | an active break session ending `durationMinutes` minutes after `now`; the durations stay |
| StrictStore.Store.Exit | frontend/src/store/strictStore.js:76-80 | the session stops and the end time is cleared; the mode and durations stay |
| StrictStore.StartFocusSession | frontend/src/pages/StrictModePage.jsx:99 | starting a session for the stored focus duration ends it between 5 and 240 minutes after `now` |
| TimeFormat.Decimal | frontend/src/utils/time.js:8 | the interpolated number is a non-empty string of digits without a leading zero |
| TimeFormat.DecimalRoundTrip | frontend/src/utils/time.js:8 | the digits read back as the number |
| TimeFormat.Pluralize | frontend/src/utils/time.js:7-9 | the number, a space and the unit, with a trailing `s` exactly unless the number is 1 |
| TimeFormat.PluralizeReadsBack | frontend/src/utils/time.js:7-9 | the leading digits of the phrase read back as the number |
| TimeFormat.CeilDiv | frontend/src/utils/time.js:20 | the rounded-up quotient: (r - 1) * b < a <= r * b |
| TimeFormat.Classify | frontend/src/utils/time.js:11-37 | no deadline exactly when the deadline is absent or not a date; past due exactly when it is not in the future; otherwise the count is the remaining time in that unit, rounded up |
| TimeFormat.ClassifyUnit | frontend/src/utils/time.js:19-36 | the unit is months from 30 days on, weeks from 7 days, days from 24 hours, hours from 60 minutes, minutes below that, in both directions |
| TimeFormat.ClassifyCounts | frontend/src/utils/time.js:19-36 | the count is at least 1, and at most 5 weeks, 7 days, 24 hours or 60 minutes |
| TimeFormat.FormatTimeUntil | frontend/src/utils/time.js:11-37 | "No deadline" exactly when the deadline is absent or not a date, "Past due" exactly when it is not in the future, otherwise a text starting with "Due in " |
| TimeFormat.FormatTimeUntilShape | frontend/src/utils/time.js:7-37 | "No deadline" and "Past due" exactly in those cases; otherwise exactly "Due in ", the count in decimal, a space, the unit's name and an `s` exactly when the count is not 1, and the count reads back from the text |

## Left out

- Time zones and daylight saving: the local zone has a fixed offset, so `setHours` and `setDate` are arithmetic on minutes. The scenarios take the zone to be UTC, as the tests' date strings assume.
- Sub-minute instants: planner instants are whole minutes, so the `Math.round` in `diffMinutes` is the identity.
- `Math.round(task.remainingHours * 60)`: tasks carry whole `remainingMinutes`. Floating point is not modelled. A missing or non-numeric `remainingHours` (NaN) behaves as a non-positive request: no blocks, not flagged.
- String parsing: `new Date(string)`, `split(':')` with `Number`, and `Number.parseInt` are not modelled. Their results are inputs: `DateValue`, `ClockTime`, or `Option<int>` (None stands for NaN or a non-finite value).
- Sequencer.Compare: a task deadline is a valid instant or absent. A present but unparsable deadline makes the comparator return NaN, and that case is not modelled.
- Sequencer.TitleCompare: `localeCompare` is taken as lexicographic order on character codes. Locale collation is not modelled.
- Sorting.Sort: the insertion sort is stable, like the engine's sort, but stability is not stated. Only permutation and sortedness are proved.
- Allocator.Fill: its own contract states only that the slot count is kept. What a run does is stated by the Fill* lemmas.
- Allocator.PlanRunInOrder: non-overlap and the buffer are proved only within one task, and only when the sorted windows follow each other. The code guarantees neither overlapping rules nor cross-task non-overlap (see `ExhaustedSlotReused`).
- The request routes, the database, the UI pages and the other services: outside the planner, store and formatter.
- `persistSettings`: the local-storage write, a side effect that returns nothing, is not modelled.
- `JSON.parse` and `window.localStorage` are not modelled. Their outcome is the input `StoredSettings`.
- `Date.now()` is the parameter `now`.
- The zustand `set` merge is modelled as field assignments on the `Store` class.
- TimeFormat.Classify: whole milliseconds and exact integer ceiling. The float division inside `Math.ceil` is not modelled, which matters only beyond 2^53 ms. Every falsy deadline, including the number 0, is `Absent`.
