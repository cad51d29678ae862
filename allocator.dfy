/**
 * Greedy block allocator (`allocateBlocks`, backend/src/services/planner.js).
 *
 * Tasks are taken in `sortTasks` order. For each task a cursor walks a shared,
 * mutable list of slots from the first one, cutting blocks of at most
 * `MinBlockMinutes` minutes (the constant is an upper bound, whatever its name)
 * and moving the slot's start past the block plus `BufferMinutes`. A slot that
 * is used up is only skipped, never cleared, and the cursor restarts at 0 for
 * every task: a later task can be given minutes an earlier one already holds.
 */
module Allocator {
  import opened PlannerTime
  import opened Wrappers
  import opened Windows
  import opened Sequencer
  import Sorting

  const MinBlockMinutes: int := 50
  const BufferMinutes: int := 10

  /** Provenance tag: `'planner'` or `'reoptimize'`. */
  datatype Source = PlannerSource | ReoptimizeSource

  datatype Block = Block(taskId: Option<string>, title: string, start: int, end: int, source: Source)

  datatype Summary = Summary(totalBlocks: nat, totalMinutes: int)

  datatype Plan = Plan(blocks: seq<Block>, unscheduledTasks: seq<string>, summary: Summary)

  /**
   * What the inner loop leaves for one task: the slot list as it left it, the
   * blocks it emitted, the minutes still missing, and where its cursor stopped.
   */
  datatype TaskRun = TaskRun(slots: seq<Interval>, blocks: seq<Block>, remaining: int, cursor: nat)

  function Span(b: Block): Interval {
    Interval(b.start, b.end)
  }

  /** The `reduce` of `diffMinutes(block.start, block.end)` over the blocks. */
  function BlockMinutes(blocks: seq<Block>): int {
    if blocks == [] then 0 else DiffMinutes(blocks[0].start, blocks[0].end) + BlockMinutes(blocks[1..])
  }

  lemma {:induction false} BlockMinutesConcat(a: seq<Block>, b: seq<Block>)
    ensures BlockMinutes(a + b) == BlockMinutes(a) + BlockMinutes(b)
  {
    if a != [] {
      assert (a + b)[1..] == a[1..] + b;
      BlockMinutesConcat(a[1..], b);
    } else {
      assert a + b == b;
    }
  }

  function Min3(a: int, b: int, c: int): (r: int)
    ensures r <= a && r <= b && r <= c
    ensures r == a || r == b || r == c
  {
    if a <= b && a <= c then a else if b <= c then b else c
  }

  /**
   * The inner `while` loop for one task, from cursor `index` with `remaining`
   * minutes still to place.
   */
  function Fill(task: Task, source: Source, slots: seq<Interval>, index: nat, remaining: int): (r: TaskRun)
    requires index <= |slots|
    ensures |r.slots| == |slots|
    decreases remaining, |slots| - index
  {
    if remaining <= 0 || index >= |slots| then TaskRun(slots, [], remaining, index)
    else
      var slot := slots[index];
      var available := DiffMinutes(slot.start, slot.end);
      if available <= 0 then Fill(task, source, slots, index + 1, remaining)
      else
        var allocation := Min3(MinBlockMinutes, remaining, available);
        var blockEnd := AddMinutes(slot.start, allocation);
        var block := Block(task.id, task.title, slot.start, blockEnd, source);
        var nextStart := AddMinutes(blockEnd, BufferMinutes);
        var rest :=
          if nextStart < slot.end
          then Fill(task, source, slots[index := Interval(nextStart, slot.end)], index, remaining - allocation)
          else Fill(task, source, slots, index + 1, remaining - allocation);
        TaskRun(rest.slots, [block] + rest.blocks, rest.remaining, rest.cursor)
  }

  /** One run per task, each starting from the slots the previous one left (cursor at 0). */
  function Runs(tasks: seq<Task>, slots: seq<Interval>, source: Source): (r: seq<TaskRun>)
    ensures |r| == |tasks|
    decreases |tasks|
  {
    if tasks == [] then []
    else
      var run := Fill(tasks[0], source, slots, 0, tasks[0].remainingMinutes);
      [run] + Runs(tasks[1..], run.slots, source)
  }

  /** The blocks of all runs, run after run. */
  function Flatten(runs: seq<TaskRun>): seq<Block> {
    if runs == [] then [] else runs[0].blocks + Flatten(runs[1..])
  }

  /** Titles of the tasks whose run ended with minutes left, in run order. */
  function Shortfalls(tasks: seq<Task>, runs: seq<TaskRun>): seq<string>
    requires |tasks| == |runs|
  {
    if tasks == [] then []
    else (if runs[0].remaining > 0 then [tasks[0].title] else []) + Shortfalls(tasks[1..], runs[1..])
  }

  /** The blocks and unscheduled titles produced so far, or by a stretch of tasks. */
  datatype Allocation = Allocation(blocks: seq<Block>, unscheduled: seq<string>)

  /** Output of one stretch of tasks followed by the output of the next. */
  function Join(a: Allocation, b: Allocation): Allocation {
    Allocation(a.blocks + b.blocks, a.unscheduled + b.unscheduled)
  }

  lemma JoinAssoc(a: Allocation, b: Allocation, c: Allocation)
    ensures Join(Join(a, b), c) == Join(a, Join(b, c))
  {
    assert (a.blocks + b.blocks) + c.blocks == a.blocks + (b.blocks + c.blocks);
    assert (a.unscheduled + b.unscheduled) + c.unscheduled == a.unscheduled + (b.unscheduled + c.unscheduled);
  }

  /** The output of the task loop over `tasks`, starting from `slots`. */
  function AllocateFrom(tasks: seq<Task>, slots: seq<Interval>, source: Source): Allocation {
    var runs := Runs(tasks, slots, source);
    Allocation(Flatten(runs), Shortfalls(tasks, runs))
  }

  /** One step of the task loop: the first task's run, then the rest from the slots it left. */
  lemma AllocateFromStep(tasks: seq<Task>, slots: seq<Interval>, source: Source)
    requires tasks != []
    ensures var run := Fill(tasks[0], source, slots, 0, tasks[0].remainingMinutes);
            AllocateFrom(tasks, slots, source)
            == Join(Allocation(run.blocks, if run.remaining > 0 then [tasks[0].title] else []),
                    AllocateFrom(tasks[1..], run.slots, source))
  {
    var run := Fill(tasks[0], source, slots, 0, tasks[0].remainingMinutes);
    var rest := Runs(tasks[1..], run.slots, source);
    assert ([run] + rest)[1..] == rest;
  }

  /** What `allocateBlocks(tasks, windows, source)` returns. */
  function AllocatePlan(tasks: seq<Task>, windows: seq<Interval>, source: Source): Plan {
    var runs := PlanRuns(tasks, windows, source);
    var blocks := Flatten(runs);
    Plan(blocks, Shortfalls(SortTasks(tasks), runs), Summary(|blocks|, BlockMinutes(blocks)))
  }

  /** The runs of the plan: the sorted tasks over the slots sorted by start. */
  function PlanRuns(tasks: seq<Task>, windows: seq<Interval>, source: Source): (r: seq<TaskRun>)
    ensures |r| == |SortTasks(tasks)| == |tasks|
  {
    assert |multiset(SortTasks(tasks))| == |multiset(tasks)|;
    Runs(SortTasks(tasks), SortByStart(windows), source)
  }

  /** `allocateBlocks`: copy and sort the slots, run the task loop, add the summary. */
  method AllocateBlocks(tasks: seq<Task>, windows: seq<Interval>, source: Source) returns (plan: Plan)
    ensures plan == AllocatePlan(tasks, windows, source)
  {
    var sorted := SortByStart(windows);
    var slots := new Interval[|sorted|](i requires 0 <= i < |sorted| => sorted[i]);
    assert slots[..] == sorted;
    var ordered := SortTasks(tasks);
    var blocks, unscheduledTasks := PlaceTasks(ordered, source, slots);
    plan := Plan(blocks, unscheduledTasks, Summary(|blocks|, BlockMinutes(blocks)));
  }

  /** The task loop of `allocateBlocks`: every task in order, over the shared slots. */
  method PlaceTasks(ordered: seq<Task>, source: Source, slots: array<Interval>)
    returns (blocks: seq<Block>, unscheduledTasks: seq<string>)
    modifies slots
    ensures Allocation(blocks, unscheduledTasks) == AllocateFrom(ordered, old(slots[..]), source)
  {
    blocks, unscheduledTasks := [], [];
    ghost var whole := AllocateFrom(ordered, slots[..], source);
    assert ordered[0..] == ordered;
    assert Join(Allocation([], []), whole) == whole;

    for t := 0 to |ordered|
      invariant Join(Allocation(blocks, unscheduledTasks), AllocateFrom(ordered[t..], slots[..], source)) == whole
    {
      var task := ordered[t];
      ghost var done := Allocation(blocks, unscheduledTasks);
      AllocateFromStep(ordered[t..], slots[..], source);
      assert ordered[t..][0] == task && ordered[t..][1..] == ordered[t + 1..];
      var taskBlocks, remainingMinutes := PlaceTask(task, source, slots);
      ghost var step := Allocation(taskBlocks, if remainingMinutes > 0 then [task.title] else []);
      JoinAssoc(done, step, AllocateFrom(ordered[t + 1..], slots[..], source));
      blocks := blocks + taskBlocks;
      if remainingMinutes > 0 {
        unscheduledTasks := unscheduledTasks + [task.title];
      }
      assert Allocation(blocks, unscheduledTasks) == Join(done, step);
    }
    assert ordered[|ordered|..] == [];
  }

  /**
   * The body of the task loop: the cursor walks `slots` from 0, emitting blocks
   * and moving slot starts in place, until the task is placed or the slots run out.
   */
  /** The loop of `PlaceTask` has placed `done` and `Fill` from here yields the rest of `run`. */
  ghost predicate Continues(task: Task, source: Source, slots: seq<Interval>, index: nat, remaining: int,
                            done: seq<Block>, run: TaskRun)
    requires index <= |slots|
  {
    var f := Fill(task, source, slots, index, remaining);
    done + f.blocks == run.blocks && f.slots == run.slots && f.remaining == run.remaining
  }

  /** One turn of the inner loop keeps `Continues`. */
  lemma ContinuesStep(task: Task, source: Source, slots: seq<Interval>, index: nat, remaining: int,
                      done: seq<Block>, run: TaskRun)
    requires index < |slots| && remaining > 0
    requires Continues(task, source, slots, index, remaining, done, run)
    ensures var slot := slots[index];
            var available := DiffMinutes(slot.start, slot.end);
            if available <= 0 then Continues(task, source, slots, index + 1, remaining, done, run)
            else
              var allocation := Min3(MinBlockMinutes, remaining, available);
              var blockEnd := AddMinutes(slot.start, allocation);
              var nextStart := AddMinutes(blockEnd, BufferMinutes);
              var block := Block(task.id, task.title, slot.start, blockEnd, source);
              if nextStart < slot.end
              then Continues(task, source, slots[index := Interval(nextStart, slot.end)], index,
                             remaining - allocation, done + [block], run)
              else Continues(task, source, slots, index + 1, remaining - allocation, done + [block], run)
  {
    var slot := slots[index];
    var available := DiffMinutes(slot.start, slot.end);
    if available > 0 {
      var allocation := Min3(MinBlockMinutes, remaining, available);
      var blockEnd := AddMinutes(slot.start, allocation);
      var nextStart := AddMinutes(blockEnd, BufferMinutes);
      var block := Block(task.id, task.title, slot.start, blockEnd, source);
      var rest :=
        if nextStart < slot.end
        then Fill(task, source, slots[index := Interval(nextStart, slot.end)], index, remaining - allocation)
        else Fill(task, source, slots, index + 1, remaining - allocation);
      assert Fill(task, source, slots, index, remaining).blocks == [block] + rest.blocks;
      assert done + ([block] + rest.blocks) == (done + [block]) + rest.blocks;
    }
  }

  method PlaceTask(task: Task, source: Source, slots: array<Interval>)
    returns (taskBlocks: seq<Block>, remainingMinutes: int)
    modifies slots
    ensures var run := Fill(task, source, old(slots[..]), 0, task.remainingMinutes);
            && taskBlocks == run.blocks && slots[..] == run.slots && remainingMinutes == run.remaining
  {
    ghost var run := Fill(task, source, slots[..], 0, task.remainingMinutes);
    taskBlocks := [];
    remainingMinutes := task.remainingMinutes;
    var slotIndex := 0;
    while remainingMinutes > 0 && slotIndex < slots.Length
      invariant 0 <= slotIndex <= slots.Length
      invariant Continues(task, source, slots[..], slotIndex, remainingMinutes, taskBlocks, run)
      decreases remainingMinutes, slots.Length - slotIndex
    {
      var slot := slots[slotIndex];
      var available := DiffMinutes(slot.start, slot.end);
      ContinuesStep(task, source, slots[..], slotIndex, remainingMinutes, taskBlocks, run);
      if available <= 0 {
        slotIndex := slotIndex + 1;
        continue;
      }
      var allocation := Min3(MinBlockMinutes, remainingMinutes, available);
      var blockStart := slot.start;
      var blockEnd := AddMinutes(blockStart, allocation);
      taskBlocks := taskBlocks + [Block(task.id, task.title, blockStart, blockEnd, source)];
      remainingMinutes := remainingMinutes - allocation;
      var nextStart := AddMinutes(blockEnd, BufferMinutes);
      if nextStart < slot.end {
        slots[slotIndex] := Interval(nextStart, slot.end);
      } else {
        slotIndex := slotIndex + 1;
      }
    }
  }

  // ---------------------------------------------------------------------------
  // One task's run

  /** Slots in strictly successive positions: each ends before the next one starts. */
  predicate Separated(slots: seq<Interval>) {
    forall k, l :: 0 <= k < l < |slots| ==> slots[k].end <= slots[l].start
  }

  /** A run keeps every slot's end and only moves its start forward. */
  lemma {:induction false} FillSlots(task: Task, source: Source, slots: seq<Interval>, index: nat, remaining: int)
    requires index <= |slots|
    ensures var r := Fill(task, source, slots, index, remaining);
            forall k :: 0 <= k < |slots| ==> r.slots[k].end == slots[k].end && slots[k].start <= r.slots[k].start
    decreases remaining, |slots| - index
  {
    if remaining > 0 && index < |slots| {
      var slot := slots[index];
      var available := DiffMinutes(slot.start, slot.end);
      if available <= 0 {
        FillSlots(task, source, slots, index + 1, remaining);
      } else {
        var allocation := Min3(MinBlockMinutes, remaining, available);
        var nextStart := AddMinutes(AddMinutes(slot.start, allocation), BufferMinutes);
        if nextStart < slot.end {
          FillSlots(task, source, slots[index := Interval(nextStart, slot.end)], index, remaining - allocation);
        } else {
          FillSlots(task, source, slots, index + 1, remaining - allocation);
        }
      }
    }
  }

  /** Every block of a run carries the task and the source and lasts 1 to `MinBlockMinutes` minutes. */
  lemma {:induction false} FillBlocks(task: Task, source: Source, slots: seq<Interval>, index: nat, remaining: int)
    requires index <= |slots|
    ensures forall b :: b in Fill(task, source, slots, index, remaining).blocks ==>
              && b.taskId == task.id && b.title == task.title && b.source == source
              && 0 < b.end - b.start <= MinBlockMinutes
    decreases remaining, |slots| - index
  {
    if remaining > 0 && index < |slots| {
      var slot := slots[index];
      var available := DiffMinutes(slot.start, slot.end);
      if available <= 0 {
        FillBlocks(task, source, slots, index + 1, remaining);
      } else {
        var allocation := Min3(MinBlockMinutes, remaining, available);
        var nextStart := AddMinutes(AddMinutes(slot.start, allocation), BufferMinutes);
        if nextStart < slot.end {
          FillBlocks(task, source, slots[index := Interval(nextStart, slot.end)], index, remaining - allocation);
        } else {
          FillBlocks(task, source, slots, index + 1, remaining - allocation);
        }
      }
    }
  }

  /** Every block of a run lies inside a slot at or after the cursor it started from. */
  lemma {:induction false} FillWithin(task: Task, source: Source, slots: seq<Interval>, index: nat, remaining: int)
    requires index <= |slots|
    ensures forall b :: b in Fill(task, source, slots, index, remaining).blocks ==>
              exists k :: index <= k < |slots| && Within(Span(b), slots[k])
    decreases remaining, |slots| - index
  {
    if remaining > 0 && index < |slots| {
      var slot := slots[index];
      var available := DiffMinutes(slot.start, slot.end);
      if available <= 0 {
        FillWithin(task, source, slots, index + 1, remaining);
      } else {
        var allocation := Min3(MinBlockMinutes, remaining, available);
        var nextStart := AddMinutes(AddMinutes(slot.start, allocation), BufferMinutes);
        if nextStart < slot.end {
          var moved := slots[index := Interval(nextStart, slot.end)];
          FillWithin(task, source, moved, index, remaining - allocation);
          forall k | index <= k < |slots| ensures forall iv :: Within(iv, moved[k]) ==> Within(iv, slots[k]) {
          }
        } else {
          FillWithin(task, source, slots, index + 1, remaining - allocation);
        }
      }
    }
  }

  /**
   * The minutes of a run: none is placed for a non-positive request; otherwise
   * the blocks add up to the minutes placed, never more than requested.
   */
  lemma {:induction false} FillMinutes(task: Task, source: Source, slots: seq<Interval>, index: nat, remaining: int)
    requires index <= |slots|
    ensures var r := Fill(task, source, slots, index, remaining);
            && (remaining <= 0 ==> r.blocks == [] && r.remaining == remaining)
            && (remaining > 0 ==> 0 <= r.remaining <= remaining && BlockMinutes(r.blocks) == remaining - r.remaining)
    decreases remaining, |slots| - index
  {
    if remaining > 0 && index < |slots| {
      var slot := slots[index];
      var available := DiffMinutes(slot.start, slot.end);
      if available <= 0 {
        FillMinutes(task, source, slots, index + 1, remaining);
      } else {
        var allocation := Min3(MinBlockMinutes, remaining, available);
        var nextStart := AddMinutes(AddMinutes(slot.start, allocation), BufferMinutes);
        if nextStart < slot.end {
          FillMinutes(task, source, slots[index := Interval(nextStart, slot.end)], index, remaining - allocation);
        } else {
          FillMinutes(task, source, slots, index + 1, remaining - allocation);
        }
      }
    }
  }

  /** A shortfall is left only once the cursor has passed every slot. */
  lemma {:induction false} FillExhausts(task: Task, source: Source, slots: seq<Interval>, index: nat, remaining: int)
    requires index <= |slots|
    ensures var r := Fill(task, source, slots, index, remaining);
            r.remaining > 0 ==> r.cursor == |slots|
    decreases remaining, |slots| - index
  {
    if remaining > 0 && index < |slots| {
      var slot := slots[index];
      var available := DiffMinutes(slot.start, slot.end);
      if available <= 0 {
        FillExhausts(task, source, slots, index + 1, remaining);
      } else {
        var allocation := Min3(MinBlockMinutes, remaining, available);
        var nextStart := AddMinutes(AddMinutes(slot.start, allocation), BufferMinutes);
        if nextStart < slot.end {
          FillExhausts(task, source, slots[index := Interval(nextStart, slot.end)], index, remaining - allocation);
        } else {
          FillExhausts(task, source, slots, index + 1, remaining - allocation);
        }
      }
    }
  }

  /** Blocks that follow each other in time without overlapping. */
  predicate InOrder(blocks: seq<Block>) {
    forall p, q :: 0 <= p < q < |blocks| ==> blocks[p].end <= blocks[q].start
  }

  lemma PrependInOrder(block: Block, blocks: seq<Block>)
    requires InOrder(blocks)
    requires forall b :: b in blocks ==> block.end <= b.start
    ensures InOrder([block] + blocks)
  {
    var all := [block] + blocks;
    forall p, q | 0 <= p < q < |all| ensures all[p].end <= all[q].start {
      assert all[q] == blocks[q - 1];
      if p > 0 {
        assert all[p] == blocks[p - 1];
      }
    }
  }

  /** Over separated slots, one task's blocks follow each other without overlapping. */
  lemma {:induction false} FillOrdered(task: Task, source: Source, slots: seq<Interval>, index: nat, remaining: int)
    requires index <= |slots|
    requires Separated(slots)
    ensures InOrder(Fill(task, source, slots, index, remaining).blocks)
    decreases remaining, |slots| - index
  {
    if remaining > 0 && index < |slots| {
      var slot := slots[index];
      var available := DiffMinutes(slot.start, slot.end);
      if available <= 0 {
        FillOrdered(task, source, slots, index + 1, remaining);
      } else {
        var allocation := Min3(MinBlockMinutes, remaining, available);
        var blockEnd := AddMinutes(slot.start, allocation);
        var nextStart := AddMinutes(blockEnd, BufferMinutes);
        var block := Block(task.id, task.title, slot.start, blockEnd, source);
        if nextStart < slot.end {
          var moved := slots[index := Interval(nextStart, slot.end)];
          assert Separated(moved);
          FillOrdered(task, source, moved, index, remaining - allocation);
          FillWithin(task, source, moved, index, remaining - allocation);
          assert forall k :: index <= k < |slots| ==> blockEnd <= moved[k].start;
          PrependInOrder(block, Fill(task, source, moved, index, remaining - allocation).blocks);
        } else {
          FillOrdered(task, source, slots, index + 1, remaining - allocation);
          FillWithin(task, source, slots, index + 1, remaining - allocation);
          assert forall k :: index + 1 <= k < |slots| ==> blockEnd <= slots[k].start;
          PrependInOrder(block, Fill(task, source, slots, index + 1, remaining - allocation).blocks);
        }
      }
    }
  }

  /** A stretch of positive length lies in at most one of a list of separated slots. */
  lemma OneSlot(b: Interval, slots: seq<Interval>, k: nat, l: nat)
    requires Separated(slots) && k < |slots| && l < |slots| && b.start < b.end
    ensures Within(b, slots[k]) && Within(b, slots[l]) ==> k == l
  {
  }

  /** Two blocks cut from the same slot are at least `BufferMinutes` apart. */
  predicate Buffered(blocks: seq<Block>, slots: seq<Interval>) {
    forall p, q, k :: 0 <= p < q < |blocks| && 0 <= k < |slots|
      && Within(Span(blocks[p]), slots[k]) && Within(Span(blocks[q]), slots[k])
      ==> blocks[p].end + BufferMinutes <= blocks[q].start
  }

  /** Every block has positive length and lies in one of `slots[from..]`. */
  predicate Placed(blocks: seq<Block>, slots: seq<Interval>, from: nat) {
    forall b :: b in blocks ==>
      b.start < b.end && exists k :: from <= k < |slots| && Within(Span(b), slots[k])
  }

  /**
   * A stretch lying in a slot of `slots` after the slot at `index` was narrowed
   * to `narrowed` lies in that same slot of the original list.
   */
  lemma NarrowedSlot(b: Interval, slots: seq<Interval>, index: nat, narrowed: Interval, k: nat, kb: nat)
    requires Separated(slots) && index < |slots| && k < |slots| && kb < |slots| && b.start < b.end
    requires Within(narrowed, slots[index])
    requires Within(b, slots[k]) && Within(b, slots[index := narrowed][kb])
    ensures k == kb
  {
    if kb == index {
      OneSlot(b, slots, k, index);
    } else {
      OneSlot(b, slots, k, kb);
    }
  }

  /** The first block is buffered from every later block in its slot. */
  predicate HeadBuffered(block: Block, rest: seq<Block>, slots: seq<Interval>) {
    forall q, k :: 0 <= q < |rest| && 0 <= k < |slots|
      && Within(Span(block), slots[k]) && Within(Span(rest[q]), slots[k])
      ==> block.end + BufferMinutes <= rest[q].start
  }

  lemma BufferedCons(block: Block, rest: seq<Block>, slots: seq<Interval>)
    requires HeadBuffered(block, rest, slots) && Buffered(rest, slots)
    ensures Buffered([block] + rest, slots)
  {
    var blocks := [block] + rest;
    forall p, q, k | 0 <= p < q < |blocks| && 0 <= k < |slots|
                     && Within(Span(blocks[p]), slots[k]) && Within(Span(blocks[q]), slots[k])
      ensures blocks[p].end + BufferMinutes <= blocks[q].start
    {
      assert blocks[q] == rest[q - 1];
      if p > 0 {
        assert blocks[p] == rest[p - 1];
      }
    }
  }

  /** Narrowing one slot keeps a list of blocks placed in the narrowed list buffered. */
  lemma BufferedNarrowed(rest: seq<Block>, slots: seq<Interval>, index: nat, narrowed: Interval)
    requires Separated(slots) && index < |slots| && Within(narrowed, slots[index])
    requires Placed(rest, slots[index := narrowed], index) && Buffered(rest, slots[index := narrowed])
    ensures Buffered(rest, slots)
  {
    var moved := slots[index := narrowed];
    forall p, q, k | 0 <= p < q < |rest| && 0 <= k < |slots|
                     && Within(Span(rest[p]), slots[k]) && Within(Span(rest[q]), slots[k])
      ensures rest[p].end + BufferMinutes <= rest[q].start
    {
      var bp, bq := rest[p], rest[q];
      assert bp in rest && bq in rest;
      var kp :| index <= kp < |slots| && Within(Span(bp), moved[kp]);
      var kq :| index <= kq < |slots| && Within(Span(bq), moved[kq]);
      NarrowedSlot(Span(bp), slots, index, narrowed, k, kp);
      NarrowedSlot(Span(bq), slots, index, narrowed, k, kq);
    }
  }

  /** A block cut from the front of `slots[index]` is buffered from blocks placed after its cut. */
  lemma HeadBufferedMoved(block: Block, rest: seq<Block>, slots: seq<Interval>, index: nat)
    requires Separated(slots) && index < |slots|
    requires block.start < block.end && Within(Span(block), slots[index])
    requires block.end + BufferMinutes < slots[index].end
    requires Placed(rest, slots[index := Interval(block.end + BufferMinutes, slots[index].end)], index)
    ensures HeadBuffered(block, rest, slots)
  {
    var narrowed := Interval(block.end + BufferMinutes, slots[index].end);
    var moved := slots[index := narrowed];
    forall q, k | 0 <= q < |rest| && 0 <= k < |slots|
                  && Within(Span(block), slots[k]) && Within(Span(rest[q]), slots[k])
      ensures block.end + BufferMinutes <= rest[q].start
    {
      var bq := rest[q];
      assert bq in rest;
      var kq :| index <= kq < |slots| && Within(Span(bq), moved[kq]);
      NarrowedSlot(Span(bq), slots, index, narrowed, k, kq);
      OneSlot(Span(block), slots, index, k);
    }
  }

  /** A block cut from `slots[index]` shares no slot with blocks placed in later slots. */
  lemma HeadBufferedNext(block: Block, rest: seq<Block>, slots: seq<Interval>, index: nat)
    requires Separated(slots) && index < |slots|
    requires block.start < block.end && Within(Span(block), slots[index])
    requires Placed(rest, slots, index + 1)
    ensures HeadBuffered(block, rest, slots)
  {
    forall q, k | 0 <= q < |rest| && 0 <= k < |slots|
      ensures !(Within(Span(block), slots[k]) && Within(Span(rest[q]), slots[k]))
    {
      var bq := rest[q];
      assert bq in rest;
      var kq :| index + 1 <= kq < |slots| && Within(Span(bq), slots[kq]);
      OneSlot(Span(bq), slots, k, kq);
      OneSlot(Span(block), slots, index, k);
    }
  }

  /** Narrowing a slot from the front keeps the slots separated. */
  lemma NarrowSeparated(slots: seq<Interval>, index: nat, narrowed: Interval)
    requires Separated(slots) && index < |slots| && Within(narrowed, slots[index])
    requires narrowed.start <= narrowed.end
    ensures Separated(slots[index := narrowed])
  {
  }

  /** Every block of a run has positive length and lies in one of the slots it started from. */
  lemma FillPlaced(task: Task, source: Source, slots: seq<Interval>, index: nat, remaining: int)
    requires index <= |slots|
    ensures Placed(Fill(task, source, slots, index, remaining).blocks, slots, index)
  {
    FillWithin(task, source, slots, index, remaining);
    FillBlocks(task, source, slots, index, remaining);
  }

  /**
   * Over separated slots, a later block of one run that lies in the same slot
   * as an earlier one starts at least `BufferMinutes` after the earlier one ends.
   */
  lemma {:induction false} FillBuffered(task: Task, source: Source, slots: seq<Interval>, index: nat, remaining: int)
    requires index <= |slots|
    requires Separated(slots)
    ensures Buffered(Fill(task, source, slots, index, remaining).blocks, slots)
    decreases remaining, |slots| - index, 1
  {
    if remaining > 0 && index < |slots| {
      if DiffMinutes(slots[index].start, slots[index].end) <= 0 {
        FillBuffered(task, source, slots, index + 1, remaining);
      } else if AddMinutes(AddMinutes(slots[index].start, Min3(MinBlockMinutes, remaining, DiffMinutes(slots[index].start, slots[index].end))), BufferMinutes) < slots[index].end {
        FillBufferedMoved(task, source, slots, index, remaining);
      } else {
        FillBufferedNext(task, source, slots, index, remaining);
      }
    }
  }

  /** The case of `FillBuffered` where a block is cut from `slots[index]` and the slot keeps a rest. */
  lemma {:induction false} FillBufferedMoved(task: Task, source: Source, slots: seq<Interval>, index: nat, remaining: int)
    requires index < |slots| && remaining > 0
    requires DiffMinutes(slots[index].start, slots[index].end) > 0
    requires AddMinutes(AddMinutes(slots[index].start, Min3(MinBlockMinutes, remaining, DiffMinutes(slots[index].start, slots[index].end))), BufferMinutes) < slots[index].end
    requires Separated(slots)
    ensures Buffered(Fill(task, source, slots, index, remaining).blocks, slots)
    decreases remaining, |slots| - index, 0
  {
    var slot := slots[index];
    var allocation := Min3(MinBlockMinutes, remaining, DiffMinutes(slot.start, slot.end));
    var blockEnd := AddMinutes(slot.start, allocation);
    var nextStart := AddMinutes(blockEnd, BufferMinutes);
    var block := Block(task.id, task.title, slot.start, blockEnd, source);
    var narrowed := Interval(nextStart, slot.end);
    NarrowSeparated(slots, index, narrowed);
    var moved := slots[index := narrowed];
    var rest := Fill(task, source, moved, index, remaining - allocation).blocks;
    assert Fill(task, source, slots, index, remaining).blocks == [block] + rest;
    FillBuffered(task, source, moved, index, remaining - allocation);
    FillPlaced(task, source, moved, index, remaining - allocation);
    HeadBufferedMoved(block, rest, slots, index);
    BufferedNarrowed(rest, slots, index, narrowed);
    BufferedCons(block, rest, slots);
  }

  /** The case of `FillBuffered` where a block uses up the rest of `slots[index]`. */
  lemma {:induction false} FillBufferedNext(task: Task, source: Source, slots: seq<Interval>, index: nat, remaining: int)
    requires index < |slots| && remaining > 0
    requires DiffMinutes(slots[index].start, slots[index].end) > 0
    requires AddMinutes(AddMinutes(slots[index].start, Min3(MinBlockMinutes, remaining, DiffMinutes(slots[index].start, slots[index].end))), BufferMinutes) >= slots[index].end
    requires Separated(slots)
    ensures Buffered(Fill(task, source, slots, index, remaining).blocks, slots)
    decreases remaining, |slots| - index, 0
  {
    var slot := slots[index];
    var allocation := Min3(MinBlockMinutes, remaining, DiffMinutes(slot.start, slot.end));
    var blockEnd := AddMinutes(slot.start, allocation);
    var block := Block(task.id, task.title, slot.start, blockEnd, source);
    var rest := Fill(task, source, slots, index + 1, remaining - allocation).blocks;
    assert Fill(task, source, slots, index, remaining).blocks == [block] + rest;
    FillBuffered(task, source, slots, index + 1, remaining - allocation);
    FillPlaced(task, source, slots, index + 1, remaining - allocation);
    HeadBufferedNext(block, rest, slots, index);
    BufferedCons(block, rest, slots);
  }

  // ---------------------------------------------------------------------------
  // The task loop

  /** The slot list as the `i`-th task of the loop finds it. */
  function SlotsBefore(tasks: seq<Task>, slots: seq<Interval>, source: Source, i: nat): (r: seq<Interval>)
    requires i <= |tasks|
    ensures |r| == |slots|
    decreases i
  {
    if i == 0 then slots
    else SlotsBefore(tasks[1..], Fill(tasks[0], source, slots, 0, tasks[0].remainingMinutes).slots, source, i - 1)
  }

  /** The `i`-th run is the inner loop for the `i`-th task, from cursor 0 over the slots it finds. */
  lemma {:induction false} RunsAreFills(tasks: seq<Task>, slots: seq<Interval>, source: Source, i: nat)
    requires i < |tasks|
    ensures Runs(tasks, slots, source)[i]
            == Fill(tasks[i], source, SlotsBefore(tasks, slots, source, i), 0, tasks[i].remainingMinutes)
    decreases i
  {
    if i > 0 {
      var run := Fill(tasks[0], source, slots, 0, tasks[0].remainingMinutes);
      RunsAreFills(tasks[1..], run.slots, source, i - 1);
      assert Runs(tasks, slots, source)[i] == Runs(tasks[1..], run.slots, source)[i - 1];
    }
  }

  /** Earlier tasks only shorten slots from the front. */
  lemma {:induction false} SlotsBeforeShrink(tasks: seq<Task>, slots: seq<Interval>, source: Source, i: nat)
    requires i <= |tasks|
    ensures var now := SlotsBefore(tasks, slots, source, i);
            forall k :: 0 <= k < |slots| ==> now[k].end == slots[k].end && slots[k].start <= now[k].start
    decreases i
  {
    if i > 0 {
      var run := Fill(tasks[0], source, slots, 0, tasks[0].remainingMinutes);
      FillSlots(tasks[0], source, slots, 0, tasks[0].remainingMinutes);
      SlotsBeforeShrink(tasks[1..], run.slots, source, i - 1);
    }
  }

  /** The position, among the runs, of the run that emitted the `i`-th flattened block. */
  function Owner(runs: seq<TaskRun>, i: nat): (g: nat)
    requires i < |Flatten(runs)|
    ensures g < |runs| && Flatten(runs)[i] in runs[g].blocks
    decreases |runs|
  {
    if i < |runs[0].blocks| then 0
    else
      var g := Owner(runs[1..], i - |runs[0].blocks|);
      assert Flatten(runs)[i] == Flatten(runs[1..])[i - |runs[0].blocks|];
      g + 1
  }

  /** Blocks come run by run: a later block never belongs to an earlier run. */
  lemma {:induction false} OwnerMonotone(runs: seq<TaskRun>, i: nat, j: nat)
    requires i <= j < |Flatten(runs)|
    ensures Owner(runs, i) <= Owner(runs, j)
    decreases |runs|
  {
    if i >= |runs[0].blocks| {
      OwnerMonotone(runs[1..], i - |runs[0].blocks|, j - |runs[0].blocks|);
    }
  }

  /** Minutes requested by the tasks; a non-positive request counts as none. */
  function Requested(tasks: seq<Task>): nat {
    if tasks == [] then 0
    else (if tasks[0].remainingMinutes > 0 then tasks[0].remainingMinutes else 0) + Requested(tasks[1..])
  }

  /** Minutes the runs left unplaced. */
  function Missing(runs: seq<TaskRun>): nat {
    if runs == [] then 0
    else (if runs[0].remaining > 0 then runs[0].remaining else 0) + Missing(runs[1..])
  }

  /**
   * Accounting of the task loop: the placed minutes and the missing minutes
   * add up to the requested minutes, and no title is reported unscheduled
   * exactly when nothing is missing.
   */
  lemma {:induction false} RunsAccount(tasks: seq<Task>, slots: seq<Interval>, source: Source)
    ensures var runs := Runs(tasks, slots, source);
            && BlockMinutes(Flatten(runs)) + Missing(runs) == Requested(tasks)
            && (Shortfalls(tasks, runs) == [] <==> Missing(runs) == 0)
    decreases |tasks|
  {
    if tasks != [] {
      var run := Fill(tasks[0], source, slots, 0, tasks[0].remainingMinutes);
      var rest := Runs(tasks[1..], run.slots, source);
      var runs := Runs(tasks, slots, source);
      assert runs[0] == run && runs[1..] == rest;
      FillMinutes(tasks[0], source, slots, 0, tasks[0].remainingMinutes);
      RunsAccount(tasks[1..], run.slots, source);
      BlockMinutesConcat(run.blocks, Flatten(rest));
    }
  }

  /** A title is reported unscheduled exactly when some task of that title got fewer minutes than it asked for. */
  lemma {:induction false} ShortfallsExact(tasks: seq<Task>, slots: seq<Interval>, source: Source, title: string)
    ensures var runs := Runs(tasks, slots, source);
            title in Shortfalls(tasks, runs) <==>
              exists g :: 0 <= g < |tasks| && tasks[g].title == title
                          && BlockMinutes(runs[g].blocks) < tasks[g].remainingMinutes
    decreases |tasks|
  {
    if tasks != [] {
      var run := Fill(tasks[0], source, slots, 0, tasks[0].remainingMinutes);
      var rest := Runs(tasks[1..], run.slots, source);
      var runs := Runs(tasks, slots, source);
      assert runs[0] == run && runs[1..] == rest;
      FillMinutes(tasks[0], source, slots, 0, tasks[0].remainingMinutes);
      ShortfallsExact(tasks[1..], run.slots, source, title);
      if exists g :: 0 <= g < |tasks| && tasks[g].title == title && BlockMinutes(runs[g].blocks) < tasks[g].remainingMinutes {
        var g :| 0 <= g < |tasks| && tasks[g].title == title && BlockMinutes(runs[g].blocks) < tasks[g].remainingMinutes;
        if g > 0 {
          assert tasks[1..][g - 1] == tasks[g] && rest[g - 1] == runs[g];
        }
      }
      if title in Shortfalls(tasks[1..], rest) {
        var g :| 0 <= g < |tasks[1..]| && tasks[1..][g].title == title
                 && BlockMinutes(rest[g].blocks) < tasks[1..][g].remainingMinutes;
        assert runs[g + 1] == rest[g];
      }
    }
  }

  /** The positions from `from` on whose run got fewer minutes than its task asked for, in order. */
  function ShortIndices(tasks: seq<Task>, runs: seq<TaskRun>, from: nat): (r: seq<nat>)
    requires |tasks| == |runs| && from <= |tasks|
    ensures forall i :: 0 <= i < |r| ==> from <= r[i] < |tasks|
    ensures forall i, j :: 0 <= i < j < |r| ==> r[i] < r[j]
    ensures forall g :: from <= g < |tasks| ==>
              (g in r <==> BlockMinutes(runs[g].blocks) < tasks[g].remainingMinutes)
    decreases |tasks| - from
  {
    if from == |tasks| then []
    else
      (if BlockMinutes(runs[from].blocks) < tasks[from].remainingMinutes then [from] else [])
      + ShortIndices(tasks, runs, from + 1)
  }

  /** A run ends with minutes left exactly when its blocks fall short of what the task asked for. */
  lemma RunsShort(tasks: seq<Task>, slots: seq<Interval>, source: Source, g: nat)
    requires g < |tasks|
    ensures var run := Runs(tasks, slots, source)[g];
            run.remaining > 0 <==> BlockMinutes(run.blocks) < tasks[g].remainingMinutes
  {
    RunsAreFills(tasks, slots, source, g);
    FillMinutes(tasks[g], source, SlotsBefore(tasks, slots, source, g), 0, tasks[g].remainingMinutes);
  }

  /**
   * Over runs that are short exactly when they have minutes left, the shortfall
   * list holds one title per short position, in position order.
   */
  lemma {:induction false} ShortfallsIndexed(tasks: seq<Task>, runs: seq<TaskRun>, from: nat)
    requires |tasks| == |runs| && from <= |tasks|
    requires forall g :: 0 <= g < |tasks| ==>
               (runs[g].remaining > 0 <==> BlockMinutes(runs[g].blocks) < tasks[g].remainingMinutes)
    ensures var positions := ShortIndices(tasks, runs, from);
            var titles := Shortfalls(tasks[from..], runs[from..]);
            |titles| == |positions| && forall i :: 0 <= i < |positions| ==> titles[i] == tasks[positions[i]].title
    decreases |tasks| - from
  {
    if from < |tasks| {
      ShortfallsIndexed(tasks, runs, from + 1);
      assert tasks[from..][1..] == tasks[from + 1..];
      assert runs[from..][1..] == runs[from + 1..];
    }
  }

  /**
   * The shortfall list of the task loop, exactly: one title per task whose
   * blocks fall short of its request, in task order, repeated titles included.
   */
  lemma ShortfallsListed(tasks: seq<Task>, slots: seq<Interval>, source: Source)
    ensures var runs := Runs(tasks, slots, source);
            var positions := ShortIndices(tasks, runs, 0);
            var titles := Shortfalls(tasks, runs);
            |titles| == |positions| && forall i :: 0 <= i < |positions| ==> titles[i] == tasks[positions[i]].title
  {
    var runs := Runs(tasks, slots, source);
    forall g | 0 <= g < |tasks|
      ensures runs[g].remaining > 0 <==> BlockMinutes(runs[g].blocks) < tasks[g].remainingMinutes
    {
      RunsShort(tasks, slots, source, g);
    }
    ShortfallsIndexed(tasks, runs, 0);
    assert tasks[0..] == tasks && runs[0..] == runs;
  }

  // ---------------------------------------------------------------------------
  // The plan

  lemma {:induction false} RequestedConcat(a: seq<Task>, b: seq<Task>)
    ensures Requested(a + b) == Requested(a) + Requested(b)
    decreases |a|
  {
    if a == [] {
      assert a + b == b;
    } else {
      assert (a + b)[1..] == a[1..] + b;
      RequestedConcat(a[1..], b);
    }
  }

  /** Taking one task out of the list takes its requested minutes out of the total. */
  lemma RequestedRemove(b: seq<Task>, i: nat)
    requires i < |b|
    ensures Requested(b) == Requested([b[i]]) + Requested(b[..i] + b[i + 1..])
  {
    var front, one, back := b[..i], [b[i]], b[i + 1..];
    assert b == front + (one + back);
    RequestedConcat(front, one + back);
    RequestedConcat(one, back);
    RequestedConcat(front, back);
  }

  /** Requested minutes do not depend on the order of the tasks. */
  lemma {:induction false} RequestedPerm(a: seq<Task>, b: seq<Task>)
    requires multiset(a) == multiset(b)
    ensures Requested(a) == Requested(b)
    decreases |a|
  {
    if a == [] {
      assert |b| == |multiset(b)| == 0;
    } else {
      assert a[0] in multiset(b);
      var i :| 0 <= i < |b| && b[i] == a[0];
      var rest := b[..i] + b[i + 1..];
      Sorting.RemoveMatching(a, b, i);
      RequestedPerm(a[1..], rest);
      RequestedRemove(b, i);
    }
  }

  /**
   * Totals of `allocateBlocks`: `totalBlocks` counts the blocks, `totalMinutes`
   * never exceeds the minutes requested, and equals them exactly when no task
   * is reported unscheduled.
   */
  lemma PlanTotals(tasks: seq<Task>, windows: seq<Interval>, source: Source)
    ensures var plan := AllocatePlan(tasks, windows, source);
            && plan.summary.totalBlocks == |plan.blocks|
            && plan.summary.totalMinutes <= Requested(tasks)
            && (plan.unscheduledTasks == [] <==> plan.summary.totalMinutes == Requested(tasks))
  {
    RunsAccount(SortTasks(tasks), SortByStart(windows), source);
    RequestedPerm(SortTasks(tasks), tasks);
  }

  /**
   * A title is in `unscheduledTasks` exactly when a task of that title was
   * given fewer minutes than it asked for; the list holds one title per such
   * task, in `sortTasks` order, repeated titles included.
   */
  lemma PlanUnscheduled(tasks: seq<Task>, windows: seq<Interval>, source: Source, title: string)
    ensures var ordered := SortTasks(tasks);
            var runs := PlanRuns(tasks, windows, source);
            title in AllocatePlan(tasks, windows, source).unscheduledTasks <==>
              exists g :: 0 <= g < |ordered| && ordered[g].title == title
                          && BlockMinutes(runs[g].blocks) < ordered[g].remainingMinutes
    ensures var ordered := SortTasks(tasks);
            var positions := ShortIndices(ordered, PlanRuns(tasks, windows, source), 0);
            var titles := AllocatePlan(tasks, windows, source).unscheduledTasks;
            |titles| == |positions| && forall i :: 0 <= i < |positions| ==> titles[i] == ordered[positions[i]].title
  {
    ShortfallsExact(SortTasks(tasks), SortByStart(windows), source, title);
    ShortfallsListed(SortTasks(tasks), SortByStart(windows), source);
  }

  /**
   * The blocks of the `g`-th task in `sortTasks` order carry that task and the
   * source, last 1 to 50 minutes, and add up to no more than it asked for.
   */
  lemma PlanRunBlocks(tasks: seq<Task>, windows: seq<Interval>, source: Source, g: nat)
    requires g < |tasks|
    ensures var task := SortTasks(tasks)[g];
            var run := PlanRuns(tasks, windows, source)[g];
            && (forall b :: b in run.blocks ==>
                  && b.taskId == task.id && b.title == task.title && b.source == source
                  && 0 < b.end - b.start <= MinBlockMinutes)
            && BlockMinutes(run.blocks) <= (if task.remainingMinutes > 0 then task.remainingMinutes else 0)
  {
    var ordered := SortTasks(tasks);
    var now := SlotsBefore(ordered, SortByStart(windows), source, g);
    RunsAreFills(ordered, SortByStart(windows), source, g);
    FillBlocks(ordered[g], source, now, 0, ordered[g].remainingMinutes);
    FillMinutes(ordered[g], source, now, 0, ordered[g].remainingMinutes);
  }

  /** Every block of the plan lies inside one of the windows it was given. */
  lemma PlanRunInWindows(tasks: seq<Task>, windows: seq<Interval>, source: Source, g: nat)
    requires g < |tasks|
    ensures forall b :: b in PlanRuns(tasks, windows, source)[g].blocks ==>
              exists w :: w in windows && Within(Span(b), w)
  {
    var ordered := SortTasks(tasks);
    var sorted := SortByStart(windows);
    var now := SlotsBefore(ordered, sorted, source, g);
    RunsAreFills(ordered, sorted, source, g);
    SlotsBeforeShrink(ordered, sorted, source, g);
    FillWithin(ordered[g], source, now, 0, ordered[g].remainingMinutes);
    forall b | b in Fill(ordered[g], source, now, 0, ordered[g].remainingMinutes).blocks
      ensures exists w :: w in windows && Within(Span(b), w)
    {
      var k :| 0 <= k < |now| && Within(Span(b), now[k]);
      assert sorted[k] in multiset(windows);
      assert Within(Span(b), sorted[k]);
    }
  }

  /** Blocks placed in shortened slots and buffered there are buffered in the original slots. */
  lemma BufferedShrunk(blocks: seq<Block>, slots: seq<Interval>, now: seq<Interval>)
    requires Separated(slots) && |now| == |slots|
    requires forall k :: 0 <= k < |slots| ==> now[k].end == slots[k].end && slots[k].start <= now[k].start
    requires Placed(blocks, now, 0) && Buffered(blocks, now)
    ensures Buffered(blocks, slots)
  {
    forall p, q, k | 0 <= p < q < |blocks| && 0 <= k < |slots|
                     && Within(Span(blocks[p]), slots[k]) && Within(Span(blocks[q]), slots[k])
      ensures blocks[p].end + BufferMinutes <= blocks[q].start
    {
      var bp, bq := blocks[p], blocks[q];
      assert bp in blocks && bq in blocks;
      var kp :| 0 <= kp < |now| && Within(Span(bp), now[kp]);
      var kq :| 0 <= kq < |now| && Within(Span(bq), now[kq]);
      OneSlot(Span(bp), slots, k, kp);
      OneSlot(Span(bq), slots, k, kq);
    }
  }

  /** Over separated slots, every run of the task loop is buffered within each slot. */
  lemma RunBuffered(tasks: seq<Task>, slots: seq<Interval>, source: Source, g: nat)
    requires g < |tasks|
    requires Separated(slots)
    ensures Buffered(Runs(tasks, slots, source)[g].blocks, slots)
  {
    var now := SlotsBefore(tasks, slots, source, g);
    var blocks := Fill(tasks[g], source, now, 0, tasks[g].remainingMinutes).blocks;
    RunsAreFills(tasks, slots, source, g);
    SlotsBeforeShrink(tasks, slots, source, g);
    assert Separated(now);
    FillBuffered(tasks[g], source, now, 0, tasks[g].remainingMinutes);
    FillPlaced(tasks[g], source, now, 0, tasks[g].remainingMinutes);
    BufferedShrunk(blocks, slots, now);
  }

  /**
   * Over windows that follow each other without overlapping, two blocks of one
   * task that lie in the same window are at least `BufferMinutes` apart.
   */
  lemma PlanRunBuffered(tasks: seq<Task>, windows: seq<Interval>, source: Source, g: nat)
    requires g < |tasks|
    requires Separated(SortByStart(windows))
    ensures var blocks := PlanRuns(tasks, windows, source)[g].blocks;
            forall p, q, w :: 0 <= p < q < |blocks| && w in windows
              && Within(Span(blocks[p]), w) && Within(Span(blocks[q]), w)
              ==> blocks[p].end + BufferMinutes <= blocks[q].start
  {
    var sorted := SortByStart(windows);
    var blocks := PlanRuns(tasks, windows, source)[g].blocks;
    RunBuffered(SortTasks(tasks), sorted, source, g);
    forall p, q, w | 0 <= p < q < |blocks| && w in windows
                     && Within(Span(blocks[p]), w) && Within(Span(blocks[q]), w)
      ensures blocks[p].end + BufferMinutes <= blocks[q].start
    {
      assert w in multiset(sorted);
      var k :| 0 <= k < |sorted| && sorted[k] == w;
    }
  }

  /**
   * Over windows that follow each other without overlapping, the blocks of one
   * task follow each other without overlapping. (Blocks of different tasks may
   * overlap: see `ExhaustedSlotReused`.)
   */
  lemma PlanRunInOrder(tasks: seq<Task>, windows: seq<Interval>, source: Source, g: nat)
    requires g < |tasks|
    requires Separated(SortByStart(windows))
    ensures InOrder(PlanRuns(tasks, windows, source)[g].blocks)
  {
    var ordered := SortTasks(tasks);
    var sorted := SortByStart(windows);
    var now := SlotsBefore(ordered, sorted, source, g);
    RunsAreFills(ordered, sorted, source, g);
    SlotsBeforeShrink(ordered, sorted, source, g);
    assert Separated(now);
    FillOrdered(ordered[g], source, now, 0, ordered[g].remainingMinutes);
  }

  /**
   * The blocks come grouped by task in `sortTasks` order: each block belongs to
   * one run, and a later block never belongs to an earlier task.
   */
  lemma PlanGrouped(tasks: seq<Task>, windows: seq<Interval>, source: Source, i: nat, j: nat)
    requires i <= j < |AllocatePlan(tasks, windows, source).blocks|
    ensures var runs := PlanRuns(tasks, windows, source);
            var blocks := AllocatePlan(tasks, windows, source).blocks;
            && blocks[i] in runs[Owner(runs, i)].blocks
            && blocks[i].taskId == SortTasks(tasks)[Owner(runs, i)].id
            && Owner(runs, i) <= Owner(runs, j)
  {
    var runs := PlanRuns(tasks, windows, source);
    OwnerMonotone(runs, i, j);
    PlanRunBlocks(tasks, windows, source, Owner(runs, i));
  }

  /**
   * Exhausted slots are not cleared and every task restarts at slot 0: with one
   * 55-minute slot, a 50-minute task takes [0, 50) and leaves the slot as it was
   * (the buffer ends past the slot), so the next task is given [0, 30) as well.
   */
  lemma ExhaustedSlotReused()
    ensures var a := Task(Some("a"), "A", None, 50, 2);
            var b := Task(Some("b"), "B", None, 30, 1);
            var plan := AllocatePlan([a, b], [Interval(0, 55)], PlannerSource);
            && |plan.blocks| == 2
            && plan.blocks[0].taskId == Some("a") && plan.blocks[1].taskId == Some("b")
            && Overlaps(Span(plan.blocks[0]), Span(plan.blocks[1]))
  {
    var a := Task(Some("a"), "A", None, 50, 2);
    var b := Task(Some("b"), "B", None, 30, 1);
    assert TaskLe(a, b);
    assert Sorting.Sort([b], TaskLe) == [b];
    assert Sorting.Sort([a, b], TaskLe) == [a, b];
    assert Sorting.Sort([Interval(0, 55)], StartLe) == [Interval(0, 55)];
    ExhaustedSlotRuns(a, b);
  }

  lemma ExhaustedSlotRuns(a: Task, b: Task)
    requires a == Task(Some("a"), "A", None, 50, 2) && b == Task(Some("b"), "B", None, 30, 1)
    ensures Flatten(Runs([a, b], [Interval(0, 55)], PlannerSource))
            == [Block(Some("a"), "A", 0, 50, PlannerSource), Block(Some("b"), "B", 0, 30, PlannerSource)]
  {
    var slots := [Interval(0, 55)];
    var runA := Fill(a, PlannerSource, slots, 0, 50);
    assert Fill(a, PlannerSource, slots, 1, 0) == TaskRun(slots, [], 0, 1);
    assert runA == TaskRun(slots, [Block(Some("a"), "A", 0, 50, PlannerSource)], 0, 1);
    var runB := Fill(b, PlannerSource, slots, 0, 30);
    var left := [Interval(40, 55)];
    assert slots[0 := Interval(40, 55)] == left;
    assert Fill(b, PlannerSource, left, 0, 0) == TaskRun(left, [], 0, 0);
    assert runB == TaskRun(left, [Block(Some("b"), "B", 0, 30, PlannerSource)], 0, 0);
    assert [a, b][1..] == [b] && [b][1..] == [];
    assert Runs([b], slots, PlannerSource) == [runB];
    assert Runs([a, b], slots, PlannerSource) == [runA, runB];
    assert [runA, runB][1..] == [runB] && [runB][1..] == [];
    assert Flatten([runB]) == runB.blocks;
  }
}
