/**
 * Task sequencer (`sortTasks`, backend/src/services/planner.js): priority
 * descending, then deadline ascending with "no deadline" last, then title.
 */
module Sequencer {
  import opened PlannerTime
  import opened Wrappers
  import Sorting

  /**
   * A task as the planner receives it. `deadline` is already normalised (a
   * valid instant or none); `remainingMinutes` stands for
   * `Math.round(remainingHours * 60)`.
   */
  datatype Task = Task(
    id: Option<string>,
    title: string,
    deadline: Option<int>,
    remainingMinutes: int,
    priority: int)

  // ---------------------------------------------------------------------------
  // Titles: `localeCompare`, taken as lexicographic order on character codes

  /** Sign of the lexicographic comparison of two titles: -1, 0 or 1. */
  function TitleCompare(a: string, b: string): (r: int)
    ensures -1 <= r <= 1
    ensures r == 0 <==> a == b
  {
    if a == [] && b == [] then 0
    else if a == [] then -1
    else if b == [] then 1
    else if a[0] < b[0] then -1
    else if a[0] > b[0] then 1
    else
      var r := TitleCompare(a[1..], b[1..]);
      assert a == [a[0]] + a[1..] && b == [b[0]] + b[1..];
      r
  }

  /**
   * Reference definition of lexicographic order: `a` is a prefix of `b`, or at
   * the first position where they differ `a` has the smaller character.
   */
  ghost predicate LexLe(a: string, b: string) {
    exists k :: 0 <= k <= |a| && k <= |b| && a[..k] == b[..k]
                && (k == |a| || (k < |b| && a[k] < b[k]))
  }

  /** The recursive comparison agrees with the reference order. */
  lemma {:induction false} TitleCompareIsLex(a: string, b: string)
    ensures TitleCompare(a, b) <= 0 <==> LexLe(a, b)
  {
    if a == [] {
      assert a[..0] == b[..0];
    } else if b == [] {
      assert !LexLe(a, b);
    } else if a[0] < b[0] {
      assert a[..0] == b[..0];
    } else if a[0] > b[0] {
      assert forall k :: 0 < k <= |a| && k <= |b| ==> a[..k][0] == a[0] && b[..k][0] == b[0];
      assert !LexLe(a, b);
    } else {
      TitleCompareIsLex(a[1..], b[1..]);
      LexLeTail(a, b);
    }
  }

  /** Titles with the same first character compare as their tails do. */
  lemma LexLeTail(a: string, b: string)
    requires a != [] && b != [] && a[0] == b[0]
    ensures LexLe(a, b) <==> LexLe(a[1..], b[1..])
  {
    if LexLe(a[1..], b[1..]) {
      var k :| 0 <= k <= |a[1..]| && k <= |b[1..]| && a[1..][..k] == b[1..][..k]
               && (k == |a[1..]| || (k < |b[1..]| && a[1..][k] < b[1..][k]));
      assert a[..k + 1] == [a[0]] + a[1..][..k];
      assert b[..k + 1] == [b[0]] + b[1..][..k];
      assert k < |a[1..]| ==> a[k + 1] == a[1..][k];
      assert k < |b[1..]| ==> b[k + 1] == b[1..][k];
      assert a[..k + 1] == b[..k + 1] && (k + 1 == |a| || (k + 1 < |b| && a[k + 1] < b[k + 1]));
    }
    if LexLe(a, b) {
      var k :| 0 <= k <= |a| && k <= |b| && a[..k] == b[..k] && (k == |a| || (k < |b| && a[k] < b[k]));
      assert k > 0;
      assert a[1..][..k - 1] == a[..k][1..];
      assert b[1..][..k - 1] == b[..k][1..];
    }
  }

  lemma {:induction false} TitleCompareFlip(a: string, b: string)
    ensures TitleCompare(b, a) == -TitleCompare(a, b)
  {
    if a != [] && b != [] && a[0] == b[0] {
      TitleCompareFlip(a[1..], b[1..]);
    }
  }

  lemma {:induction false} TitleCompareTrans(a: string, b: string, c: string)
    requires TitleCompare(a, b) <= 0 && TitleCompare(b, c) <= 0
    ensures TitleCompare(a, c) <= 0
  {
    if a != [] && b != [] && c != [] && a[0] == b[0] == c[0] {
      TitleCompareTrans(a[1..], b[1..], c[1..]);
    }
  }

  // ---------------------------------------------------------------------------
  // The comparator

  /** `deadlineA - deadlineB` with a missing deadline read as +Infinity, as a sign when infinite. */
  function DeadlineCompare(a: Option<int>, b: Option<int>): int {
    match (a, b)
    case (Some(x), Some(y)) => x - y
    case (Some(_), None) => -1
    case (None, Some(_)) => 1
    case (None, None) => 0
  }

  /**
   * The comparator passed to `sort` in `sortTasks`: negative puts `a` first.
   * Higher priority first, then the earlier deadline (a task with one before a
   * task without), then the title; zero only for equal keys.
   */
  function Compare(a: Task, b: Task): (r: int)
    ensures a.priority > b.priority ==> r < 0
    ensures a.priority < b.priority ==> r > 0
    ensures a.priority == b.priority && DeadlineEarlier(a.deadline, b.deadline) ==> r < 0
    ensures a.priority == b.priority && DeadlineEarlier(b.deadline, a.deadline) ==> r > 0
    ensures r == 0 <==> a.priority == b.priority && a.deadline == b.deadline && a.title == b.title
  {
    if b.priority != a.priority then b.priority - a.priority
    else if a.deadline != b.deadline then DeadlineCompare(a.deadline, b.deadline)
    else TitleCompare(a.title, b.title)
  }

  /** `a` may come before `b`: the comparator does not put `b` first. */
  predicate TaskLe(a: Task, b: Task) {
    Compare(a, b) <= 0
  }

  /** `a` has the earlier deadline; a missing deadline is later than every date. */
  predicate DeadlineEarlier(a: Option<int>, b: Option<int>) {
    a.Some? && (b.None? || a.value < b.value)
  }

  /** The documented order, independent of the comparator's arithmetic. */
  ghost predicate InScheduleOrder(a: Task, b: Task) {
    || a.priority > b.priority
    || (a.priority == b.priority && DeadlineEarlier(a.deadline, b.deadline))
    || (a.priority == b.priority && a.deadline == b.deadline && LexLe(a.title, b.title))
  }

  /** The comparator's "no later than" is exactly the documented order. */
  lemma TaskLeIsScheduleOrder(a: Task, b: Task)
    ensures TaskLe(a, b) <==> InScheduleOrder(a, b)
  {
    TitleCompareIsLex(a.title, b.title);
  }

  lemma TaskLeIsTotalPreorder()
    ensures Sorting.TotalPreorder(TaskLe)
  {
    forall a, b ensures TaskLe(a, b) || TaskLe(b, a) {
      TitleCompareFlip(a.title, b.title);
    }
    forall a, b, c | TaskLe(a, b) && TaskLe(b, c) ensures TaskLe(a, c) {
      if a.priority == b.priority == c.priority && a.deadline == b.deadline == c.deadline {
        TitleCompareTrans(a.title, b.title, c.title);
      }
    }
  }

  /** `sortTasks`: a sorted copy; the caller's sequence is a value and stays as it was. */
  function SortTasks(tasks: seq<Task>): (r: seq<Task>)
    ensures multiset(r) == multiset(tasks)
    ensures Sorting.SortedBy(TaskLe, r)
  {
    TaskLeIsTotalPreorder();
    Sorting.SortSorted(tasks, TaskLe);
    Sorting.Sort(tasks, TaskLe)
  }

  /**
   * The sorted tasks are a permutation of the input in the documented order:
   * priority descending, then deadline ascending with none last, then title.
   */
  lemma SortTasksOrder(tasks: seq<Task>)
    ensures multiset(SortTasks(tasks)) == multiset(tasks)
    ensures forall i, j :: 0 <= i < j < |SortTasks(tasks)| ==>
              InScheduleOrder(SortTasks(tasks)[i], SortTasks(tasks)[j])
  {
    var r := SortTasks(tasks);
    forall i, j | 0 <= i < j < |r| ensures InScheduleOrder(r[i], r[j]) {
      TaskLeIsScheduleOrder(r[i], r[j]);
    }
  }
}
