/**
 * The task view: a filter (all / today / upcoming / completed) followed by a sort
 * (priority / deadline / time allocation). script.js:191-231 and
 * src/components/TaskManager.tsx:76-115 are the same code; "today" is a parameter.
 * The sort is a stable insertion sort by a key order.
 */
module TaskView {
  import opened Wrappers
  import opened Tasks

  datatype Filter = All | Today | Upcoming | CompletedOnly

  datatype SortKey = ByPriority | ByDeadline | ByTimeAllocation

  /** Whether filter `f` keeps task `t` on day `today`. */
  predicate Keeps(f: Filter, today: int, t: Task)
    ensures Keeps(f, today, t) && t.deadline.Some? && t.deadline.value < today ==> f == All || f == CompletedOnly
    ensures Keeps(f, today, t) && f == Today ==> t.deadline.Some?
    ensures t.deadline.None? && (f == All || f == Upcoming) ==> Keeps(f, today, t)
  {
    match f
    case All => true
    case Today => t.deadline.Some? && t.deadline.value == today
    case Upcoming => t.deadline.None? || t.deadline.value > today
    case CompletedOnly => t.status == Completed
  }

  /** `filtered.filter(...)`: the tasks that `f` keeps, each as often as in `tasks`. */
  function FilterTasks(f: Filter, today: int, tasks: seq<Task>): (r: seq<Task>)
    ensures forall i :: 0 <= i < |r| ==> Keeps(f, today, r[i])
    ensures forall t :: multiset(r)[t] == if Keeps(f, today, t) then multiset(tasks)[t] else 0
  {
    if tasks == [] then []
    else
      assert tasks == [tasks[0]] + tasks[1..];
      var rest := FilterTasks(f, today, tasks[1..]);
      if Keeps(f, today, tasks[0]) then [tasks[0]] + rest else rest
  }

  /** `{ high: 0, medium: 1, low: 2 }` */
  function PriorityRank(p: Priority): nat
  {
    match p
    case High => 0
    case Medium => 1
    case Low => 2
  }

  /** `task.timeAllocation || 0` */
  function Minutes(t: Task): nat
  {
    if t.timeAllocation.Some? then t.timeAllocation.value else 0
  }

  /** `a` may stand before `b` in a view sorted by `k`. By deadline: a task with a
      deadline before one without, earlier deadlines first, and no order among tasks
      that both lack a deadline. */
  predicate InOrder(k: SortKey, a: Task, b: Task)
  {
    match k
    case ByPriority => PriorityRank(a.priority) <= PriorityRank(b.priority)
    case ByDeadline => b.deadline.None? || (a.deadline.Some? && a.deadline.value <= b.deadline.value)
    case ByTimeAllocation => Minutes(a) <= Minutes(b)
  }

  lemma InOrderTotal(k: SortKey, a: Task, b: Task)
    ensures InOrder(k, a, b) || InOrder(k, b, a)
  {
  }

  lemma InOrderTransitive(k: SortKey, a: Task, b: Task, c: Task)
    requires InOrder(k, a, b) && InOrder(k, b, c)
    ensures InOrder(k, a, c)
  {
  }

  predicate Sorted(k: SortKey, s: seq<Task>)
  {
    forall i, j :: 0 <= i < j < |s| ==> InOrder(k, s[i], s[j])
  }

  /** A task that may precede every task of a sorted list may lead it. */
  lemma ConsSorted(k: SortKey, h: Task, s: seq<Task>)
    requires Sorted(k, s)
    requires forall j :: 0 <= j < |s| ==> InOrder(k, h, s[j])
    ensures Sorted(k, [h] + s)
  {
    var r := [h] + s;
    forall i, j | 0 <= i < j < |r| ensures InOrder(k, r[i], r[j]) {
      assert r[j] == s[j - 1];
      if i > 0 { assert r[i] == s[i - 1]; }
    }
  }

  /** What a task may precede in a list, it may precede in any permutation of the list. */
  lemma PrecedesPermutation(k: SortKey, h: Task, s: seq<Task>, r: seq<Task>)
    requires forall j :: 0 <= j < |s| ==> InOrder(k, h, s[j])
    requires multiset(r) == multiset(s)
    ensures forall j :: 0 <= j < |r| ==> InOrder(k, h, r[j])
  {
    forall j | 0 <= j < |r| ensures InOrder(k, h, r[j]) {
      assert r[j] in multiset(s);
      var m :| 0 <= m < |s| && s[m] == r[j];
    }
  }

  /** Inserts `x` before the first element it may precede: ahead of the tasks it ties
      with, which come later in the input, so the sort is stable. */
  function Insert(k: SortKey, x: Task, s: seq<Task>): (r: seq<Task>)
    requires Sorted(k, s)
    ensures Sorted(k, r)
    ensures multiset(r) == multiset(s) + multiset{x}
  {
    if s == [] || InOrder(k, x, s[0]) then
      forall j | 0 <= j < |s| ensures InOrder(k, x, s[j]) {
        if j > 0 { InOrderTransitive(k, x, s[0], s[j]); }
      }
      ConsSorted(k, x, s);
      [x] + s
    else
      assert s == [s[0]] + s[1..];
      InOrderTotal(k, x, s[0]);
      var tail := s[1..] + [x];
      forall j | 0 <= j < |tail| ensures InOrder(k, s[0], tail[j]) {
        if j < |s| - 1 { assert tail[j] == s[j + 1]; }
      }
      var rest := Insert(k, x, s[1..]);
      PrecedesPermutation(k, s[0], tail, rest);
      ConsSorted(k, s[0], rest);
      [s[0]] + rest
  }

  lemma FilterTasksCons(f: Filter, today: int, t: Task, s: seq<Task>)
    ensures FilterTasks(f, today, [t] + s) == (if Keeps(f, today, t) then [t] else []) + FilterTasks(f, today, s)
  {
    assert ([t] + s)[1..] == s;
  }

  /** Filtering distributes over concatenation: the kept tasks stay in stored order. */
  lemma {:induction false} FilterTasksConcat(f: Filter, today: int, a: seq<Task>, b: seq<Task>)
    ensures FilterTasks(f, today, a + b) == FilterTasks(f, today, a) + FilterTasks(f, today, b)
  {
    if a == [] {
      assert a + b == b;
    } else {
      assert a + b == [a[0]] + (a[1..] + b);
      assert a == [a[0]] + a[1..];
      FilterTasksCons(f, today, a[0], a[1..] + b);
      FilterTasksCons(f, today, a[0], a[1..]);
      FilterTasksConcat(f, today, a[1..], b);
      AppendAssociative(if Keeps(f, today, a[0]) then [a[0]] else [], FilterTasks(f, today, a[1..]),
                        FilterTasks(f, today, b));
    }
  }

  /** `filtered.sort(...)` for a key that the comparator orders consistently. */
  function SortTasks(k: SortKey, s: seq<Task>): (r: seq<Task>)
    ensures Sorted(k, r)
    ensures multiset(r) == multiset(s)
  {
    if s == [] then []
    else
      assert s == [s[0]] + s[1..];
      Insert(k, s[0], SortTasks(k, s[1..]))
  }

  /** `a` and `b` tie under `k`: the corrected comparator returns 0 for them. */
  predicate SameKey(k: SortKey, a: Task, b: Task)
  {
    InOrder(k, a, b) && InOrder(k, b, a)
  }

  /** The tasks of `s` that tie with `x`, in the order `s` lists them. */
  function Ties(k: SortKey, x: Task, s: seq<Task>): seq<Task>
  {
    if s == [] then [] else (if SameKey(k, s[0], x) then [s[0]] else []) + Ties(k, x, s[1..])
  }

  /** A task that cannot go after `y` does not tie with anything `y` ties with. */
  lemma NoTieAhead(k: SortKey, y: Task, x: Task, z: Task)
    requires SameKey(k, y, x) && !InOrder(k, y, z)
    ensures !SameKey(k, z, x)
  {
  }

  lemma TiesCons(k: SortKey, x: Task, a: Task, rest: seq<Task>)
    ensures Ties(k, x, [a] + rest) == (if SameKey(k, a, x) then [a] else []) + Ties(k, x, rest)
  {
    assert ([a] + rest)[1..] == rest;
  }

  /** Inserting `y` puts it ahead of every task it ties with. */
  lemma {:induction false} InsertTies(k: SortKey, y: Task, s: seq<Task>, x: Task)
    requires Sorted(k, s)
    ensures Ties(k, x, Insert(k, y, s)) == (if SameKey(k, y, x) then [y] else []) + Ties(k, x, s)
  {
    if s == [] || InOrder(k, y, s[0]) {
      TiesCons(k, x, y, s);
    } else {
      var rest := Insert(k, y, s[1..]);
      assert Insert(k, y, s) == [s[0]] + rest;
      TiesCons(k, x, s[0], rest);
      InsertTies(k, y, s[1..], x);
      assert s == [s[0]] + s[1..];
      TiesCons(k, x, s[0], s[1..]);
      if SameKey(k, y, x) {
        NoTieAhead(k, y, x, s[0]);
      }
    }
  }

  /** The sort is stable: tasks that tie keep the order they had in the input, as
      `Array.prototype.sort` guarantees. */
  lemma {:induction false} SortIsStable(k: SortKey, s: seq<Task>, x: Task)
    ensures Ties(k, x, SortTasks(k, s)) == Ties(k, x, s)
  {
    if s != [] {
      SortIsStable(k, s[1..], x);
      InsertTies(k, s[0], SortTasks(k, s[1..]), x);
    }
  }

  /** The kept tasks that tie with `x` are the ties of `x` that the filter keeps. */
  lemma {:induction false} FilterTies(f: Filter, today: int, k: SortKey, x: Task, s: seq<Task>)
    ensures Ties(k, x, FilterTasks(f, today, s)) == FilterTasks(f, today, Ties(k, x, s))
  {
    if s != [] {
      var h, kept, tied := s[0], FilterTasks(f, today, s[1..]), Ties(k, x, s[1..]);
      FilterTies(f, today, k, x, s[1..]);
      if Keeps(f, today, h) {
        assert FilterTasks(f, today, s) == [h] + kept;
        TiesCons(k, x, h, kept);
      } else {
        assert FilterTasks(f, today, s) == kept;
      }
      if SameKey(k, h, x) {
        assert Ties(k, x, s) == [h] + tied;
        FilterTasksCons(f, today, h, tied);
      } else {
        assert Ties(k, x, s) == tied;
      }
    }
  }

  /** Reordering kept tasks keeps only kept tasks. */
  lemma PermutationKeeps(f: Filter, today: int, s: seq<Task>, r: seq<Task>)
    requires forall i :: 0 <= i < |s| ==> Keeps(f, today, s[i])
    requires multiset(r) == multiset(s)
    ensures forall i :: 0 <= i < |r| ==> Keeps(f, today, r[i])
  {
    forall i | 0 <= i < |r| ensures Keeps(f, today, r[i]) {
      assert r[i] in multiset(s);
      var m :| 0 <= m < |s| && s[m] == r[i];
    }
  }

  /** `getFilteredTasks()`: filter, then sort. */
  function View(f: Filter, k: SortKey, today: int, tasks: seq<Task>): (r: seq<Task>)
    ensures multiset(r) == multiset(FilterTasks(f, today, tasks))
    ensures multiset(r) <= multiset(tasks)
    ensures forall i :: 0 <= i < |r| ==> Keeps(f, today, r[i])
    ensures Sorted(k, r)
  {
    var filtered := FilterTasks(f, today, tasks);
    var r := SortTasks(k, filtered);
    PermutationKeeps(f, today, filtered, r);
    r
  }

  /** Tasks that tie in the view appear in the order they are stored: the ties of the
      view are the ties of the filtered list, which are the stored ties the filter keeps. */
  lemma ViewTies(f: Filter, k: SortKey, today: int, tasks: seq<Task>, x: Task)
    ensures Ties(k, x, View(f, k, today, tasks)) == Ties(k, x, FilterTasks(f, today, tasks))
    ensures Ties(k, x, View(f, k, today, tasks)) == FilterTasks(f, today, Ties(k, x, tasks))
  {
    SortIsStable(k, FilterTasks(f, today, tasks), x);
    FilterTies(f, today, k, x, tasks);
  }

  /** A task is in the view exactly when it is in the list and the filter keeps it. */
  lemma ViewMembership(f: Filter, k: SortKey, today: int, tasks: seq<Task>, t: Task)
    ensures t in View(f, k, today, tasks) <==> t in tasks && Keeps(f, today, t)
  {
    var filtered := FilterTasks(f, today, tasks);
    assert multiset(View(f, k, today, tasks)) == multiset(filtered);
    assert t in View(f, k, today, tasks) <==> t in multiset(filtered);
    assert t in tasks <==> t in multiset(tasks);
  }

  /** "completed" shows exactly the completed tasks. */
  lemma CompletedViewIsExactlyCompleted(k: SortKey, today: int, tasks: seq<Task>, t: Task)
    ensures t in View(CompletedOnly, k, today, tasks) <==> t in tasks && t.status == Completed
  {
    ViewMembership(CompletedOnly, k, today, tasks, t);
  }

  /** "today" never shows a task without a deadline, and shows every task due today. */
  lemma TodayViewIsDueToday(k: SortKey, today: int, tasks: seq<Task>, t: Task)
    ensures t in View(Today, k, today, tasks) <==> t in tasks && t.deadline == Some(today)
  {
    ViewMembership(Today, k, today, tasks, t);
  }

  /** "upcoming" shows every task without a deadline and those due strictly after today. */
  lemma UpcomingViewContents(k: SortKey, today: int, tasks: seq<Task>, t: Task)
    ensures t in View(Upcoming, k, today, tasks) <==>
              t in tasks && (t.deadline.None? || t.deadline.value > today)
  {
    ViewMembership(Upcoming, k, today, tasks, t);
  }

  /** "all" shows every task, as often as it occurs. */
  lemma AllViewIsPermutation(k: SortKey, today: int, tasks: seq<Task>)
    ensures multiset(View(All, k, today, tasks)) == multiset(tasks)
  {
    var filtered := FilterTasks(All, today, tasks);
    assert multiset(filtered) == multiset(tasks);
  }

  /** Sorted by priority, no medium task precedes a high one and no low task precedes
      a medium or high one. */
  lemma PriorityViewOrder(f: Filter, today: int, tasks: seq<Task>, i: int, j: int)
    requires 0 <= i < j < |View(f, ByPriority, today, tasks)|
    ensures var r := View(f, ByPriority, today, tasks);
            !(r[i].priority == Medium && r[j].priority == High) &&
            !(r[i].priority == Low && r[j].priority != Low)
  {
    var r := View(f, ByPriority, today, tasks);
    assert InOrder(ByPriority, r[i], r[j]);
  }

  /** Sorted by deadline, every task with a deadline precedes every task without one,
      and deadlines ascend. Nothing is claimed about tasks without a deadline. */
  lemma DeadlineViewOrder(f: Filter, today: int, tasks: seq<Task>, i: int, j: int)
    requires 0 <= i < j < |View(f, ByDeadline, today, tasks)|
    requires View(f, ByDeadline, today, tasks)[j].deadline.Some?
    ensures var r := View(f, ByDeadline, today, tasks);
            r[i].deadline.Some? && r[i].deadline.value <= r[j].deadline.value
  {
    var r := View(f, ByDeadline, today, tasks);
    assert InOrder(ByDeadline, r[i], r[j]);
  }

  /** Sorted by time allocation, minutes never decrease (a missing value counts as 0). */
  lemma TimeAllocationViewOrder(f: Filter, today: int, tasks: seq<Task>, i: int, j: int)
    requires 0 <= i < j < |View(f, ByTimeAllocation, today, tasks)|
    ensures var r := View(f, ByTimeAllocation, today, tasks);
            Minutes(r[i]) <= Minutes(r[j])
  {
    var r := View(f, ByTimeAllocation, today, tasks);
    assert InOrder(ByTimeAllocation, r[i], r[j]);
  }

  /** The comparator as script.js:216-230 writes it: negative puts `a` first. */
  function SourceComparator(k: SortKey, a: Task, b: Task): (c: int)
    ensures k == ByPriority ==> (c < 0 <==> PriorityRank(a.priority) < PriorityRank(b.priority))
    ensures k == ByPriority ==> (c == 0 <==> a.priority == b.priority)
    ensures k == ByTimeAllocation ==> (c < 0 <==> Minutes(a) < Minutes(b)) && (c == 0 <==> Minutes(a) == Minutes(b))
    ensures k == ByDeadline ==>
              (c > 0 <==> a.deadline.None? || (b.deadline.Some? && a.deadline.value > b.deadline.value))
    ensures k == ByDeadline ==> (c == 0 <==> a.deadline.Some? && a.deadline == b.deadline)
  {
    match k
    case ByPriority => PriorityRank(a.priority) - PriorityRank(b.priority)
    case ByDeadline =>
      if a.deadline.None? then 1
      else if b.deadline.None? then -1
      else a.deadline.value - b.deadline.value
    case ByTimeAllocation => Minutes(a) - Minutes(b)
  }

  /** Two tasks without a deadline each claim to sort after the other: the comparator is
      not consistent, and the order `Array.prototype.sort` gives them is unspecified. */
  lemma SourceDeadlineComparatorInconsistent(a: Task, b: Task)
    requires a.deadline.None? && b.deadline.None?
    ensures SourceComparator(ByDeadline, a, b) > 0 && SourceComparator(ByDeadline, b, a) > 0
  {
  }

  /** Outside that case the written comparator agrees with the key order. */
  lemma SourceComparatorAgreesElsewhere(k: SortKey, a: Task, b: Task)
    requires k == ByDeadline ==> a.deadline.Some? || b.deadline.Some?
    ensures SourceComparator(k, a, b) <= 0 <==> InOrder(k, a, b)
    ensures SourceComparator(k, a, b) >= 0 <==> InOrder(k, b, a)
  {
  }

  /** The comparator with the tie the source evidently meant: two tasks without a
      deadline compare equal. It is consistent, and it is the order the sort uses. */
  function Compare(k: SortKey, a: Task, b: Task): (c: int)
    ensures c <= 0 <==> InOrder(k, a, b)
    ensures c >= 0 <==> InOrder(k, b, a)
  {
    if k == ByDeadline && a.deadline.None? && b.deadline.None? then 0
    else SourceComparator(k, a, b)
  }
}
