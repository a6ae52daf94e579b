/**
 * The dashboard figures of script.js:400-423 and src/components/TaskManager.tsx:137-146,198:
 * tasks completed today, open high-priority tasks, and allocated hours.
 */
module TaskStats {
  import opened Wrappers
  import opened Tasks
  import TaskView
  import TaskManager

  /** `tasks.filter(p).length` */
  function CountWhere(tasks: seq<Task>, p: Task -> bool): (n: nat)
    ensures n <= |tasks|
    ensures n == 0 <==> forall i :: 0 <= i < |tasks| ==> !p(tasks[i])
    ensures n == |tasks| <==> forall i :: 0 <= i < |tasks| ==> p(tasks[i])
  {
    if tasks == [] then 0
    else
      var rest := CountWhere(tasks[1..], p);
      assert forall i :: 1 <= i < |tasks| ==> tasks[i] == tasks[1..][i - 1];
      (if p(tasks[0]) then 1 else 0) + rest
  }

  lemma {:induction false} CountWhereConcat(a: seq<Task>, b: seq<Task>, p: Task -> bool)
    ensures CountWhere(a + b, p) == CountWhere(a, p) + CountWhere(b, p)
  {
    if a == [] {
      assert a + b == b;
    } else {
      assert (a + b)[1..] == a[1..] + b;
      CountWhereConcat(a[1..], b, p);
    }
  }

  /** The test of `completedToday`: completed, and created on day `today`. */
  function CompletedOn(today: int): Task -> bool
  {
    (t: Task) => t.status == Completed && t.createdAt == today
  }

  /** The test of `highPriorityCount`. */
  predicate OpenHigh(t: Task)
  {
    t.priority == High && t.status != Completed
  }

  /** Completed tasks whose creation day is today. */
  function CompletedToday(tasks: seq<Task>, today: int): (n: nat)
    ensures n <= |tasks|
    ensures n == 0 <==>
              forall i :: 0 <= i < |tasks| ==> tasks[i].status != Completed || tasks[i].createdAt != today
    ensures n == |tasks| <==>
              forall i :: 0 <= i < |tasks| ==> tasks[i].status == Completed && tasks[i].createdAt == today
  {
    CountWhere(tasks, CompletedOn(today))
  }

  /** High-priority tasks that are not completed. */
  function OpenHighPriority(tasks: seq<Task>): (n: nat)
    ensures n <= |tasks|
    ensures n == 0 <==>
              forall i :: 0 <= i < |tasks| ==> tasks[i].priority != High || tasks[i].status == Completed
    ensures n == |tasks| <==>
              forall i :: 0 <= i < |tasks| ==> tasks[i].priority == High && tasks[i].status != Completed
  {
    CountWhere(tasks, OpenHigh)
  }

  /** `tasks.reduce((total, task) => total + (task.timeAllocation || 0), 0)` */
  function TotalMinutes(tasks: seq<Task>): (total: nat)
    ensures forall t :: t in tasks ==> TaskView.Minutes(t) <= total
    ensures total == 0 <==> forall t :: t in tasks ==> TaskView.Minutes(t) == 0
  {
    if tasks == [] then 0
    else
      assert forall t :: t in tasks ==> t == tasks[0] || t in tasks[1..];
      TaskView.Minutes(tasks[0]) + TotalMinutes(tasks[1..])
  }

  lemma {:induction false} TotalMinutesConcat(a: seq<Task>, b: seq<Task>)
    ensures TotalMinutes(a + b) == TotalMinutes(a) + TotalMinutes(b)
  {
    if a == [] {
      assert a + b == b;
    } else {
      assert (a + b)[1..] == a[1..] + b;
      TotalMinutesConcat(a[1..], b);
    }
  }

  /** `Math.round(minutes / 60)`: the nearest whole number of hours, a half hour rounding up. */
  function RoundToHours(minutes: nat): (h: nat)
    ensures -30 <= minutes - 60 * h < 30
  {
    (minutes + 30) / 60
  }

  /** The "hrs" figure of the dashboard. */
  function AllocatedHours(tasks: seq<Task>): (h: nat)
    ensures -30 <= TotalMinutes(tasks) - 60 * h < 30
  {
    RoundToHours(TotalMinutes(tasks))
  }

  /** Adding a task raises each figure by exactly that task's share. */
  lemma StatsAfterAdd(tasks: seq<Task>, task: Task, today: int)
    ensures CompletedToday(TaskManager.AddTask(tasks, task), today) ==
              CompletedToday(tasks, today) + (if task.status == Completed && task.createdAt == today then 1 else 0)
    ensures OpenHighPriority(TaskManager.AddTask(tasks, task)) ==
              OpenHighPriority(tasks) + (if task.priority == High && task.status != Completed then 1 else 0)
    ensures TotalMinutes(TaskManager.AddTask(tasks, task)) == TotalMinutes(tasks) + TaskView.Minutes(task)
  {
    CountWhereConcat(tasks, [task], CompletedOn(today));
    CountWhereConcat(tasks, [task], OpenHigh);
    TotalMinutesConcat(tasks, [task]);
  }

  lemma CountWhereCons(x: Task, b: seq<Task>, p: Task -> bool)
    ensures CountWhere([x] + b, p) == (if p(x) then 1 else 0) + CountWhere(b, p)
  {
    assert ([x] + b)[1..] == b;
  }

  lemma TotalMinutesCons(x: Task, b: seq<Task>)
    ensures TotalMinutes([x] + b) == TaskView.Minutes(x) + TotalMinutes(b)
  {
    assert ([x] + b)[1..] == b;
  }

  lemma SplitAt(tasks: seq<Task>, k: nat)
    requires k < |tasks|
    ensures tasks == tasks[..k] + ([tasks[k]] + tasks[k + 1..])
    ensures TaskManager.RemoveAt(tasks, k) == tasks[..k] + tasks[k + 1..]
  {
    assert tasks[k..] == [tasks[k]] + tasks[k + 1..];
    assert tasks == tasks[..k] + tasks[k..];
  }

  /** Counting splits around any one position. */
  lemma CountWhereSplit(tasks: seq<Task>, k: nat, p: Task -> bool)
    requires k < |tasks|
    ensures CountWhere(tasks, p) == CountWhere(TaskManager.RemoveAt(tasks, k), p) + (if p(tasks[k]) then 1 else 0)
  {
    var a, x, b := tasks[..k], tasks[k], tasks[k + 1..];
    SplitAt(tasks, k);
    CountWhereConcat(a, [x] + b, p);
    CountWhereCons(x, b, p);
    CountWhereConcat(a, b, p);
  }

  /** Summing splits around any one position. */
  lemma TotalMinutesSplit(tasks: seq<Task>, k: nat)
    requires k < |tasks|
    ensures TotalMinutes(tasks) == TotalMinutes(TaskManager.RemoveAt(tasks, k)) + TaskView.Minutes(tasks[k])
  {
    var a, x, b := tasks[..k], tasks[k], tasks[k + 1..];
    SplitAt(tasks, k);
    TotalMinutesConcat(a, [x] + b);
    TotalMinutesCons(x, b);
    TotalMinutesConcat(a, b);
  }

  /** Reordering by drag and drop leaves every dashboard figure as it was. */
  lemma StatsUnchangedByDrag(tasks: seq<Task>, source: nat, destination: nat, today: int)
    requires source < |tasks| && destination < |tasks|
    ensures var r := TaskManager.HandleDragEnd(tasks, source, Some(destination));
            CompletedToday(r, today) == CompletedToday(tasks, today) &&
            OpenHighPriority(r) == OpenHighPriority(tasks) &&
            AllocatedHours(r) == AllocatedHours(tasks)
  {
    var r := TaskManager.HandleDragEnd(tasks, source, Some(destination));
    CountUnchangedByMove(tasks, r, source, destination, CompletedOn(today));
    CountUnchangedByMove(tasks, r, source, destination, OpenHigh);
    TotalMinutesSplit(tasks, source);
    TotalMinutesSplit(r, destination);
  }

  /** Moving one task to another position leaves a count as it was. */
  lemma CountUnchangedByMove(tasks: seq<Task>, r: seq<Task>, i: nat, j: nat, p: Task -> bool)
    requires i < |tasks| && j < |r|
    requires r[j] == tasks[i] && TaskManager.RemoveAt(r, j) == TaskManager.RemoveAt(tasks, i)
    ensures CountWhere(r, p) == CountWhere(tasks, p)
  {
    CountWhereSplit(tasks, i, p);
    CountWhereSplit(r, j, p);
  }

  /** Changing one open high-priority task into one that is not lowers the count by one. */
  lemma OpenHighAfterChangeAt(tasks: seq<Task>, r: seq<Task>, k: nat)
    requires |r| == |tasks| && k < |tasks|
    requires forall i :: 0 <= i < |tasks| && i != k ==> r[i] == tasks[i]
    requires OpenHigh(tasks[k]) && !OpenHigh(r[k])
    ensures CountWhere(r, OpenHigh) == CountWhere(tasks, OpenHigh) - 1
  {
    assert r[..k] == tasks[..k];
    assert r[k + 1..] == tasks[k + 1..];
    assert TaskManager.RemoveAt(r, k) == TaskManager.RemoveAt(tasks, k);
    CountWhereSplit(tasks, k, OpenHigh);
    CountWhereSplit(r, k, OpenHigh);
  }

  /** Completing the one task with a given id, an open high-priority task, lowers the
      open high-priority count by one. */
  lemma CompletingHighPriorityTask(tasks: seq<Task>, k: nat)
    requires UniqueIds(tasks) && k < |tasks|
    requires tasks[k].priority == High && tasks[k].status == InProgress
    ensures OpenHighPriority(TaskManager.UpdateTask(tasks, tasks[k].id, StatusPatch(Completed))) ==
              OpenHighPriority(tasks) - 1
  {
    var r := TaskManager.UpdateTask(tasks, tasks[k].id, StatusPatch(Completed));
    forall i | 0 <= i < |tasks| && i != k ensures r[i] == tasks[i] {
      assert tasks[i].id != tasks[k].id;
    }
    assert r[k] == tasks[k].(status := Completed);
    OpenHighAfterChangeAt(tasks, r, k);
  }
}
