/**
 * The list operations of src/components/TaskManager.tsx. Each builds a new list that
 * `setTasks` commits; deletion is `Tasks.WithoutId`, shared with script.js.
 */
module TaskManager {
  import opened Wrappers
  import opened Tasks
  import TaskView

  /** `setTasks([...tasks, task])` */
  function AddTask(tasks: seq<Task>, task: Task): (r: seq<Task>)
    ensures |r| == |tasks| + 1 && r[..|tasks|] == tasks && r[|tasks|] == task
  {
    tasks + [task]
  }

  /** Adding a task with a fresh id and deleting that id gives back the list. */
  lemma AddThenDelete(tasks: seq<Task>, task: Task)
    requires !HasId(tasks, task.id)
    ensures WithoutId(AddTask(tasks, task), task.id) == tasks
  {
    WithoutIdConcat(tasks, [task], task.id);
    assert WithoutId([task], task.id) == [];
  }

  /** Adding a task with a fresh id keeps ids unique. */
  lemma AddKeepsUnique(tasks: seq<Task>, task: Task)
    requires UniqueIds(tasks) && !HasId(tasks, task.id)
    ensures UniqueIds(AddTask(tasks, task))
  {
  }

  /** `tasks.map(task => task.id === id ? { ...task, ...updates } : task)`: every task
      with the id gets the update, every other task is left as it was. */
  function UpdateTask(tasks: seq<Task>, id: TaskId, updates: Patch): (r: seq<Task>)
    ensures |r| == |tasks|
    ensures forall i :: 0 <= i < |tasks| ==>
              r[i] == if tasks[i].id == id then Merge(tasks[i], updates) else tasks[i]
  {
    if tasks == [] then []
    else
      var head := if tasks[0].id == id then Merge(tasks[0], updates) else tasks[0];
      [head] + UpdateTask(tasks[1..], id, updates)
  }

  /** An update for an id that is not in the list changes nothing. */
  lemma UpdateUnknownIdIsNoop(tasks: seq<Task>, id: TaskId, updates: Patch)
    requires !HasId(tasks, id)
    ensures UpdateTask(tasks, id, updates) == tasks
  {
  }

  /** An update that carries no id keeps ids unique. */
  lemma UpdateKeepsUnique(tasks: seq<Task>, id: TaskId, updates: Patch)
    requires UniqueIds(tasks) && updates.id.None?
    ensures UniqueIds(UpdateTask(tasks, id, updates))
  {
  }

  function RemoveAt(s: seq<Task>, i: nat): seq<Task>
    requires i < |s|
  {
    s[..i] + s[i + 1..]
  }

  function InsertAt(s: seq<Task>, i: nat, x: Task): seq<Task>
    requires i <= |s|
  {
    s[..i] + [x] + s[i..]
  }

  /** `handleDragEnd`: without a destination nothing changes; otherwise the task at
      `source` is spliced out and spliced back in at `destination`. The library hands
      over indices inside the list. */
  function HandleDragEnd(tasks: seq<Task>, source: nat, destination: Option<nat>): (r: seq<Task>)
    requires source < |tasks|
    requires destination.Some? ==> destination.value < |tasks|
    ensures destination.None? ==> r == tasks
    ensures |r| == |tasks|
    ensures multiset(r) == multiset(tasks)
    ensures destination.Some? ==> r[destination.value] == tasks[source]
    ensures destination.Some? ==> RemoveAt(r, destination.value) == RemoveAt(tasks, source)
  {
    if destination.None? then tasks
    else
      var rest := RemoveAt(tasks, source);
      var to := destination.value;
      assert tasks == tasks[..source] + [tasks[source]] + tasks[source + 1..];
      assert multiset(tasks) == multiset(rest) + multiset{tasks[source]};
      assert rest == rest[..to] + rest[to..];
      var r := InsertAt(rest, to, tasks[source]);
      assert r[..to] == rest[..to] && r[to + 1..] == rest[to..];
      assert multiset(r) == multiset(rest[..to]) + multiset{tasks[source]} + multiset(rest[to..]);
      r
  }

  /** Two lists that agree at `i` and agree once position `i` is removed are equal. */
  lemma EqualAroundPosition(x: seq<Task>, y: seq<Task>, i: nat)
    requires i < |x| && |x| == |y|
    requires x[i] == y[i] && RemoveAt(x, i) == RemoveAt(y, i)
    ensures x == y
  {
    forall j | 0 <= j < |x| ensures x[j] == y[j] {
      if j < i {
        assert x[j] == RemoveAt(x, i)[j];
        assert y[j] == RemoveAt(y, i)[j];
      } else if j > i {
        assert x[j] == RemoveAt(x, i)[j - 1];
        assert y[j] == RemoveAt(y, i)[j - 1];
      }
    }
  }

  /** Dragging a task back to where it came from restores the list. */
  lemma DragBackRestores(tasks: seq<Task>, source: nat, destination: nat)
    requires source < |tasks| && destination < |tasks|
    ensures HandleDragEnd(HandleDragEnd(tasks, source, Some(destination)), destination, Some(source)) == tasks
  {
    var moved := HandleDragEnd(tasks, source, Some(destination));
    var back := HandleDragEnd(moved, destination, Some(source));
    EqualAroundPosition(back, tasks, source);
  }

  /** The first position of `x` in `s`. */
  function IndexOf(s: seq<Task>, x: Task): (i: nat)
    requires x in s
    ensures i < |s| && s[i] == x
    ensures forall j :: 0 <= j < i ==> s[j] != x
  {
    if s[0] == x then 0 else 1 + IndexOf(s[1..], x)
  }

  /** The drag as the screen shows it: the list on screen is a filtered, sorted view, and
      the library reports positions in that view. The task shown at `source` moves to the
      stored position of the task shown at `destination`; everything else keeps its
      stored order. */
  function DragInView(tasks: seq<Task>, view: seq<Task>, source: nat, destination: Option<nat>): (r: seq<Task>)
    requires multiset(view) <= multiset(tasks)
    requires source < |view|
    requires destination.Some? ==> destination.value < |view|
    ensures destination.None? ==> r == tasks
    ensures |r| == |tasks| && multiset(r) == multiset(tasks)
    ensures destination.Some? ==>
              view[source] in tasks && view[destination.value] in tasks &&
              r[IndexOf(tasks, view[destination.value])] == view[source] &&
              RemoveAt(r, IndexOf(tasks, view[destination.value])) ==
                RemoveAt(tasks, IndexOf(tasks, view[source]))
  {
    assert view[source] in multiset(view);
    if destination.None? then tasks
    else
      assert view[destination.value] in multiset(view);
      HandleDragEnd(tasks, IndexOf(tasks, view[source]),
                    Some(IndexOf(tasks, view[destination.value])))
  }

  /** When the view is the whole stored list, with ids unique, the drag is the one the
      source performs. */
  lemma DragInWholeListIsHandleDragEnd(tasks: seq<Task>, source: nat, destination: Option<nat>)
    requires UniqueIds(tasks)
    requires source < |tasks|
    requires destination.Some? ==> destination.value < |tasks|
    ensures DragInView(tasks, tasks, source, destination) == HandleDragEnd(tasks, source, destination)
  {
    assert IndexOf(tasks, tasks[source]) == source;
    if destination.Some? {
      assert IndexOf(tasks, tasks[destination.value]) == destination.value;
    }
  }

  /** The completed filter keeps two completed tasks. */
  lemma CompletedPairFilter(x: Task, y: Task)
    requires x.status == Completed && y.status == Completed
    ensures TaskView.FilterTasks(TaskView.CompletedOnly, 0, [x, y]) == [x, y]
  {
    assert [x, y][1..] == [y] && [y][1..] == [];
  }

  /** The priority sort keeps two tasks of equal priority in place. */
  lemma EqualPriorityPairSort(x: Task, y: Task)
    requires x.priority == y.priority
    ensures TaskView.SortTasks(TaskView.ByPriority, [x, y]) == [x, y]
  {
    assert [x, y][1..] == [y] && [y][1..] == [];
    assert TaskView.SortTasks(TaskView.ByPriority, [y]) == [y];
  }

  /** The completed view of two completed tasks of equal priority keeps their order. */
  lemma CompletedPairView(x: Task, y: Task)
    requires x.status == Completed && y.status == Completed && x.priority == y.priority
    ensures TaskView.View(TaskView.CompletedOnly, TaskView.ByPriority, 0, [x, y]) == [x, y]
  {
    CompletedPairFilter(x, y);
    EqualPriorityPairSort(x, y);
  }

  /** A task the filter drops does not show in the view. */
  lemma DroppedHeadView(t: Task, x: Task, y: Task)
    requires t.status != Completed
    ensures TaskView.View(TaskView.CompletedOnly, TaskView.ByPriority, 0, [t, x, y]) ==
            TaskView.View(TaskView.CompletedOnly, TaskView.ByPriority, 0, [x, y])
  {
    assert [t, x, y][1..] == [x, y];
  }

  /** A task the filter drops, inside the list, does not show in the view. */
  lemma DroppedMiddleView(x: Task, t: Task, y: Task)
    requires t.status != Completed
    ensures TaskView.View(TaskView.CompletedOnly, TaskView.ByPriority, 0, [x, t, y]) ==
            TaskView.View(TaskView.CompletedOnly, TaskView.ByPriority, 0, [x, y])
  {
    assert [x, t, y][1..] == [t, y] && [t, y][1..] == [y] && [x, y][1..] == [y];
    assert TaskView.FilterTasks(TaskView.CompletedOnly, 0, [x, t, y]) ==
           TaskView.FilterTasks(TaskView.CompletedOnly, 0, [x, y]);
  }

  /** `handleDragEnd(1, 0)` on three tasks moves the second stored task. */
  lemma ExampleAsWritten(a: Task, b: Task, c: Task)
    ensures HandleDragEnd([a, b, c], 1, Some(0)) == [b, a, c]
  {
    assert RemoveAt([a, b, c], 1) == [a, c] == RemoveAt([b, a, c], 0);
    EqualAroundPosition(HandleDragEnd([a, b, c], 1, Some(0)), [b, a, c], 0);
  }

  /** The drag of view position 1 onto view position 0 moves `c` in front of `b`. */
  lemma ExampleCorrected(a: Task, b: Task, c: Task)
    requires a != c && b != c && a != b
    ensures DragInView([a, b, c], [b, c], 1, Some(0)) == [a, c, b]
  {
    assert IndexOf([a, b, c], c) == 2 by {
      assert [a, b, c][1..] == [b, c] && [b, c][1..] == [c];
    }
    assert IndexOf([a, b, c], b) == 1 by {
      assert [a, b, c][1..] == [b, c];
    }
    assert RemoveAt([a, b, c], 2) == [a, b] == RemoveAt([a, c, b], 1);
    EqualAroundPosition(HandleDragEnd([a, b, c], 2, Some(1)), [a, c, b], 1);
  }

  /** Take `a` open and `b`, `c` completed with equal priority, stored as `[a, b, c]`.
      With the completed filter and the priority sort the screen shows `[b, c]`.
      Dragging `c` (view position 1) above `b` (view position 0) makes `handleDragEnd`
      splice stored position 1, which holds `b`: the stored list becomes `[b, a, c]` and
      the view still shows `[b, c]`. The drag applied to the view's tasks gives
      `[a, c, b]`, and the view then shows `[c, b]` as dragged. */
  lemma DragInFilteredViewMovesAnotherTask(a: Task, b: Task, c: Task)
    requires a.status == NotStarted && b.status == Completed && c.status == Completed
    requires b.priority == c.priority && b != c
    ensures TaskView.View(TaskView.CompletedOnly, TaskView.ByPriority, 0, [a, b, c]) == [b, c]
    ensures TaskView.View(TaskView.CompletedOnly, TaskView.ByPriority, 0,
                          HandleDragEnd([a, b, c], 1, Some(0))) == [b, c]
    ensures TaskView.View(TaskView.CompletedOnly, TaskView.ByPriority, 0,
                          DragInView([a, b, c], [b, c], 1, Some(0))) == [c, b]
  {
    DroppedHeadView(a, b, c);
    CompletedPairView(b, c);
    ExampleAsWritten(a, b, c);
    DroppedMiddleView(b, a, c);
    CompletedPairView(c, b);
    ExampleCorrected(a, b, c);
    DroppedHeadView(a, c, b);
  }
}
