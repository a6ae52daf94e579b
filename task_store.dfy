/**
 * The task store of script.js: the global `tasks` array and the `activeTimers` map of
 * per-task stopwatches, changed in place by the task operations. Ids and clock readings
 * (`Date.now()`, `new Date()`) are parameters.
 */
module TaskStore {
  import opened Wrappers
  import opened Tasks
  import TaskManager

  /** An `activeTimers` entry: seconds counted up since the stopwatch started. The
      interval handle it also holds is not modelled. */
  datatype Stopwatch = Stopwatch(timeSpent: nat, startTime: int)

  /** The task data the add form collects before `addTask` stamps it. */
  datatype Draft = Draft(
    title: string,
    description: Option<string>,
    deadline: Option<int>,
    timeAllocation: Option<nat>,
    priority: Priority,
    status: Status)

  /** `task.id = Date.now().toString(); task.createdAt = new Date()` */
  function Stamp(d: Draft, id: TaskId, now: int): (t: Task)
    ensures t.id == id && t.createdAt == now
    ensures t.title == d.title && t.description == d.description && t.deadline == d.deadline
    ensures t.timeAllocation == d.timeAllocation && t.priority == d.priority && t.status == d.status
  {
    Task(id, d.title, d.description, d.deadline, d.timeAllocation, d.priority, d.status, now)
  }

  /** What local storage held at start-up: nothing, a decodable list, or a blob that
      fails to parse. */
  datatype Saved = Parsed(tasks: seq<Task>) | Malformed

  /** `tasks.findIndex(task => task.id === id)` */
  method FindIndex(tasks: seq<Task>, id: TaskId) returns (index: int)
    ensures -1 <= index < |tasks|
    ensures index == -1 <==> !HasId(tasks, id)
    ensures 0 <= index ==> tasks[index].id == id && forall i :: 0 <= i < index ==> tasks[i].id != id
  {
    var i := 0;
    while i < |tasks|
      invariant 0 <= i <= |tasks|
      invariant forall j :: 0 <= j < i ==> tasks[j].id != id
    {
      if tasks[i].id == id {
        return i;
      }
      i := i + 1;
    }
    return -1;
  }

  /** `tasks.find(task => task.id === id)` */
  function FindTask(tasks: seq<Task>, id: TaskId): (r: Option<Task>)
    ensures r.None? <==> !HasId(tasks, id)
    ensures r.Some? ==> r.value in tasks && r.value.id == id
  {
    if tasks == [] then None
    else if tasks[0].id == id then Some(tasks[0])
    else
      assert HasId(tasks[1..], id) <==> HasId(tasks, id) by {
        if HasId(tasks, id) {
          var i :| 0 <= i < |tasks| && tasks[i].id == id;
          assert tasks[1..][i - 1].id == id;
        }
        if HasId(tasks[1..], id) {
          var i :| 0 <= i < |tasks[1..]| && tasks[1..][i].id == id;
          assert tasks[i + 1].id == id;
        }
      }
      FindTask(tasks[1..], id)
  }

  /** `tasks[index] = { ...tasks[index], ...updates }` at the first index with the id. */
  function UpdateFirst(tasks: seq<Task>, id: TaskId, updates: Patch): (r: seq<Task>)
    ensures |r| == |tasks|
  {
    if tasks == [] then []
    else if tasks[0].id == id then [Merge(tasks[0], updates)] + tasks[1..]
    else [tasks[0]] + UpdateFirst(tasks[1..], id, updates)
  }

  /** With `k` the first index holding the id, the update rewrites index `k` only, and
      `find` returns the task at `k`. */
  lemma {:induction false} FirstMatchAt(tasks: seq<Task>, id: TaskId, updates: Patch, k: nat)
    requires k < |tasks| && tasks[k].id == id
    requires forall i :: 0 <= i < k ==> tasks[i].id != id
    ensures UpdateFirst(tasks, id, updates) == tasks[k := Merge(tasks[k], updates)]
    ensures FindTask(tasks, id) == Some(tasks[k])
  {
    if k > 0 {
      assert tasks[1..][k - 1] == tasks[k];
      FirstMatchAt(tasks[1..], id, updates, k - 1);
      assert tasks[1..][k - 1 := Merge(tasks[k], updates)] == tasks[k := Merge(tasks[k], updates)][1..];
    }
  }

  /** An update for an id that is not in the list changes nothing. */
  lemma {:induction false} UpdateFirstUnknownId(tasks: seq<Task>, id: TaskId, updates: Patch)
    requires !HasId(tasks, id)
    ensures UpdateFirst(tasks, id, updates) == tasks
  {
    if tasks != [] {
      assert tasks[0].id != id;
      UpdateFirstUnknownId(tasks[1..], id, updates);
    }
  }

  /** With unique ids, updating the first match (script.js) and updating every match
      (TaskManager.tsx) agree. */
  lemma {:induction false} UpdateFirstAgreesWithUpdateAll(tasks: seq<Task>, id: TaskId, updates: Patch)
    requires UniqueIds(tasks)
    ensures UpdateFirst(tasks, id, updates) == TaskManager.UpdateTask(tasks, id, updates)
  {
    if tasks != [] {
      var all := TaskManager.UpdateTask(tasks, id, updates);
      if tasks[0].id == id {
        forall i | 1 <= i < |tasks| ensures all[i] == tasks[i] {
          assert tasks[0].id != tasks[i].id;
        }
        assert all == [Merge(tasks[0], updates)] + tasks[1..];
      } else {
        UpdateFirstAgreesWithUpdateAll(tasks[1..], id, updates);
        assert all == [tasks[0]] + TaskManager.UpdateTask(tasks[1..], id, updates);
      }
    }
  }

  class TaskStore {
    var tasks: seq<Task>
    var activeTimers: map<TaskId, Stopwatch>

    /** `loadTasks`: a saved list is taken as it is; a missing or empty entry, and a
        blob that fails to parse, leave the list empty. */
    constructor Load(saved: Option<Saved>)
      ensures tasks == (if saved.Some? && saved.value.Parsed? then saved.value.tasks else [])
      ensures activeTimers == map[]
    {
      tasks := [];
      activeTimers := map[];
      if saved.Some? {
        match saved.value
        case Parsed(ts) => tasks := ts;
        case Malformed => tasks := [];
      }
    }

    /** `addTask`: stamps the draft with the id and creation day and appends it. */
    method AddTask(draft: Draft, id: TaskId, now: int)
      modifies this
      ensures tasks == old(tasks) + [Stamp(draft, id, now)]
      ensures activeTimers == old(activeTimers)
    {
      tasks := tasks + [Stamp(draft, id, now)];
    }

    /** `updateTask`: merges the update into the first task with the id, if any. */
    method UpdateTask(id: TaskId, updates: Patch)
      modifies this
      ensures tasks == UpdateFirst(old(tasks), id, updates)
      ensures activeTimers == old(activeTimers)
    {
      var index := FindIndex(tasks, id);
      if index != -1 {
        FirstMatchAt(tasks, id, updates, index);
        tasks := tasks[index := Merge(tasks[index], updates)];
      } else {
        UpdateFirstUnknownId(tasks, id, updates);
      }
    }

    /** `deleteTask`: drops every task with the id. Its stopwatch, if any, is left in
        `activeTimers`, as the source leaves it. */
    method DeleteTask(id: TaskId)
      modifies this
      ensures tasks == WithoutId(old(tasks), id)
      ensures activeTimers == old(activeTimers)
    {
      tasks := WithoutId(tasks, id);
    }

    /** `toggleTaskStatus`: moves the first task with the id to its next status; entering
        completed also removes its stopwatch. An unknown id changes nothing. */
    method ToggleTaskStatus(id: TaskId)
      modifies this
      ensures FindTask(old(tasks), id).None? ==>
                tasks == old(tasks) && activeTimers == old(activeTimers)
      ensures FindTask(old(tasks), id).Some? ==>
                var s := FindTask(old(tasks), id).value.status;
                tasks == UpdateFirst(old(tasks), id, StatusPatch(NextStatus(s))) &&
                activeTimers == if s == InProgress then old(activeTimers) - {id} else old(activeTimers)
    {
      var index := FindIndex(tasks, id);
      if index == -1 {
        return;
      }
      FirstMatchAt(tasks, id, NoChange, index);
      var task := tasks[index];
      if task.status == NotStarted {
        assert NextStatus(task.status) == InProgress;
        UpdateTask(id, StatusPatch(InProgress));
      } else if task.status == InProgress {
        assert NextStatus(task.status) == Completed;
        UpdateTask(id, StatusPatch(Completed));
        if id in activeTimers {
          activeTimers := activeTimers - {id};
        } else {
          assert activeTimers - {id} == activeTimers;
        }
      } else {
        assert NextStatus(task.status) == NotStarted;
        UpdateTask(id, StatusPatch(NotStarted));
      }
    }

    /** `toggleTaskTimer`: nothing for an unknown or completed task; a running stopwatch
        is removed; otherwise a stopwatch starts at zero, and a not-started task moves to
        in-progress. */
    method ToggleTaskTimer(id: TaskId, now: int)
      modifies this
      ensures FindTask(old(tasks), id).None? || FindTask(old(tasks), id).value.status == Completed ==>
                tasks == old(tasks) && activeTimers == old(activeTimers)
      ensures FindTask(old(tasks), id).Some? && FindTask(old(tasks), id).value.status != Completed ==>
                var s := FindTask(old(tasks), id).value.status;
                if id in old(activeTimers) then
                  tasks == old(tasks) && activeTimers == old(activeTimers) - {id}
                else
                  tasks == (if s == NotStarted then UpdateFirst(old(tasks), id, StatusPatch(InProgress)) else old(tasks)) &&
                  activeTimers == old(activeTimers)[id := Stopwatch(0, now)]
    {
      var index := FindIndex(tasks, id);
      if index == -1 {
        return;
      }
      FirstMatchAt(tasks, id, NoChange, index);
      var task := tasks[index];
      if task.status == Completed {
        return;
      }
      if id in activeTimers {
        activeTimers := activeTimers - {id};
      } else {
        if task.status == NotStarted {
          UpdateTask(id, StatusPatch(InProgress));
        }
        activeTimers := activeTimers[id := Stopwatch(0, now)];
      }
    }

    /** One second of a running stopwatch: `activeTimers[id].timeSpent++`. */
    method StopwatchTick(id: TaskId)
      requires id in activeTimers
      modifies this
      ensures tasks == old(tasks)
      ensures activeTimers == old(activeTimers)[id := old(activeTimers)[id].(timeSpent := old(activeTimers)[id].timeSpent + 1)]
    {
      activeTimers := activeTimers[id := activeTimers[id].(timeSpent := activeTimers[id].timeSpent + 1)];
    }
  }

  /** The status toggle cycles: three toggles of the first task with an id give back
      the list. */
  lemma {:induction false} ToggleThriceRestores(tasks: seq<Task>, k: nat)
    requires k < |tasks|
    requires forall i :: 0 <= i < k ==> tasks[i].id != tasks[k].id
    ensures var id := tasks[k].id;
            var s := tasks[k].status;
            var once := UpdateFirst(tasks, id, StatusPatch(NextStatus(s)));
            var twice := UpdateFirst(once, id, StatusPatch(NextStatus(NextStatus(s))));
            UpdateFirst(twice, id, StatusPatch(NextStatus(NextStatus(NextStatus(s))))) == tasks
  {
    var id := tasks[k].id;
    var s := tasks[k].status;
    var once := UpdateFirst(tasks, id, StatusPatch(NextStatus(s)));
    FirstMatchAt(tasks, id, StatusPatch(NextStatus(s)), k);
    FirstMatchAt(once, id, StatusPatch(NextStatus(NextStatus(s))), k);
    var twice := UpdateFirst(once, id, StatusPatch(NextStatus(NextStatus(s))));
    FirstMatchAt(twice, id, StatusPatch(NextStatus(NextStatus(NextStatus(s)))), k);
    NextStatusIsThreeCycle(s);
  }
}
