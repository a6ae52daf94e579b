/**
 * The task record shared by script.js and the React components
 * (src/components/TaskManager.tsx:12-21), the partial update `{ ...task, ...updates }`,
 * the status cycle, and deletion by id, which both versions write the same way.
 */
module Tasks {
  import opened Wrappers

  type TaskId = string

  datatype Priority = High | Medium | Low

  datatype Status = NotStarted | InProgress | Completed

  /** A task. `deadline` and `createdAt` are calendar day numbers. The filters and the
      completed-today count strip the time of day; the deadline sort compares timestamps,
      which order deadlines as their days do because every deadline is a date field read
      at the same time of day. `timeAllocation` is in minutes. */
  datatype Task = Task(
    id: TaskId,
    title: string,
    description: Option<string>,
    deadline: Option<int>,
    timeAllocation: Option<nat>,
    priority: Priority,
    status: Status,
    createdAt: int)

  /** A `Partial<Task>`. `None` is a key that is absent from the update object. For the
      optional fields a present key may hold `undefined`, written `Some(None)`: spreading
      it clears the field, as the edit form does for an emptied deadline. */
  datatype Patch = Patch(
    id: Option<TaskId>,
    title: Option<string>,
    description: Option<Option<string>>,
    deadline: Option<Option<int>>,
    timeAllocation: Option<Option<nat>>,
    priority: Option<Priority>,
    status: Option<Status>,
    createdAt: Option<int>)

  /** The empty update object `{}`. */
  const NoChange: Patch := Patch(None, None, None, None, None, None, None, None)

  /** The update object `{ status }` that the status toggles pass. */
  function StatusPatch(s: Status): (p: Patch)
    ensures p.status == Some(s)
    ensures p.(status := None) == NoChange
  {
    NoChange.(status := Some(s))
  }

  function Pick<T>(update: Option<T>, current: T): T
  {
    if update.Some? then update.value else current
  }

  /** `{ ...t, ...p }`: every key present in `p` overrides, every other field is kept. */
  function Merge(t: Task, p: Patch): (r: Task)
    ensures p.id.Some? ==> r.id == p.id.value
    ensures p.id.None? ==> r.id == t.id
    ensures p.title.Some? ==> r.title == p.title.value
    ensures p.title.None? ==> r.title == t.title
    ensures p.description.Some? ==> r.description == p.description.value
    ensures p.description.None? ==> r.description == t.description
    ensures p.deadline.Some? ==> r.deadline == p.deadline.value
    ensures p.deadline.None? ==> r.deadline == t.deadline
    ensures p.timeAllocation.Some? ==> r.timeAllocation == p.timeAllocation.value
    ensures p.timeAllocation.None? ==> r.timeAllocation == t.timeAllocation
    ensures p.priority.Some? ==> r.priority == p.priority.value
    ensures p.priority.None? ==> r.priority == t.priority
    ensures p.status.Some? ==> r.status == p.status.value
    ensures p.status.None? ==> r.status == t.status
    ensures p.createdAt.Some? ==> r.createdAt == p.createdAt.value
    ensures p.createdAt.None? ==> r.createdAt == t.createdAt
    ensures p == NoChange ==> r == t
    ensures p.status.Some? && p == StatusPatch(p.status.value) ==> r == t.(status := p.status.value)
  {
    Task(Pick(p.id, t.id), Pick(p.title, t.title), Pick(p.description, t.description),
         Pick(p.deadline, t.deadline), Pick(p.timeAllocation, t.timeAllocation),
         Pick(p.priority, t.priority), Pick(p.status, t.status), Pick(p.createdAt, t.createdAt))
  }

  /** Spreading the same update twice is the same as spreading it once. */
  lemma MergeIdempotent(t: Task, p: Patch)
    ensures Merge(Merge(t, p), p) == Merge(t, p)
  {
  }

  /** The next status on a click of the status button: not-started, in-progress,
      completed, and back to not-started (any other value also goes to not-started). */
  function NextStatus(s: Status): (n: Status)
    ensures n != s
    ensures n == Completed <==> s == InProgress
  {
    match s
    case NotStarted => InProgress
    case InProgress => Completed
    case Completed => NotStarted
  }

  /** Three clicks bring a task back to the status it had. */
  lemma NextStatusIsThreeCycle(s: Status)
    ensures NextStatus(NextStatus(NextStatus(s))) == s
    ensures NextStatus(NextStatus(s)) != s
  {
  }

  predicate HasId(tasks: seq<Task>, id: TaskId)
  {
    exists i :: 0 <= i < |tasks| && tasks[i].id == id
  }

  /** Ids are unique in the list. The source draws them from the clock and does not
      check this; the lemmas below say which operations keep it. */
  predicate UniqueIds(tasks: seq<Task>)
  {
    forall i, j :: 0 <= i < j < |tasks| ==> tasks[i].id != tasks[j].id
  }

  /** `tasks.filter(task => task.id !== id)`: the deletion of both versions. */
  function WithoutId(tasks: seq<Task>, id: TaskId): (r: seq<Task>)
    ensures |r| <= |tasks|
    ensures !HasId(r, id)
    ensures forall t :: multiset(r)[t] == if t.id == id then 0 else multiset(tasks)[t]
    ensures !HasId(tasks, id) ==> r == tasks
  {
    if tasks == [] then []
    else
      assert tasks == [tasks[0]] + tasks[1..];
      assert HasId(tasks[1..], id) ==> HasId(tasks, id) by {
        if HasId(tasks[1..], id) {
          var i :| 0 <= i < |tasks[1..]| && tasks[1..][i].id == id;
          assert tasks[i + 1].id == id;
        }
      }
      var rest := WithoutId(tasks[1..], id);
      if tasks[0].id == id then rest else [tasks[0]] + rest
  }

  /** Deleting from a list that starts with `t`. */
  lemma WithoutIdCons(t: Task, s: seq<Task>, id: TaskId)
    ensures WithoutId([t] + s, id) == (if t.id == id then [] else [t]) + WithoutId(s, id)
  {
    assert ([t] + s)[1..] == s;
  }

  /** Deleting distributes over concatenation, so the kept tasks stay in their order. */
  lemma {:induction false} WithoutIdConcat(a: seq<Task>, b: seq<Task>, id: TaskId)
    ensures WithoutId(a + b, id) == WithoutId(a, id) + WithoutId(b, id)
  {
    if a == [] {
      assert a + b == b;
    } else {
      assert a + b == [a[0]] + (a[1..] + b);
      assert a == [a[0]] + a[1..];
      WithoutIdCons(a[0], a[1..] + b, id);
      WithoutIdCons(a[0], a[1..], id);
      WithoutIdConcat(a[1..], b, id);
      AppendAssociative(if a[0].id == id then [] else [a[0]], WithoutId(a[1..], id), WithoutId(b, id));
    }
  }

  lemma AppendAssociative(x: seq<Task>, y: seq<Task>, z: seq<Task>)
    ensures x + (y + z) == (x + y) + z
  {
  }

  /** Deleting an id twice is deleting it once. */
  lemma WithoutIdIdempotent(tasks: seq<Task>, id: TaskId)
    ensures WithoutId(WithoutId(tasks, id), id) == WithoutId(tasks, id)
  {
  }

  /** A task whose id no task of a list has may lead it. */
  lemma ConsUnique(t: Task, s: seq<Task>)
    requires UniqueIds(s)
    requires forall j :: 0 <= j < |s| ==> s[j].id != t.id
    ensures UniqueIds([t] + s)
  {
    var r := [t] + s;
    forall i, j | 0 <= i < j < |r| ensures r[i].id != r[j].id {
      assert r[j] == s[j - 1];
      if i > 0 { assert r[i] == s[i - 1]; }
    }
  }

  /** No task left after deleting from the tail shares the head's id. */
  lemma HeadIdNotInRest(tasks: seq<Task>, id: TaskId)
    requires UniqueIds(tasks) && tasks != []
    ensures forall j :: 0 <= j < |WithoutId(tasks[1..], id)| ==> WithoutId(tasks[1..], id)[j].id != tasks[0].id
  {
    var rest := WithoutId(tasks[1..], id);
    forall j | 0 <= j < |rest| ensures rest[j].id != tasks[0].id {
      assert rest[j] in multiset(rest);
      assert rest[j] in multiset(tasks[1..]);
      var k :| 0 <= k < |tasks[1..]| && tasks[1..][k] == rest[j];
      assert tasks[k + 1] == rest[j];
    }
  }

  /** Deleting keeps ids unique. */
  lemma {:induction false} WithoutIdKeepsUnique(tasks: seq<Task>, id: TaskId)
    requires UniqueIds(tasks)
    ensures UniqueIds(WithoutId(tasks, id))
  {
    if tasks != [] {
      assert tasks == [tasks[0]] + tasks[1..];
      WithoutIdCons(tasks[0], tasks[1..], id);
      assert UniqueIds(tasks[1..]);
      WithoutIdKeepsUnique(tasks[1..], id);
      if tasks[0].id != id {
        HeadIdNotInRest(tasks, id);
        ConsUnique(tasks[0], WithoutId(tasks[1..], id));
      }
    }
  }
}
