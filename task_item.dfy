/**
 * src/components/TaskItem.tsx: the status toggle of one rendered task and the badge
 * class of a priority.
 */
module TaskItem {
  import opened Tasks
  import TaskManager

  const MutedClass: string := "bg-muted text-muted-foreground"

  /** The priority as the string the component receives. */
  function PriorityName(p: Priority): string
  {
    match p
    case High => "high"
    case Medium => "medium"
    case Low => "low"
  }

  /** `getPriorityColor`: one class per known priority, the muted default otherwise. */
  function PriorityColor(priority: string): (cls: string)
    ensures cls == MutedClass <==> priority != "high" && priority != "medium" && priority != "low"
  {
    if priority == "high" then "bg-priority-high text-black"
    else if priority == "medium" then "bg-priority-medium text-black"
    else if priority == "low" then "bg-priority-low text-black"
    else MutedClass
  }

  /** The three priorities get three different classes. */
  lemma PriorityColorsDistinct(p: Priority, q: Priority)
    ensures PriorityColor(PriorityName(p)) == PriorityColor(PriorityName(q)) <==> p == q
  {
  }

  /** `toggleStatus`: `updateTask(task.id, { status: nextStatus })`. The tasks with that id
      move to the next status of the rendered task and keep every other field. */
  function ToggleStatus(tasks: seq<Task>, task: Task): (r: seq<Task>)
    ensures |r| == |tasks|
    ensures forall i :: 0 <= i < |tasks| ==>
              r[i] == if tasks[i].id == task.id then tasks[i].(status := NextStatus(task.status)) else tasks[i]
  {
    TaskManager.UpdateTask(tasks, task.id, StatusPatch(NextStatus(task.status)))
  }
}
