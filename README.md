# Soothe Productive: task list and focus timer, modelled in Dafny

The app is a to-do list with a focus timer, written twice. The first version is the
vanilla `script.js`. The second is the React components `TaskManager`, `TaskItem` and
`FocusTools`. This project models what both versions compute:

- **Tasks** (`tasks.dfy`): the task record and the partial update `{ ...task, ...updates }`.
  It also covers the three-step status cycle and delete-by-id.
- **Task list operations**:
  - `task_manager.dfy` holds the React list operations: append, map-update, filter-delete
    and drag reordering.
  - `task_store.dfy` holds the `script.js` store. Its `tasks` array and its `activeTimers`
    map of per-task stopwatches are changed in place, so they are a class.
- **Task view** (`task_view.dfy`): the filter (all / today / upcoming / completed) and the
  sort (priority / deadline / time allocation). Both versions share this code.
- **Task badge and toggle** (`task_item.dfy`): the priority colour and the status toggle
  of `TaskItem`.
- **Dashboard figures** (`task_stats.dfy`): completed today, open high-priority tasks,
  and allocated hours.
- **Focus countdown**: two different state machines.
  - `script_timer.dfy` is the `script.js` one. A finished work phase starts its break
    straight away, and every other completion resets to idle.
  - `focus_tools.dfy` is the React one. A finished phase stops in `complete`.
  - Each is a class whose methods are specified by functions on a `Session` value. The
    multi-tick lemmas are about those functions.
- **Formatters** (`time_format.dfy`): the `mm:ss` countdown text, the 12-hour clock and
  the hour-of-day suggestion.

Dates are integer day numbers. The filters and the completed-today count strip the time
of day before comparing (`script.js:197-210`, `script.js:404-406`). The deadline sort
compares raw timestamps (`script.js:223`, `src/components/TaskManager.tsx:107`). Day order
still gives the same answer there, because every deadline comes from a date field parsed
with `new Date("YYYY-MM-DD")` (`script.js:668-670`, `script.js:695-699`). That puts all
deadlines at the same time of day. "Today", new ids and clock readings are parameters.

## Model

| member | source | states |
|---|---|---|
| Tasks.StatusPatch | src/components/TaskItem.tsx:63 | the toggle's update carries a status and no other field |
| Tasks.Merge | script.js:152 | field by field: a field the update carries takes the update's value, a field it omits keeps the task's; so an empty update changes nothing and a status-only update changes only the status |
| Tasks.MergeIdempotent | src/components/TaskManager.tsx:58 | merging the same update twice is merging it once |
| Tasks.NextStatus | src/components/TaskItem.tsx:56-61 | no status maps to itself; the result is completed exactly when the input is in-progress |
| Tasks.NextStatusIsThreeCycle | src/components/TaskItem.tsx:55-61 | three steps return the original status and two steps never do |
| Tasks.WithoutId | script.js:161 | no task with the id is left; every other task keeps its multiplicity; a list without the id is unchanged |
| Tasks.WithoutIdConcat | src/components/TaskManager.tsx:62 | deleting distributes over concatenation, so order is preserved |
| Tasks.WithoutIdIdempotent | src/components/TaskManager.tsx:62 | deleting twice is deleting once |
| Tasks.WithoutIdKeepsUnique | src/components/TaskManager.tsx:61-63 | deleting keeps ids unique |
| TaskView.FilterTasks | script.js:196-213 | the result holds exactly the tasks the filter keeps, each as often as in the input |
| TaskView.FilterTasksConcat | script.js:196-213 | filtering distributes over concatenation, so the kept tasks keep their stored order |
| TaskView.FilterTies | script.js:196-213 | the kept tasks that tie with a task are the stored tasks that tie with it and are kept, in stored order |
| TaskView.Keeps | script.js:196-213 | a kept task due before today is kept only by "all" or "completed"; "today" keeps only tasks with a deadline; "all" and "upcoming" keep every task without one |
| TaskView.InOrderTotal | script.js:216-230 | any two tasks are ordered one way or the other under each sort key |
| TaskView.InOrderTransitive | script.js:216-230 | each sort key's order is transitive |
| TaskView.Insert | script.js:216-230 | inserting into a sorted list gives a sorted list with one more occurrence of the task |
| TaskView.SortTasks | script.js:216-230 | the sorted list is ordered by the key and is a permutation of the input |
| TaskView.InsertTies | script.js:215-230 | inserting a task adds it ahead of the tasks it ties with and leaves their order alone |
| TaskView.SortIsStable | script.js:215-230 | tasks that tie under the key keep their input order: for the priority and time-allocation keys this is what `Array.prototype.sort` guarantees; for the deadline key it is the order of the corrected comparator (see Findings) |
| TaskView.View | script.js:191-231 | the view is a permutation of the filtered tasks (so a sub-multiset of the stored ones), holds only kept tasks, and is sorted |
| TaskView.ViewTies | script.js:191-231 | tasks that tie under the sort key appear in the view in their stored order: the view's ties are the filtered ties, which are the stored ties the filter keeps; for the deadline key this is the corrected comparator's order (see Findings) |
| TaskView.ViewMembership | script.js:191-213 | a task is in the view iff it is in the list and the filter keeps it |
| TaskView.CompletedViewIsExactlyCompleted | script.js:211-213 | the completed view holds exactly the completed tasks |
| TaskView.TodayViewIsDueToday | script.js:197-203 | the today view holds exactly the tasks due today; a task without a deadline is never in it |
| TaskView.UpcomingViewContents | script.js:204-210 | the upcoming view holds the tasks without a deadline and those due after today |
| TaskView.AllViewIsPermutation | src/components/TaskManager.tsx:76-115 | the "all" view is a permutation of the whole list |
| TaskView.PriorityViewOrder | script.js:217-219 | a later task in the priority view never has a higher priority |
| TaskView.DeadlineViewOrder | script.js:220-223 | before a task with a deadline come only tasks with a deadline no later than it |
| TaskView.TimeAllocationViewOrder | script.js:224-227 | minutes (a missing value counts as 0) never decrease along the view |
| TaskView.SourceDeadlineComparatorInconsistent | script.js:221 | the comparator as written says each of two deadline-less tasks goes after the other |
| TaskView.SourceComparator | script.js:216-230 | the comparator as written: by priority negative iff higher priority and zero iff equal; by minutes likewise; by deadline positive iff `a` lacks a deadline or `b` has an earlier one, zero iff both have the same deadline |
| TaskView.SourceComparatorAgreesElsewhere | script.js:216-230 | apart from two deadline-less tasks, the comparator as written agrees with the key order |
| TaskView.Compare | src/components/TaskManager.tsx:100-114 | the corrected comparator is non-positive iff `a` may go first and non-negative iff `b` may |
| TaskManager.AddTask | src/components/TaskManager.tsx:53-55 | the list grows by one; earlier tasks are unchanged and the new task is last |
| TaskManager.AddThenDelete | src/components/TaskManager.tsx:53-63 | deleting a freshly added task's id gives back the list |
| TaskManager.AddKeepsUnique | src/components/TaskManager.tsx:53-55 | adding a task with a fresh id keeps ids unique |
| TaskManager.UpdateTask | src/components/TaskManager.tsx:57-59 | length and order are kept; each task with the id gets the update merged in, the rest are identical |
| TaskManager.UpdateUnknownIdIsNoop | src/components/TaskManager.tsx:57-59 | an update for an absent id changes nothing |
| TaskManager.UpdateKeepsUnique | src/components/TaskManager.tsx:57-59 | an update that does not set the id keeps ids unique |
| TaskManager.HandleDragEnd | src/components/TaskManager.tsx:65-73 | no destination changes nothing; otherwise a permutation of the same length with the dragged task at the destination and the others in their old order |
| TaskManager.DragBackRestores | src/components/TaskManager.tsx:65-73 | dragging back from the destination to the source gives back the list |
| TaskManager.DragInView | src/components/TaskManager.tsx:65-73 | corrected drag: the task shown at the source position lands at the stored position of the task shown at the destination, the others keep their stored order, and the list is a permutation |
| TaskManager.DragInWholeListIsHandleDragEnd | src/components/TaskManager.tsx:65-73 | when the view is the whole stored list with unique ids, the corrected drag is the source's drag |
| TaskManager.DragInFilteredViewMovesAnotherTask | src/components/TaskManager.tsx:272-273 | with the completed filter, dragging the second shown task above the first leaves the view as it was under the source's drag, and reverses it under the corrected drag |
| TaskItem.PriorityColor | src/components/TaskItem.tsx:31-42 | the muted default is returned exactly for strings other than high, medium and low |
| TaskItem.PriorityColorsDistinct | src/components/TaskItem.tsx:31-42 | the three priorities get three distinct classes |
| TaskItem.ToggleStatus | src/components/TaskItem.tsx:55-63 | every task with the id moves to its next status and nothing else changes |
| TaskStats.CountWhere | script.js:402-412 | the count is at most the length; it is 0 iff no task matches and the length iff all do |
| TaskStats.CompletedToday | script.js:402-408 | at most the list length; 0 iff no task is completed and created today; the length iff all are |
| TaskStats.OpenHighPriority | script.js:410-413 | at most the list length; 0 iff every task is completed or not high priority; the length iff all are open and high |
| TaskStats.TotalMinutes | script.js:415-417 | every task's minutes are at most the total; the total is 0 iff every task has 0 minutes |
| TaskStats.CountWhereConcat | script.js:402-412 | counts add over concatenation |
| TaskStats.TotalMinutesConcat | script.js:415-416 | allocated minutes add over concatenation |
| TaskStats.RoundToHours | script.js:415-417 | the hours are the minutes divided by 60, rounded half up (within 30 minutes) |
| TaskStats.AllocatedHours | src/components/TaskManager.tsx:198 | the hours figure is within 30 minutes of the allocated total |
| TaskStats.StatsAfterAdd | src/components/TaskManager.tsx:137-146 | adding a task raises each figure by that task's own contribution |
| TaskStats.CountWhereSplit | script.js:402-412 | a count is the count without one task plus that task's contribution |
| TaskStats.TotalMinutesSplit | script.js:415-416 | allocated minutes are the minutes without one task plus that task's minutes |
| TaskStats.StatsUnchangedByDrag | src/components/TaskManager.tsx:65-73 | reordering leaves all three figures unchanged |
| TaskStats.CompletingHighPriorityTask | src/components/TaskManager.tsx:144-146 | completing an in-progress high-priority task lowers the open high-priority count by one |
| TaskStore.Stamp | script.js:140-141 | the added task carries the given id and creation day, and the draft's title, description, deadline, time allocation, priority and status |
| TaskStore.FindIndex | script.js:150 | -1 iff no task has the id, else the first index holding it |
| TaskStore.FindTask | script.js:169 | none iff no task has the id, else a listed task with that id |
| TaskStore.UpdateFirst | script.js:149-158 | the update keeps the list length |
| TaskStore.FirstMatchAt | script.js:150-152 | the update rewrites only the first index holding the id, and `find` returns that task |
| TaskStore.UpdateFirstUnknownId | script.js:151 | an update for an absent id changes nothing |
| TaskStore.UpdateFirstAgreesWithUpdateAll | script.js:149-158 | with unique ids, updating the first match equals the React update of every match |
| TaskStore.TaskStore.Load | script.js:116-132 | a parsed saved list is loaded; nothing saved or an unparsable blob leaves the list empty; no stopwatches |
| TaskStore.TaskStore.AddTask | script.js:138-147 | the stamped task is appended; stopwatches unchanged |
| TaskStore.TaskStore.UpdateTask | script.js:149-158 | the first task with the id gets the update merged in; stopwatches unchanged |
| TaskStore.TaskStore.DeleteTask | script.js:160-166 | every task with the id is dropped; stopwatches unchanged |
| TaskStore.TaskStore.ToggleTaskStatus | script.js:168-189 | unknown id: nothing changes; else the task moves to its next status, and entering completed removes its stopwatch |
| TaskStore.TaskStore.ToggleTaskTimer | script.js:366-398 | nothing for an unknown or completed task; a running stopwatch is removed; else one starts at zero and a not-started task becomes in-progress |
| TaskStore.TaskStore.StopwatchTick | script.js:389-392 | only that task's seconds grow by one |
| TaskStore.ToggleThriceRestores | script.js:168-189 | three toggles of the first task with an id give back the list |
| ScriptTimer.TotalSeconds | script.js:547-558 | the total is defined exactly when a mode is chosen; in a pomodoro break it is the break time in seconds |
| ScriptTimer.ModeSeconds | script.js:426-440 | pomodoro loads the work time, study the study time, distraction-free an hour, each in seconds; this is the total of that mode's idle work phase |
| ScriptTimer.Elapsed | script.js:560 | elapsed time is defined exactly when a mode is chosen |
| ScriptTimer.InitialValid | script.js:23-27 | the start-up globals satisfy the invariant |
| ScriptTimer.Reset | script.js:476-500 | idle, not on a break, mode and settings kept; with a mode, the full duration is loaded (nothing elapsed); keeps the invariant |
| ScriptTimer.SelectMode | script.js:426-440 | from any state: the mode is chosen, idle, not on a break, its full duration loaded; the invariant holds |
| ScriptTimer.Start | script.js:442-467 | without a mode nothing changes; with one the phase is running; countdown, break, mode and settings untouched; keeps the invariant |
| ScriptTimer.Pause | script.js:469-474 | the phase becomes paused; countdown, break, mode and settings untouched; keeps the invariant |
| ScriptTimer.Finish | script.js:502-536 | pomodoro work runs into its break with the break loaded; otherwise idle with the full duration loaded; never left in `complete` |
| ScriptTimer.Step | script.js:451-460 | more than one second left: one second more elapsed and still running; otherwise the tick completes the phase; keeps the invariant |
| ScriptTimer.WorkPhaseRunsIntoBreak | script.js:502-518 | n ticks after a running work phase with n seconds left, its break is running with the full break time |
| ScriptTimer.BreakEndsIdle | script.js:519-531 | n ticks after a running break with n seconds left, the pomodoro is idle with the full work time |
| ScriptTimer.SessionEndsIdle | script.js:532-535 | a study or distraction-free session ends idle with its full duration loaded again |
| ScriptTimer.PomodoroRound | script.js:426-536 | choosing pomodoro and starting: after the whole work time the break is running |
| ScriptTimer.SetWorkTime | script.js:805-813 | the setting changes; the countdown is reloaded only for an idle pomodoro work phase |
| ScriptTimer.SetBreakTime | script.js:815-819 | the setting changes; the countdown never does |
| ScriptTimer.SetSessionTime | script.js:821-829 | the setting changes; the countdown is reloaded only for an idle study session |
| ScriptTimer.ScriptFocusTimer.constructor | script.js:10-27 | the globals start with no mode, idle, and the default settings |
| ScriptTimer.ScriptFocusTimer.SetActiveTimerMode | script.js:426-440 | the new state is `SelectMode` of the old |
| ScriptTimer.ScriptFocusTimer.StartTimer | script.js:442-467 | the new state is `Start` of the old |
| ScriptTimer.ScriptFocusTimer.PauseTimer | script.js:469-474 | the new state is `Pause` of the old |
| ScriptTimer.ScriptFocusTimer.ResetTimer | script.js:476-500 | the new state is `Reset` of the old |
| ScriptTimer.ScriptFocusTimer.CompleteTimer | script.js:502-536 | the new state is `Finish` of the old |
| ScriptTimer.ScriptFocusTimer.Tick | script.js:451-460 | the new state is `Step` of the old |
| ScriptTimer.ScriptFocusTimer.OnWorkTimeInput | script.js:805-813 | the new state is `SetWorkTime` of the old |
| ScriptTimer.ScriptFocusTimer.OnBreakTimeInput | script.js:815-819 | the new state is `SetBreakTime` of the old |
| ScriptTimer.ScriptFocusTimer.OnSessionTimeInput | script.js:821-829 | the new state is `SetSessionTime` of the old |
| FocusTools.TotalSeconds | src/components/FocusTools.tsx:143-158 | with settings on slider stops the total is at least a minute; in a pomodoro break it is the break time in seconds |
| FocusTools.ModeSeconds | src/components/FocusTools.tsx:55-71 | pomodoro loads the work time, study the session time, distraction-free an hour, each in seconds; with valid settings between 5 minutes and 2 hours; the total of that mode's idle work phase |
| FocusTools.Elapsed | src/components/FocusTools.tsx:143-161 | between events elapsed time never exceeds the total; a completed pomodoro phase shows none elapsed, a completed session all of it |
| FocusTools.InitialValid | src/components/FocusTools.tsx:21-30 | the initial state satisfies the invariant with nothing elapsed |
| FocusTools.Reset | src/components/FocusTools.tsx:120-135 | idle, not on a break, nothing elapsed; keeps the invariant |
| FocusTools.SelectMode | src/components/FocusTools.tsx:55-71 | the same mode changes nothing; a new mode is idle with its full duration loaded |
| FocusTools.Start | src/components/FocusTools.tsx:109-114 | running, with countdown, break and mode untouched |
| FocusTools.Pause | src/components/FocusTools.tsx:116-118 | paused, with countdown, break and mode untouched |
| FocusTools.Step | src/components/FocusTools.tsx:76-97 | more than one second left: one more second elapsed; else complete, pomodoro switching phase fully loaded, other modes at 0; keeps the invariant |
| FocusTools.TicksKeepValid | src/components/FocusTools.tsx:76-97 | any number of ticks keeps the invariant, so the countdown never goes negative |
| FocusTools.PomodoroPhaseCompletes | src/components/FocusTools.tsx:77-90 | n ticks after a running pomodoro phase with n seconds left it stops in `complete` with the other phase loaded; further ticks change nothing |
| FocusTools.SessionCompletesAtZero | src/components/FocusTools.tsx:91-94 | a study or distraction-free session stops in `complete` at 0; further ticks change nothing |
| FocusTools.SetWorkTime | src/components/FocusTools.tsx:232-246 | only while idle does the work time change; the countdown never does |
| FocusTools.SetBreakTime | src/components/FocusTools.tsx:250-264 | only while idle does the break time change; the countdown never does |
| FocusTools.SetSessionTime | src/components/FocusTools.tsx:311-325 | only while idle does the session length change; the countdown never does |
| FocusTools.FocusTimer.constructor | src/components/FocusTools.tsx:21-30 | the state cells start as the initial state |
| FocusTools.FocusTimer.OnModeChange | src/components/FocusTools.tsx:55-71 | the new state is `SelectMode` of the old, and the invariant holds |
| FocusTools.FocusTimer.StartTimer | src/components/FocusTools.tsx:109-114 | the new state is `Start` of the old, and the invariant holds |
| FocusTools.FocusTimer.PauseTimer | src/components/FocusTools.tsx:116-118 | the new state is `Pause` of the old, and the invariant holds |
| FocusTools.FocusTimer.ResetTimer | src/components/FocusTools.tsx:120-135 | the new state is `Reset` of the old, and the invariant holds |
| FocusTools.FocusTimer.Tick | src/components/FocusTools.tsx:75-98 | the new state is `Step` of the old, and the invariant holds |
| FocusTools.FocusTimer.OnWorkTimeChange | src/components/FocusTools.tsx:232-246 | the new state is `SetWorkTime` of the old, and the invariant holds |
| FocusTools.FocusTimer.OnBreakTimeChange | src/components/FocusTools.tsx:250-264 | the new state is `SetBreakTime` of the old, and the invariant holds |
| FocusTools.FocusTimer.OnSessionTimeChange | src/components/FocusTools.tsx:311-325 | the new state is `SetSessionTime` of the old, and the invariant holds |
| TimeFormat.Digits | src/components/FocusTools.tsx:140 | `toString` gives at least one digit and no leading zero; below 100 at most two digits |
| TimeFormat.ValueOfDigits | src/components/FocusTools.tsx:140 | the printed digits denote the number |
| TimeFormat.ValueIgnoresLeadingZero | src/components/FocusTools.tsx:140 | a leading zero does not change the value |
| TimeFormat.PadStart2 | script.js:571 | the result has at least two characters: zeros followed by the input |
| TimeFormat.PadKeepsValue | script.js:571 | padding keeps the denoted value |
| TimeFormat.FormatTime | script.js:568-572 | at least five characters, the colon third from the end; exactly five below 100 minutes |
| TimeFormat.ParseJoined | script.js:571 | a text made of minutes, a colon and two seconds digits reads back as minutes times 60 plus seconds |
| TimeFormat.FormatTimeRoundTrip | src/components/FocusTools.tsx:137-141 | the text reads back as the seconds it shows (minutes times 60 plus seconds below 60) |
| TimeFormat.Hour12 | script.js:69 | the 12-hour hour lies in 1..12 and agrees with the hour modulo 12 |
| TimeFormat.Hour12RoundTrip | script.js:68-69 | the 12-hour hour with AM/PM gives back the 24-hour hour |
| TimeFormat.To24RoundTrip | script.js:68-69 | every 12-hour reading comes from exactly one 24-hour hour |
| TimeFormat.ClockPad | script.js:70-71 | the result is all digits; below 100 exactly two |
| TimeFormat.ClockPadValue | script.js:70-71 | the padded digits read back as the number |
| TimeFormat.ClockPadIsPadStart | script.js:70-71 | the clock's minute/second padding equals two-digit zero padding |
| TimeFormat.ClockText | script.js:65-72 | the text is the unpadded 12-hour hour, a colon, the two-digit minutes, a colon, the two-digit seconds, a space, then AM before noon and PM from noon |
| TimeFormat.ClockTextInjective | script.js:65-72 | two times with the same clock text are the same time |
| TimeFormat.ReachedThresholds | script.js:94-105 | the number of thresholds 9, 12, 15 and 18 an hour has reached |
| TimeFormat.SuggestionFor | script.js:92-106 | the suggestion's rank is the number of thresholds the hour has reached |
| TimeFormat.SuggestionMonotone | src/components/TaskManager.tsx:120-134 | a later hour never gives an earlier suggestion |
| TimeFormat.SuggestionChangesAtThresholds | script.js:92-106 | the suggestion changes from one hour to the next exactly when the next hour is 9, 12, 15 or 18 |
| TimeFormat.MessagesDistinct | script.js:94-105 | two suggestions show the same text iff they are the same suggestion |

## Left out

- DOM rendering, toasts, modals, the theme toggle, the clock display component and the
  page layout are output only. `src/pages/Index.tsx`, `ThemeToggle.tsx` and
  `ClockDisplay.tsx` are not part of this model.
- Local storage and JSON encoding: saving is a side effect. Loading is modelled by its
  outcome: a parsed list, a blob that fails to parse, or nothing saved.
- Wall-clock reads (`Date.now()`, `new Date()`, `getHours()`) are parameters.
  - "Today", new ids and creation days are integer day numbers, or plain values.
  - Time zones and the time of day inside a date are not modelled. The deadline sort
    compares timestamps, so a deadline with a time of day other than the date field's
    would sort within its day, which day numbers do not show. The React add and edit
    dialogs that set deadlines are not part of this model.
- The `setInterval` handles and their clearing are not modelled. The `script.js` tick is
  a method called only while running. The React tick is called only while the phase is
  running, which is when the effect keeps an interval.
- React state-setter batching and closures capturing stale values are not modelled. Each
  handler is applied to the current state as one step.
- The floating-point progress percentage is left out. Only its integer total and the
  elapsed seconds are modelled.
- Audio and ambient sound, the mute-notifications switch and the hard-coded "Time
  Tracking" numbers are presentation only.
- `parseInt` of a slider value that is not a number cannot occur in the model: the
  `script.js` settings are natural numbers.
- Time allocations are natural numbers (`Option<nat>` in `Tasks.Task` and
  `TaskStore.Draft`). `script.js:673-675` stores `parseInt` of any non-empty field, which
  may be negative or `NaN`. A `NaN` or 0 counts as no allocation through `|| 0`; a
  negative one would lower the total and sort first. Negative and non-numeric input is
  not covered.
- TaskView.DeadlineViewOrder: it states nothing about the relative order of two
  deadline-less tasks, because the comparator as written gives them no consistent order
  (see Findings).
- TaskView.SortIsStable and TaskView.ViewTies: under the deadline key they fix two
  deadline-less tasks in stored order. That is the corrected comparator's order. The
  program's own order for such tasks is implementation-defined, and the model does not
  promise it.
- TaskManager.HandleDragEnd: the drag indices are applied to the whole task list, as the
  source does, even though they are positions in the filtered, sorted view (see Findings).
  The indices are required to be in range, since the drag library only reports positions
  it shows.
- TaskStore.TaskStore.DeleteTask: the deleted task's stopwatch stays in `activeTimers`,
  as in `script.js`. No invariant ties stopwatches to listed tasks.
- FocusTools.SetWorkTime: the React sliders do not reload the countdown, unlike the
  `script.js` sliders. After a slider change the remaining time can differ from the
  mode's full duration, and elapsed time can be negative.
- TimeFormat.FormatTime: only non-negative seconds are modelled. The countdown never goes
  below zero between events.

## Findings

| source | as written | input that shows it | evidently intended | confidence | as-written member | corrected member |
|---|---|---|---|---|---|---|
| script.js:221 | the deadline comparator returns 1 whenever `a` has no deadline, even when `b` has none either | two tasks without a deadline: `compare(a, b) > 0` and `compare(b, a) > 0` | deadline-less tasks compare equal (0) and go after every task with a deadline | medium, not executed | TaskView.SourceDeadlineComparatorInconsistent | TaskView.Compare |
| src/components/TaskManager.tsx:65-73 | the drag's source and destination indices are positions in the filtered, sorted list the board renders (lines 272-273), but they are spliced into the whole stored list | stored list `[a, b, c]` with `a` not completed, `b` and `c` completed with equal priority; completed filter, priority sort; drag the second shown task (`c`) above the first (`b`) | the task shown at the source moves to where the task shown at the destination is stored | medium, not executed | TaskManager.DragInFilteredViewMovesAnotherTask | TaskManager.DragInView |

The same comparator is at src/components/TaskManager.tsx:105. A comparator that puts each
of two elements after the other is not consistent. `Array.prototype.sort` then leaves the
order implementation-defined. The model sorts by the corrected order.

In the drag example the source moves the task stored at index 1, `b`, to index 0 and
stores `[b, a, c]`, so the view still shows `[b, c]` and the drag seems to do nothing; the
corrected drag stores `[a, c, b]` and the view shows `[c, b]`.
`TaskManager.HandleDragEnd` keeps the source's behaviour; `TaskManager.DragInView` is the
corrected drag, and it agrees with `HandleDragEnd` whenever the view is the whole list.
