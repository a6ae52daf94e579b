/**
 * The focus countdown of script.js:426-566 and the settings sliders of script.js:805-829.
 * The globals `activeTimerMode`, `timerState`, `isBreak`, `timeRemaining` and
 * `timerSettings` are the fields of `ScriptFocusTimer`; each method is specified by a
 * function on `Session`, the value of those fields, and the lemmas are about the functions.
 * The once-per-second interval is the `Tick` method, called only while running.
 */
module ScriptTimer {
  import opened Wrappers
  import opened Focus

  /** `timerSettings.distraction.sessionTime`, which no handler changes. */
  const DistractionMinutes: nat := 60

  /** `timerSettings`, in minutes. */
  datatype Settings = Settings(workTime: nat, breakTime: nat, studyTime: nat)

  datatype Session = Session(mode: Option<Mode>, phase: Phase, isBreak: bool, remaining: int, settings: Settings)

  /** The globals before any mode is chosen. */
  const Initial: Session := Session(None, Idle, false, 0, Settings(25, 5, 45))

  /** The full duration of a mode, in seconds, as `setActiveTimerMode` and `resetTimer` load it. */
  function ModeSeconds(m: Mode, st: Settings): (seconds: nat)
    ensures m == Pomodoro ==> seconds == st.workTime * 60
    ensures m == Study ==> seconds == st.studyTime * 60
    ensures m == DistractionFree ==> seconds == 3600
    ensures seconds == TotalSeconds(Session(Some(m), Idle, false, 0, st)).value
  {
    match m
    case Pomodoro => st.workTime * 60
    case Study => st.studyTime * 60
    case DistractionFree => DistractionMinutes * 60
  }

  /** `totalTime` of `updateTimerProgress`; `None` while no mode is chosen. */
  function TotalSeconds(s: Session): (total: Option<nat>)
    ensures total.None? <==> s.mode.None?
    ensures s.mode == Some(Pomodoro) && s.isBreak ==> total == Some(s.settings.breakTime * 60)
  {
    match s.mode
    case None => None
    case Some(Pomodoro) => Some(if s.isBreak then s.settings.breakTime * 60 else s.settings.workTime * 60)
    case Some(Study) => Some(s.settings.studyTime * 60)
    case Some(DistractionFree) => Some(DistractionMinutes * 60)
  }

  /** Seconds elapsed in the current phase: the total less what remains. */
  function Elapsed(s: Session): (e: Option<int>)
    ensures e.Some? <==> s.mode.Some?
  {
    if s.mode.None? then None else Some(TotalSeconds(s).value - s.remaining)
  }

  /** What holds between events: only a chosen mode runs, only pomodoro takes breaks,
      `complete` never outlasts the call that enters it, and no negative time remains. */
  predicate Valid(s: Session)
  {
    && (s.phase == Running ==> s.mode.Some?)
    && (s.isBreak ==> s.mode == Some(Pomodoro))
    && s.phase != Complete
    && s.remaining >= 0
  }

  lemma InitialValid()
    ensures Valid(Initial)
  {
  }

  /** `resetTimer`: idle, out of any break, with the mode's full duration loaded. */
  function Reset(s: Session): (r: Session)
    ensures r.phase == Idle && !r.isBreak && r.mode == s.mode && r.settings == s.settings
    ensures s.mode.Some? ==> Elapsed(r) == Some(0)
    ensures s.mode.None? ==> r.remaining == s.remaining
    ensures Valid(s) ==> Valid(r)
  {
    s.(phase := Idle, isBreak := false,
       remaining := if s.mode.Some? then ModeSeconds(s.mode.value, s.settings) else s.remaining)
  }

  /** `setActiveTimerMode`: whatever the state, the chosen mode starts afresh. */
  function SelectMode(s: Session, m: Mode): (r: Session)
    ensures r.mode == Some(m) && r.phase == Idle && !r.isBreak && r.settings == s.settings
    ensures r.remaining == ModeSeconds(m, s.settings)
    ensures Elapsed(r) == Some(0)
    ensures Valid(r)
  {
    Reset(s.(mode := Some(m))).(remaining := ModeSeconds(m, s.settings))
  }

  /** `startTimer`: does nothing until a mode is chosen. */
  function Start(s: Session): (r: Session)
    ensures r.remaining == s.remaining && r.isBreak == s.isBreak && r.mode == s.mode && r.settings == s.settings
    ensures s.mode.None? ==> r == s
    ensures s.mode.Some? ==> r.phase == Running
    ensures Valid(s) ==> Valid(r)
  {
    if s.mode.None? then s else s.(phase := Running)
  }

  /** `pauseTimer` */
  function Pause(s: Session): (r: Session)
    ensures r.phase == Paused
    ensures r.remaining == s.remaining && r.isBreak == s.isBreak && r.mode == s.mode && r.settings == s.settings
    ensures Valid(s) ==> Valid(r)
  {
    s.(phase := Paused)
  }

  /** `completeTimer`: a pomodoro work phase runs straight into its break; a finished
      break, and any other session, goes back to idle with the full duration loaded. */
  function Finish(s: Session): (r: Session)
    requires s.mode.Some?
    ensures s.mode == Some(Pomodoro) && !s.isBreak ==>
              r.phase == Running && r.isBreak && r.remaining == s.settings.breakTime * 60
    ensures !(s.mode == Some(Pomodoro) && !s.isBreak) ==>
              r.phase == Idle && !r.isBreak && r.remaining == ModeSeconds(s.mode.value, s.settings)
    ensures r.mode == s.mode && r.settings == s.settings
    ensures Elapsed(r) == Some(0)
    ensures Valid(r)
  {
    var c := s.(phase := Complete);
    if s.mode == Some(Pomodoro) && !s.isBreak then
      Start(c.(isBreak := true, remaining := s.settings.breakTime * 60))
    else if s.mode == Some(Pomodoro) && s.isBreak then
      Reset(c.(isBreak := false, remaining := s.settings.workTime * 60))
    else
      Reset(c)
  }

  /** One firing of the interval: one second less, and completion once nothing is left. */
  function Step(s: Session): (r: Session)
    requires s.phase == Running && s.mode.Some?
    ensures r.mode == s.mode && r.settings == s.settings
    ensures s.remaining > 1 ==> r.phase == Running && r.isBreak == s.isBreak && r.remaining == s.remaining - 1
    ensures s.remaining > 1 ==> Elapsed(r).value == Elapsed(s).value + 1
    ensures s.remaining <= 1 ==> r == Finish(s.(remaining := s.remaining - 1))
    ensures Valid(s) ==> Valid(r)
  {
    var d := s.(remaining := s.remaining - 1);
    if d.remaining <= 0 then Finish(d) else d
  }

  /** `n` firings of the interval; it stops firing once the timer is not running. */
  function Ticks(s: Session, n: nat): Session
    decreases n
  {
    if n == 0 || s.phase != Running || s.mode.None? then s else Ticks(Step(s), n - 1)
  }

  /** A running pomodoro work phase with `n` seconds left is, `n` seconds later, running
      its break with the full break time loaded. */
  lemma {:induction false} WorkPhaseRunsIntoBreak(s: Session)
    requires s.mode == Some(Pomodoro) && s.phase == Running && !s.isBreak && s.remaining >= 1
    ensures Ticks(s, s.remaining) == s.(isBreak := true, remaining := s.settings.breakTime * 60)
    decreases s.remaining
  {
    if s.remaining > 1 {
      WorkPhaseRunsIntoBreak(Step(s));
    }
  }

  /** A running break with `n` seconds left is, `n` seconds later, an idle work phase
      with the full work time loaded. */
  lemma {:induction false} BreakEndsIdle(s: Session)
    requires s.mode == Some(Pomodoro) && s.phase == Running && s.isBreak && s.remaining >= 1
    ensures Ticks(s, s.remaining) == s.(phase := Idle, isBreak := false, remaining := s.settings.workTime * 60)
    decreases s.remaining
  {
    if s.remaining > 1 {
      BreakEndsIdle(Step(s));
    }
  }

  /** A running study or distraction-free session ends idle with its full duration
      loaded again: no automatic repeat. */
  lemma {:induction false} SessionEndsIdle(s: Session)
    requires s.mode == Some(Study) || s.mode == Some(DistractionFree)
    requires s.phase == Running && s.remaining >= 1
    ensures Ticks(s, s.remaining) ==
              s.(phase := Idle, isBreak := false, remaining := ModeSeconds(s.mode.value, s.settings))
    decreases s.remaining
  {
    if s.remaining > 1 {
      SessionEndsIdle(Step(s));
    }
  }

  /** Choosing pomodoro and starting: after the whole work time (1500 ticks with the
      default 25 minutes) the break is running with the break time loaded. */
  lemma PomodoroRound(s: Session)
    requires s.settings.workTime >= 1
    ensures var started := Start(SelectMode(s, Pomodoro));
            Ticks(started, s.settings.workTime * 60) ==
              Session(Some(Pomodoro), Running, true, s.settings.breakTime * 60, s.settings)
  {
    WorkPhaseRunsIntoBreak(Start(SelectMode(s, Pomodoro)));
  }

  /** The work-time slider: the setting always changes; the countdown is reloaded only
      for an idle pomodoro work phase. */
  function SetWorkTime(s: Session, v: nat): (r: Session)
    ensures r.settings == s.settings.(workTime := v)
    ensures r.mode == s.mode && r.phase == s.phase && r.isBreak == s.isBreak
    ensures r.remaining != s.remaining ==> s.mode == Some(Pomodoro) && !s.isBreak && s.phase == Idle
    ensures s.mode == Some(Pomodoro) && !s.isBreak && s.phase == Idle ==> Elapsed(r) == Some(0)
    ensures Valid(s) ==> Valid(r)
  {
    var st := s.settings.(workTime := v);
    if s.mode == Some(Pomodoro) && !s.isBreak && s.phase == Idle then s.(settings := st, remaining := v * 60)
    else s.(settings := st)
  }

  /** The break-time slider never touches the countdown. */
  function SetBreakTime(s: Session, v: nat): (r: Session)
    ensures r.settings == s.settings.(breakTime := v)
    ensures r.mode == s.mode && r.phase == s.phase && r.isBreak == s.isBreak && r.remaining == s.remaining
    ensures Valid(s) ==> Valid(r)
  {
    s.(settings := s.settings.(breakTime := v))
  }

  /** The session-time slider: the countdown is reloaded only for an idle study session. */
  function SetSessionTime(s: Session, v: nat): (r: Session)
    ensures r.settings == s.settings.(studyTime := v)
    ensures r.mode == s.mode && r.phase == s.phase && r.isBreak == s.isBreak
    ensures r.remaining != s.remaining ==> s.mode == Some(Study) && s.phase == Idle
    ensures s.mode == Some(Study) && s.phase == Idle ==> Elapsed(r) == Some(0)
    ensures Valid(s) ==> Valid(r)
  {
    var st := s.settings.(studyTime := v);
    if s.mode == Some(Study) && s.phase == Idle then s.(settings := st, remaining := v * 60)
    else s.(settings := st)
  }

  class ScriptFocusTimer {
    var activeTimerMode: Option<Mode>
    var timerState: Phase
    var isBreak: bool
    var timeRemaining: int
    var workTime: nat
    var breakTime: nat
    var studyTime: nat

    function State(): Session
      reads this
    {
      Session(activeTimerMode, timerState, isBreak, timeRemaining, Settings(workTime, breakTime, studyTime))
    }

    constructor ()
      ensures State() == Initial
    {
      activeTimerMode := None;
      timerState := Idle;
      isBreak := false;
      timeRemaining := 0;
      workTime, breakTime, studyTime := 25, 5, 45;
    }

    method SetActiveTimerMode(mode: Mode)
      modifies this
      ensures State() == SelectMode(old(State()), mode)
    {
      activeTimerMode := Some(mode);
      ResetTimer();
      if mode == Pomodoro {
        timeRemaining := workTime * 60;
      } else if mode == Study {
        timeRemaining := studyTime * 60;
      } else {
        timeRemaining := DistractionMinutes * 60;
      }
    }

    method StartTimer()
      modifies this
      ensures State() == Start(old(State()))
    {
      if activeTimerMode.None? {
        return;
      }
      timerState := Running;
    }

    method PauseTimer()
      modifies this
      ensures State() == Pause(old(State()))
    {
      timerState := Paused;
    }

    method ResetTimer()
      modifies this
      ensures State() == Reset(old(State()))
    {
      timerState := Idle;
      isBreak := false;
      if activeTimerMode == Some(Pomodoro) {
        timeRemaining := workTime * 60;
      } else if activeTimerMode == Some(Study) {
        timeRemaining := studyTime * 60;
      } else if activeTimerMode == Some(DistractionFree) {
        timeRemaining := DistractionMinutes * 60;
      }
    }

    method CompleteTimer()
      requires activeTimerMode.Some?
      modifies this
      ensures State() == Finish(old(State()))
    {
      timerState := Complete;
      if activeTimerMode == Some(Pomodoro) && !isBreak {
        isBreak := true;
        timeRemaining := breakTime * 60;
        StartTimer();
      } else if activeTimerMode == Some(Pomodoro) && isBreak {
        isBreak := false;
        timeRemaining := workTime * 60;
        ResetTimer();
      } else {
        ResetTimer();
      }
    }

    /** The body of the interval that `startTimer` installs. */
    method Tick()
      requires timerState == Running && activeTimerMode.Some?
      modifies this
      ensures State() == Step(old(State()))
    {
      timeRemaining := timeRemaining - 1;
      if timeRemaining <= 0 {
        CompleteTimer();
      }
    }

    method OnWorkTimeInput(value: nat)
      modifies this
      ensures State() == SetWorkTime(old(State()), value)
    {
      workTime := value;
      if activeTimerMode == Some(Pomodoro) && !isBreak && timerState == Idle {
        timeRemaining := workTime * 60;
      }
    }

    method OnBreakTimeInput(value: nat)
      modifies this
      ensures State() == SetBreakTime(old(State()), value)
    {
      breakTime := value;
    }

    method OnSessionTimeInput(value: nat)
      modifies this
      ensures State() == SetSessionTime(old(State()), value)
    {
      studyTime := value;
      if activeTimerMode == Some(Study) && timerState == Idle {
        timeRemaining := studyTime * 60;
      }
    }
  }
}
