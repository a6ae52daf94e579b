/**
 * The focus countdown of the React `FocusTools` component
 * (src/components/FocusTools.tsx:20-161, sliders at 233-246, 251-264, 312-325).
 * Unlike script.js, a finished phase stops in `complete`: the break is loaded but not
 * started, and a study or distraction-free session stays at zero.
 * The state cells are the fields of `FocusTimer`; each handler is specified by a
 * function on `Session`, and the lemmas are about the functions.
 */
module FocusTools {
  import opened Focus

  /** The distraction-free session is always one hour. */
  const DistractionSeconds: int := 60 * 60

  /** `settings`, in minutes. */
  datatype Settings = Settings(workTime: int, breakTime: int, sessionTime: int)

  /** The stops of the three sliders. */
  predicate WorkTimeStop(v: int) { 5 <= v <= 60 && v % 5 == 0 }
  predicate BreakTimeStop(v: int) { 1 <= v <= 30 }
  predicate SessionTimeStop(v: int) { 10 <= v <= 120 && v % 5 == 0 }

  predicate ValidSettings(st: Settings)
  {
    WorkTimeStop(st.workTime) && BreakTimeStop(st.breakTime) && SessionTimeStop(st.sessionTime)
  }

  datatype Session = Session(mode: Mode, phase: Phase, isBreak: bool, remaining: int, settings: Settings)

  /** The state cells on mount, after the mode effect's first run. */
  const Initial: Session := Session(Pomodoro, Idle, false, 25 * 60, Settings(25, 5, 45))

  /** The full duration of a mode, in seconds, as the mode effect and `resetTimer` load it. */
  function ModeSeconds(m: Mode, st: Settings): (seconds: int)
    ensures m == Pomodoro ==> seconds == st.workTime * 60
    ensures m == Study ==> seconds == st.sessionTime * 60
    ensures m == DistractionFree ==> seconds == 3600
    ensures seconds == TotalSeconds(Session(m, Idle, false, 0, st))
    ensures ValidSettings(st) ==> 300 <= seconds <= 7200
  {
    match m
    case Pomodoro => st.workTime * 60
    case Study => st.sessionTime * 60
    case DistractionFree => DistractionSeconds
  }

  /** `totalSeconds` of `getProgressPercentage`. */
  function TotalSeconds(s: Session): (total: int)
    ensures ValidSettings(s.settings) ==> total >= 60
    ensures s.mode == Pomodoro && s.isBreak ==> total == s.settings.breakTime * 60
  {
    match s.mode
    case Pomodoro => (if s.isBreak then s.settings.breakTime else s.settings.workTime) * 60
    case Study => s.settings.sessionTime * 60
    case DistractionFree => DistractionSeconds
  }

  /** Seconds elapsed in the current phase. */
  function Elapsed(s: Session): (e: int)
    ensures Valid(s) ==> e <= TotalSeconds(s)
    ensures Valid(s) && s.phase == Complete && s.mode == Pomodoro ==> e == 0
    ensures Valid(s) && s.phase == Complete && s.mode != Pomodoro ==> e == TotalSeconds(s)
  {
    TotalSeconds(s) - s.remaining
  }

  /** What holds between events: settings on slider stops, no negative time, breaks only
      in pomodoro, and a completed phase holds what completion loaded (the next phase in
      full for pomodoro, nothing otherwise). */
  predicate Valid(s: Session)
  {
    && ValidSettings(s.settings)
    && s.remaining >= 0
    && (s.isBreak ==> s.mode == Pomodoro)
    && (s.phase == Complete ==> s.remaining == if s.mode == Pomodoro then TotalSeconds(s) else 0)
  }

  lemma InitialValid()
    ensures Valid(Initial)
    ensures Elapsed(Initial) == 0
  {
  }

  /** `resetTimer` */
  function Reset(s: Session): (r: Session)
    ensures r.phase == Idle && !r.isBreak && r.mode == s.mode && r.settings == s.settings
    ensures Elapsed(r) == 0
    ensures ValidSettings(s.settings) ==> Valid(r)
  {
    s.(phase := Idle, isBreak := false, remaining := ModeSeconds(s.mode, s.settings))
  }

  /** A tab change: the mode effect runs only when the mode actually changes. */
  function SelectMode(s: Session, m: Mode): (r: Session)
    ensures r.mode == m && r.settings == s.settings
    ensures m == s.mode ==> r == s
    ensures m != s.mode ==> r.phase == Idle && !r.isBreak && r.remaining == ModeSeconds(m, s.settings)
    ensures Valid(s) ==> Valid(r)
  {
    if m == s.mode then s else Reset(s.(mode := m))
  }

  /** `startTimer` */
  function Start(s: Session): (r: Session)
    ensures r.phase == Running
    ensures r.remaining == s.remaining && r.isBreak == s.isBreak && r.mode == s.mode && r.settings == s.settings
    ensures Valid(s) ==> Valid(r)
  {
    s.(phase := Running)
  }

  /** `pauseTimer` */
  function Pause(s: Session): (r: Session)
    ensures r.phase == Paused
    ensures r.remaining == s.remaining && r.isBreak == s.isBreak && r.mode == s.mode && r.settings == s.settings
    ensures Valid(s) ==> Valid(r)
  {
    s.(phase := Paused)
  }

  /** One firing of the interval: a second less while more than one remains, otherwise
      the phase completes and stops. */
  function Step(s: Session): (r: Session)
    requires s.phase == Running
    ensures r.mode == s.mode && r.settings == s.settings
    ensures s.remaining > 1 ==> r.phase == Running && r.isBreak == s.isBreak && r.remaining == s.remaining - 1
    ensures s.remaining > 1 ==> Elapsed(r) == Elapsed(s) + 1
    ensures s.remaining <= 1 ==> r.phase == Complete
    ensures s.remaining <= 1 && s.mode == Pomodoro ==> r.isBreak == !s.isBreak && Elapsed(r) == 0
    ensures s.remaining <= 1 && s.mode != Pomodoro ==> r.remaining == 0 && Elapsed(r) == TotalSeconds(s)
    ensures Valid(s) ==> Valid(r)
  {
    if s.remaining <= 1 then
      var c := s.(phase := Complete);
      if s.mode == Pomodoro && !s.isBreak then c.(isBreak := true, remaining := s.settings.breakTime * 60)
      else if s.mode == Pomodoro && s.isBreak then c.(isBreak := false, remaining := s.settings.workTime * 60)
      else c.(remaining := 0)
    else
      s.(remaining := s.remaining - 1)
  }

  /** `n` firings of the interval; the interval is cleared once the timer is not running. */
  function Ticks(s: Session, n: nat): Session
    decreases n
  {
    if n == 0 || s.phase != Running then s else Ticks(Step(s), n - 1)
  }

  /** Ticking never drives the countdown below zero, however long it runs. */
  lemma {:induction false} TicksKeepValid(s: Session, n: nat)
    requires Valid(s)
    ensures Valid(Ticks(s, n))
    ensures Ticks(s, n).remaining >= 0
    decreases n
  {
    if n > 0 && s.phase == Running {
      TicksKeepValid(Step(s), n - 1);
    }
  }

  /** A running phase with `n` seconds left stops in `complete` after `n` ticks, with the
      other pomodoro phase loaded in full, and further ticks change nothing. */
  lemma {:induction false} PomodoroPhaseCompletes(s: Session, extra: nat)
    requires s.mode == Pomodoro && s.phase == Running && s.remaining >= 1
    ensures Ticks(s, s.remaining + extra) ==
              s.(phase := Complete, isBreak := !s.isBreak,
                 remaining := (if s.isBreak then s.settings.workTime else s.settings.breakTime) * 60)
    decreases s.remaining
  {
    if s.remaining > 1 {
      PomodoroPhaseCompletes(Step(s), extra);
    }
  }

  /** A running study or distraction-free session with `n` seconds left stops in
      `complete` at zero after `n` ticks, and further ticks change nothing. */
  lemma {:induction false} SessionCompletesAtZero(s: Session, extra: nat)
    requires s.mode != Pomodoro && s.phase == Running && s.remaining >= 1
    ensures Ticks(s, s.remaining + extra) == s.(phase := Complete, remaining := 0)
    decreases s.remaining
  {
    if s.remaining > 1 {
      SessionCompletesAtZero(Step(s), extra);
    }
  }

  /** The work-time slider; disabled unless idle, and never reloads the countdown. */
  function SetWorkTime(s: Session, v: int): (r: Session)
    requires WorkTimeStop(v)
    ensures r.remaining == s.remaining && r.phase == s.phase && r.mode == s.mode && r.isBreak == s.isBreak
    ensures s.phase == Idle ==> r.settings == s.settings.(workTime := v)
    ensures s.phase != Idle ==> r == s
    ensures Valid(s) ==> Valid(r)
  {
    if s.phase != Idle then s else s.(settings := s.settings.(workTime := v))
  }

  /** The break-time slider; disabled unless idle, and never reloads the countdown. */
  function SetBreakTime(s: Session, v: int): (r: Session)
    requires BreakTimeStop(v)
    ensures r.remaining == s.remaining && r.phase == s.phase && r.mode == s.mode && r.isBreak == s.isBreak
    ensures s.phase == Idle ==> r.settings == s.settings.(breakTime := v)
    ensures s.phase != Idle ==> r == s
    ensures Valid(s) ==> Valid(r)
  {
    if s.phase != Idle then s else s.(settings := s.settings.(breakTime := v))
  }

  /** The session-length slider; disabled unless idle, and never reloads the countdown. */
  function SetSessionTime(s: Session, v: int): (r: Session)
    requires SessionTimeStop(v)
    ensures r.remaining == s.remaining && r.phase == s.phase && r.mode == s.mode && r.isBreak == s.isBreak
    ensures s.phase == Idle ==> r.settings == s.settings.(sessionTime := v)
    ensures s.phase != Idle ==> r == s
    ensures Valid(s) ==> Valid(r)
  {
    if s.phase != Idle then s else s.(settings := s.settings.(sessionTime := v))
  }

  class FocusTimer {
    var activeMode: Mode
    var timerState: Phase
    var timeRemaining: int
    var isBreak: bool
    var workTime: int
    var breakTime: int
    var sessionTime: int

    function State(): Session
      reads this
    {
      Session(activeMode, timerState, isBreak, timeRemaining, Settings(workTime, breakTime, sessionTime))
    }

    constructor ()
      ensures State() == Initial && Valid(State())
    {
      activeMode := Pomodoro;
      timerState := Idle;
      timeRemaining := 25 * 60;
      isBreak := false;
      workTime, breakTime, sessionTime := 25, 5, 45;
    }

    /** The tab handler followed by the mode effect. */
    method OnModeChange(mode: Mode)
      requires Valid(State())
      modifies this
      ensures State() == SelectMode(old(State()), mode) && Valid(State())
    {
      if mode == activeMode {
        return;
      }
      activeMode := mode;
      ResetTimer();
      match activeMode {
        case Pomodoro => timeRemaining := workTime * 60;
        case Study => timeRemaining := sessionTime * 60;
        case DistractionFree => timeRemaining := 60 * 60;
      }
    }

    method StartTimer()
      requires Valid(State())
      modifies this
      ensures State() == Start(old(State())) && Valid(State())
    {
      timerState := Running;
    }

    method PauseTimer()
      requires Valid(State())
      modifies this
      ensures State() == Pause(old(State())) && Valid(State())
    {
      timerState := Paused;
    }

    method ResetTimer()
      requires ValidSettings(State().settings)
      modifies this
      ensures State() == Reset(old(State())) && Valid(State())
    {
      timerState := Idle;
      isBreak := false;
      match activeMode {
        case Pomodoro => timeRemaining := workTime * 60;
        case Study => timeRemaining := sessionTime * 60;
        case DistractionFree => timeRemaining := 60 * 60;
      }
    }

    /** The interval callback installed while running. */
    method Tick()
      requires Valid(State()) && timerState == Running
      modifies this
      ensures State() == Step(old(State())) && Valid(State())
    {
      var prev := timeRemaining;
      if prev <= 1 {
        timerState := Complete;
        if activeMode == Pomodoro && !isBreak {
          isBreak := true;
          timeRemaining := breakTime * 60;
        } else if activeMode == Pomodoro && isBreak {
          isBreak := false;
          timeRemaining := workTime * 60;
        } else {
          timeRemaining := 0;
        }
      } else {
        timeRemaining := prev - 1;
      }
    }

    method OnWorkTimeChange(value: int)
      requires Valid(State()) && WorkTimeStop(value)
      modifies this
      ensures State() == SetWorkTime(old(State()), value) && Valid(State())
    {
      if timerState == Idle {
        workTime := value;
      }
    }

    method OnBreakTimeChange(value: int)
      requires Valid(State()) && BreakTimeStop(value)
      modifies this
      ensures State() == SetBreakTime(old(State()), value) && Valid(State())
    {
      if timerState == Idle {
        breakTime := value;
      }
    }

    method OnSessionTimeChange(value: int)
      requires Valid(State()) && SessionTimeStop(value)
      modifies this
      ensures State() == SetSessionTime(old(State()), value) && Valid(State())
    {
      if timerState == Idle {
        sessionTime := value;
      }
    }
  }
}
