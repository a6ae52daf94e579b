/** The focus-timer modes and phases that script.js and FocusTools.tsx both use. */
module Focus {
  datatype Mode = Pomodoro | Study | DistractionFree

  datatype Phase = Idle | Running | Paused | Complete
}
