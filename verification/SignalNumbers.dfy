/** Signal numbers, and what both signal readers share (src/platform/unix/sys.rs and signals.rs). */
module SignalNumbers {
  const SIGINT := 2
  const SIGQUIT := 3
  const SIGILL := 4
  const SIGTRAP := 5
  const SIGABRT := 6
  const SIGBUS := 7
  const SIGFPE := 8
  const SIGKILL := 9
  const SIGSEGV := 11
  const SIGPIPE := 13
  const SIGTERM := 15
  const SIGCHLD := 17
  const SIGCONT := 18
  const SIGSTOP := 19
  const SIGTSTP := 20
  const SIGTTIN := 21
  const SIGTTOU := 22
  const SIGURG := 23
  const SIGXFSZ := 25
  const SIGWINCH := 28
  const SIGSYS := 31

  const SIGNAL_BATCH_LIMIT: nat := 64

  /** A write of the supervisor's own that failed: such signals are read and passed over. */
  predicate OwnWriteFailure(sig: int, own: bool) {
    (sig == SIGPIPE || sig == SIGXFSZ) && own
  }
}
