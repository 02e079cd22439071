/** The supervision protocol (src/platform/unix/mod.rs, supervise_child and what it calls).

    The supervisor's loops may run for as long as the child does, so they are a state machine: a
    program counter for each place where the code waits for an answer of the kernel, reads the
    clock or sends a signal. Children die, signals arrive and time passes between any two steps.
    A run is any list of labels the machine accepts; `seen` records what was observed and done. */
module Supervision {
  import opened Results
  import opened SignalNumbers

  predicate IsTerminationSignal(sig: int) {
    sig == SIGTERM || sig == SIGINT || sig == SIGQUIT
  }

  // ---------------------------------------------------------------- time, in nanoseconds

  const MILLI: nat := 1_000_000
  const DURATION_MAX: nat := 0xFFFF_FFFF_FFFF_FFFF * 1_000_000_000 + 999_999_999
  const POLL_BLOCK: int := -1
  const POLL_MAX: int := 0x7FFF_FFFF

  datatype Deadline = At(time: nat) | Never {
    function Remaining(now: nat): nat {
      match this
      case At(time) => if now < time then time - now else 0
      case Never => DURATION_MAX
    }

    predicate Expired(now: nat) {
      Remaining(now) == 0
    }
  }

  /** The setting of one run; `instantMax` is the last time the clock type can express. */
  datatype Config = Config(graceMs: nat, instantMax: nat, pgroup: bool, tty: bool, expectZero: set<int>) {
    function After(now: nat): Deadline {
      if now + graceMs * MILLI <= instantMax then At(now + graceMs * MILLI) else Never
    }

    function ExitCode(code: int): int {
      if 0 <= code < 256 && code in expectZero then 0 else code
    }
  }

  /** A duration as a poll timeout in whole milliseconds. */
  function PollTimeout(remaining: nat): int {
    if remaining / MILLI <= POLL_MAX then remaining / MILLI else POLL_MAX
  }

  function Min(a: nat, b: nat): nat {
    if a <= b then a else b
  }

  // ---------------------------------------------------------------- kernel

  datatype Death = Exited(code: int) | Killed(sig: int) {
    function Code(): int {
      match this
      case Exited(code) => code
      case Killed(sig) => 128 + sig
    }
  }

  /** The main child: `Reaped` once a waitpid of the supervisor has returned its death, `Lost` when
      it is no longer this process's child for any other reason. */
  datatype Main = Alive | Zombie(death: Death) | Reaped(death: Death) | Lost

  /** `chld` says whether SIGCHLD is pending for the signalfd; several arrivals coalesce. */
  datatype Kernel = Kernel(now: nat, main: Main, chld: bool)

  // ---------------------------------------------------------------- what happens

  datatype Target = Direct | Group

  /** A signal that was sent, and to whom. */
  datatype Delivery = Delivery(target: Target, sig: int)

  datatype Event =
    | SignalRead(sig: int)
    | DeadlineChecked(at: nat)
    | TermNoted(at: nat)
    | Escalated(at: nat)
    | Sent(target: Target, sig: int)
    | MainReaped
    | CleanupBegan(deadline: Deadline)
    | CleanupTerm
    | GroupSeenGone
    | GroupKilled(at: nat)
    | WindowEnded(at: nat)
    | LiveMemberSeen
    | FailedGroupKilled

  /** Everything the safety properties speak of, kept up to date event by event. */
  datatype History = History(
    sent: seq<Delivery>,               // every signal sent, in order
    readsSinceCheck: nat,              // signals read since the deadline was last checked
    lastCheck: Option<nat>,            // when that was
    checks: nat,                       // how often it was checked
    terms: nat,                        // termination signals that moved the deadline
    firstTerm: Option<nat>,            // when the first of them was noted
    lastTerm: Option<nat>,             // when the latest of them was noted
    escalations: nat,                  // SIGKILLs of the main loop
    escalatedAt: Option<nat>,
    termsAtEscalation: nat,
    reapings: nat,                     // waitpid results that returned the main child's death
    directAfterReap: nat,              // signals sent to the main child's PID behind one of them
    cleanupDeadline: Option<Deadline>, // the deadline cleanup began with
    cleanupTerm: bool,                 // a termination signal was read during cleanup
    groupKills: nat,                   // SIGKILLs of the cleanup
    groupKilledAt: Option<nat>,
    termBeforeGroupKill: bool,
    windowEnded: Option<nat>,          // when a cleanup wait last gave up at its deadline
    groupGone: bool,                   // the group was asked for and not found
    liveMember: bool,                  // the latest event was a live, waitable member of the group
    failedGroupKills: nat,             // group SIGKILLs of the error path
    memberGroupKills: nat,             // those sent right behind such an event
    blindGroupKills: nat)              // those sent neither so nor while the main child is unreaped
  {
    function Observe(e: Event): (h: History)
      ensures h.liveMember <==> e.LiveMemberSeen?
    {
      var h := this.(liveMember := e.LiveMemberSeen?);
      match e
      case SignalRead(_) => h.(readsSinceCheck := readsSinceCheck + 1)
      case DeadlineChecked(at) => h.(readsSinceCheck := 0, lastCheck := Some(at), checks := checks + 1)
      case TermNoted(at) =>
        h.(terms := terms + 1, firstTerm := if firstTerm.Some? then firstTerm else Some(at), lastTerm := Some(at))
      case Escalated(at) => h.(escalations := escalations + 1, escalatedAt := Some(at), termsAtEscalation := terms)
      case Sent(target, sig) =>
        h.(sent := sent + [Delivery(target, sig)],
           directAfterReap := directAfterReap + (if target == Direct && reapings > 0 then 1 else 0))
      case MainReaped => h.(reapings := reapings + 1)
      case CleanupBegan(deadline) => h.(cleanupDeadline := Some(deadline))
      case CleanupTerm => h.(cleanupTerm := true)
      case GroupSeenGone => h.(groupGone := true)
      case GroupKilled(at) =>
        h.(groupKills := groupKills + 1, groupKilledAt := Some(at), termBeforeGroupKill := cleanupTerm)
      case WindowEnded(at) => h.(windowEnded := Some(at))
      case LiveMemberSeen => h
      case FailedGroupKilled =>
        h.(failedGroupKills := failedGroupKills + 1,
           memberGroupKills := memberGroupKills + (if liveMember then 1 else 0),
           blindGroupKills := blindGroupKills + (if liveMember || reapings == 0 then 0 else 1))
    }
  }

  const NOTHING_SEEN := History([], 0, None, 0, 0, None, None, 0, None, 0, 0, 0, None, false, 0, None, false, None,
    false, false, 0, 0, 0)

  /** What the code waits for: the result of a system call, or just its turn (`Go`). */
  datatype Answer =
    | Go
    | Interrupted
    | Error
    | Ready(pollin: bool, failed: bool)
    | NoSignal
    | Signal(sig: int, own: bool)
    | MainEnded
    | MainStopped
    | MainContinued
    | OtherChild
    | StillAlive
    | NoChild
    | SameGroup
    | MovedGroup
    | NoProcess
    | GroupExists
    | GroupGone
    | Suspended(continueAccepted: bool)
    | NotSuspended

  datatype Label =
    | Reply(answer: Answer)
    | Dies(death: Death)
    | Disappears
    | OtherChildChanges
    | TimePasses(elapsed: nat)

  // ---------------------------------------------------------------- program

  /** Where forwarding a signal to the main child continues. */
  datatype Return = ToBatch(budget: nat) | ToEscalated | ToLoop

  /** One call of the cleanup wait: after the main child of an unmanaged group, after SIGTERM to the
      group, or after SIGKILL to the group. Only the last one is not cut short by signals. */
  datatype Wait = Children | Terminated | KilledOff

  /** forward_to_main_child, in three stages. */
  datatype Stage = Original | Locate | Redirect

  datatype LoopPlace =
    | Top
    | Polling(timeout: int, since: nat)
    | Reading(budget: nat)
    | Draining(budget: nat, stopped: Option<bool>)
    | Forwarding(stage: Stage, sig: int, after: Return)
    | Noting(budget: nat)
    | AfterSignal(budget: nat)
    | DeadlineCheck
    | Bottom

  datatype CleanupPlace = Begin | GroupTerm(until: Deadline) | GroupKill | KillWindow

  datatype WaitCall = WaitCall(kind: Wait, until: Deadline)

  datatype WaitPlace =
    | Batch
    | Collect(budget: nat, terminate: bool)
    | Pass(budget: nat, terminate: bool, sig: int)
    | Passed(budget: nat, terminate: bool)
    | Reaping(terminate: bool)
    | Query(terminate: bool, childrenGone: bool)
    | Check(terminate: bool)
    | Doze(timeout: int, since: nat)

  datatype FailPlace = Failure | SignalGroup | SignalMain | WaitMain

  datatype GroupFailPlace =
    | Enter
    | WaitGroup(until: Deadline, killed: bool)
    | KillGroup(until: Deadline)
    | Sleep(until: Deadline)

  datatype Pc =
    | InLoop(at: LoopPlace)
    | InCleanup(step: CleanupPlace)
    | InWait(call: WaitCall, here: WaitPlace)
    | Finished(code: int)
    | InFailure(place: FailPlace)
    | InGroupFailure(point: GroupFailPlace)
    | Failed

  datatype State = State(
    kernel: Kernel,
    pc: Pc,
    deadline: Option<Deadline>,
    sigkillSent: bool,
    mainExit: Option<int>,
    suspend: bool,
    seen: History)
  {
    function Goto(pc: Pc): State {
      this.(pc := pc)
    }

    function Note(e: Event): State {
      this.(seen := seen.Observe(e))
    }

    function Reap(): State
      requires kernel.main.Zombie?
    {
      this.(kernel := kernel.(main := Reaped(kernel.main.death))).Note(MainReaped)
    }

    /** The answer StillAlive (0) is given only when no child has anything to report. */
    predicate CanBeStillAlive() {
      !kernel.main.Zombie?
    }

    predicate CanHaveNoChild() {
      kernel.main.Reaped? || kernel.main.Lost?
    }
  }

  function Start(now: nat, main: Main, chld: bool): State {
    State(Kernel(now, main, chld), InLoop(Top), None, false, None, false, NOTHING_SEEN)
  }

  /** Before supervision begins the child may have died already; its SIGCHLD is blocked and kept. */
  predicate Starts(s: State) {
    && s == Start(s.kernel.now, s.kernel.main, s.kernel.chld)
    && !s.kernel.main.Reaped?
    && (s.kernel.main.Zombie? ==> s.kernel.chld)
  }

  type Next = Option<State>

  function Fail(s: State): Next {
    Some(s.Goto(InFailure(Failure)))
  }

  /** The top of the main loop; `None` where the kernel cannot give that answer. */
  function PollStep(s: State, at: LoopPlace, a: Answer): Next {
    match (at, a)
    case (Top, Go) =>
      var timeout :=
        if s.deadline.Some? && !s.sigkillSent && s.mainExit.None? then
          PollTimeout(s.deadline.value.Remaining(s.kernel.now))
        else POLL_BLOCK;
      Some(s.Goto(InLoop(Polling(timeout, s.kernel.now))))
    case (Polling(_, _), Interrupted) => Some(s.Goto(InLoop(Top)))
    case (Polling(_, _), Error) => Fail(s)
    case (Polling(timeout, since), Ready(pollin, failed)) =>
      if failed then Fail(s)
      else if pollin then Some(s.(suspend := false).Goto(InLoop(Reading(SIGNAL_BATCH_LIMIT))))
      else if s.kernel.chld || !TimedOut(timeout, since, s.kernel.now) then None
      else Some(s.(suspend := false).Goto(InLoop(DeadlineCheck)))
    case _ => None
  }

  /** The main loop behind a batch: SIGKILL at the deadline, leave the loop, or suspend the job. */
  function BottomStep(c: Config, s: State, at: LoopPlace, a: Answer): Next {
    match (at, a)
    case (DeadlineCheck, Go) =>
      var checked := s.Note(DeadlineChecked(s.kernel.now));
      if s.deadline.Some? && s.deadline.value.At? && !s.sigkillSent && s.mainExit.None?
         && s.kernel.now >= s.deadline.value.time then
        Some(checked.Note(Escalated(s.kernel.now)).Goto(InLoop(Forwarding(Original, SIGKILL, ToEscalated))))
      else Some(checked.Goto(InLoop(Bottom)))
    case (Bottom, Go) =>
      if s.mainExit.Some? then Some(s.Goto(InCleanup(Begin)))
      else if s.suspend && s.deadline.None? && c.tty then None
      else Some(s.Goto(InLoop(Top)))
    case (Bottom, Suspended(continueAccepted)) =>
      if s.mainExit.Some? || !s.suspend || s.deadline.Some? || !c.tty then None
      else if continueAccepted then Some(s.Goto(InLoop(Top)))
      else Some(s.Goto(InLoop(Forwarding(Original, SIGCONT, ToLoop))))
    case (Bottom, NotSuspended) =>
      if s.mainExit.Some? || !s.suspend || s.deadline.Some? || !c.tty then None else Some(s.Goto(InLoop(Top)))
    case _ => None
  }

  /** poll returns without an event only when its timeout has passed. */
  predicate TimedOut(timeout: int, since: nat, now: nat) {
    timeout != POLL_BLOCK && now >= since + timeout * MILLI
  }

  /** SIGCHLD can be read only where it is pending; any other signal may arrive at any time. */
  predicate CanTake(s: State, sig: int) {
    sig == SIGCHLD ==> s.kernel.chld
  }

  /** Taking one signal out of the signalfd. */
  function Take(s: State, sig: int): State {
    s.(kernel := s.kernel.(chld := s.kernel.chld && sig != SIGCHLD)).Note(SignalRead(sig))
  }

  /** Reading one signal of a batch in the main loop. */
  function ReadStep(s: State, budget: nat, a: Answer): Next {
    match a
    case Go => if budget == 0 then Some(s.Goto(InLoop(DeadlineCheck))) else None
    case NoSignal => if budget == 0 then None else Some(s.Goto(InLoop(DeadlineCheck)))
    case Error => if budget == 0 then None else Fail(s)
    case Signal(sig, own) =>
      if budget == 0 || !CanTake(s, sig) then None
      else
        var taken := Take(s, sig);
        if OwnWriteFailure(sig, own) then Some(taken.Goto(InLoop(Reading(budget - 1))))
        else if sig == SIGCHLD then Some(taken.Goto(InLoop(Draining(budget - 1, None))))
        else if sig == SIGTTIN || sig == SIGTTOU then Some(taken.Goto(InLoop(AfterSignal(budget - 1))))
        else
          Some(taken.(suspend := sig != SIGCONT && s.suspend)
               .Goto(InLoop(Forwarding(Original, sig, ToBatch(budget - 1)))))
    case _ => None
  }

  /** What follows a forwarded signal: the deadline it moves, and whether the batch goes on. */
  function NoteStep(c: Config, s: State, at: LoopPlace, a: Answer): Next {
    match (at, a)
    case (Noting(budget), Go) =>
      var now := s.kernel.now;
      Some(s.(deadline := Some(if s.deadline.None? then c.After(now) else At(now)))
           .Note(TermNoted(now)).Goto(InLoop(AfterSignal(budget))))
    case (AfterSignal(budget), Go) =>
      if s.mainExit.Some? then Some(s.Goto(InLoop(DeadlineCheck)))
      else if s.sigkillSent || s.deadline.None? then Some(s.Goto(InLoop(Reading(budget))))
      else
        Some(s.Note(DeadlineChecked(s.kernel.now))
             .Goto(InLoop(if s.deadline.value.Expired(s.kernel.now) then DeadlineCheck else Reading(budget))))
    case _ => None
  }

  /** handle_sigchld: reap until no child has anything left to report. */
  function DrainStep(s: State, budget: nat, stopped: Option<bool>, a: Answer): Next {
    match a
    case MainEnded =>
      if s.kernel.main.Zombie? then Some(s.(mainExit := Some(s.kernel.main.death.Code())).Reap()) else None
    case MainStopped => Some(s.Goto(InLoop(Draining(budget, Some(true)))))
    case MainContinued => Some(s.Goto(InLoop(Draining(budget, Some(false)))))
    case OtherChild => Some(s)
    case Interrupted => Some(s)
    case StillAlive => if s.CanBeStillAlive() then Some(Drained(s, budget, stopped)) else None
    case NoChild =>
      if !s.CanHaveNoChild() then None
      else if s.mainExit.Some? then Some(Drained(s, budget, stopped))
      else Fail(s)
    case Error => Fail(s)
    case _ => None
  }

  function Drained(s: State, budget: nat, stopped: Option<bool>): State {
    var suspend := if s.mainExit.Some? then false else if stopped.Some? then stopped.value else s.suspend;
    s.(suspend := suspend).Goto(InLoop(AfterSignal(budget)))
  }

  function Resume(s: State, sig: int, after: Return): State {
    match after
    case ToBatch(budget) =>
      if IsTerminationSignal(sig) && s.mainExit.None? && !s.sigkillSent then s.Goto(InLoop(Noting(budget)))
      else s.Goto(InLoop(AfterSignal(budget)))
    case ToEscalated => s.(sigkillSent := true).Goto(InLoop(Bottom))
    case ToLoop => s.Goto(InLoop(Top))
  }

  /** forward_to_main_child: the original group, and the main child itself if it has left it. */
  function ForwardStep(c: Config, s: State, stage: Stage, sig: int, after: Return, a: Answer): Next {
    match (stage, a)
    case (Original, Go) =>
      if c.pgroup then Some(s.Note(Sent(Group, sig)).Goto(InLoop(Forwarding(Locate, sig, after))))
      else Some(Resume(s.Note(Sent(Direct, sig)), sig, after))
    case (Locate, SameGroup) => Some(Resume(s, sig, after))
    case (Locate, NoProcess) => Some(Resume(s, sig, after))
    case (Locate, MovedGroup) => Some(s.Goto(InLoop(Forwarding(Redirect, sig, after))))
    case (Locate, Error) => Some(s.Goto(InLoop(Forwarding(Redirect, sig, after))))
    case (Redirect, Go) => Some(Resume(s.Note(Sent(Direct, sig)), sig, after))
    case _ => None
  }

  /** After the main child has been reaped: SIGTERM, the shared deadline, SIGKILL, a last window. */
  function CleanupStep(c: Config, s: State, step: CleanupPlace, a: Answer): Next {
    match (step, a)
    case (Begin, Go) =>
      var until := if s.deadline.Some? then s.deadline.value else c.After(s.kernel.now);
      var began := s.Note(CleanupBegan(until));
      Some(began.Goto(if c.pgroup then InCleanup(GroupTerm(until)) else InWait(WaitCall(Children, until), Batch)))
    case (GroupTerm(until), Go) =>
      Some(s.Note(Sent(Group, SIGTERM)).Goto(InWait(WaitCall(Terminated, until), Batch)))
    case (GroupKill, Go) =>
      Some(s.Note(GroupKilled(s.kernel.now)).Note(Sent(Group, SIGKILL)).Goto(InCleanup(KillWindow)))
    case (KillWindow, Go) => Some(s.Goto(InWait(WaitCall(KilledOff, c.After(s.kernel.now)), Batch)))
    case _ => None
  }

  /** wait_for_cleanup returns whether what it waited for is gone. */
  function ReturnFromWait(c: Config, s: State, kind: Wait, gone: bool): State {
    if kind == Terminated && !gone then s.Goto(InCleanup(GroupKill))
    else s.Goto(Finished(if s.mainExit.Some? then c.ExitCode(s.mainExit.value) else 0))
  }

  /** wait_for_cleanup: reading one signal of a batch. */
  function CollectStep(s: State, call: WaitCall, budget: nat, terminate: bool, a: Answer): Next {
    match a
    case Go => if budget == 0 then Some(s.Goto(InWait(call, Reaping(terminate)))) else None
    case NoSignal => if budget == 0 then None else Some(s.Goto(InWait(call, Reaping(terminate))))
    case Error => if budget == 0 then None else Fail(s)
    case Signal(sig, own) =>
      if budget == 0 || !CanTake(s, sig) then None
      else
        var taken := Take(s, sig);
        if OwnWriteFailure(sig, own) || sig == SIGCHLD || sig == SIGTTIN || sig == SIGTTOU then
          Some(taken.Goto(InWait(call, Collect(budget - 1, terminate))))
        else Some(taken.Goto(InWait(call, Pass(budget - 1, terminate, sig))))
    case _ => None
  }

  /** wait_for_cleanup: starting a batch, and what follows a signal read from it. */
  function PassStep(c: Config, s: State, call: WaitCall, here: WaitPlace, a: Answer): Next {
    match (here, a)
    case (Batch, Go) => Some(s.Goto(InWait(call, Collect(SIGNAL_BATCH_LIMIT, false))))
    case (Pass(budget, terminate, sig), Go) =>
      var sent := if c.pgroup then s.Note(Sent(Group, sig)) else s;
      if IsTerminationSignal(sig) then Some(sent.Note(CleanupTerm).Goto(InWait(call, Passed(budget, true))))
      else Some(sent.Goto(InWait(call, Passed(budget, terminate))))
    case (Passed(budget, terminate), Go) =>
      if call.kind != KilledOff && terminate then Some(s.Goto(InWait(call, Reaping(terminate))))
      else
        var next := if call.until.Expired(s.kernel.now) then Reaping(terminate) else Collect(budget, terminate);
        Some(s.Note(DeadlineChecked(s.kernel.now)).Goto(InWait(call, next)))
    case _ => None
  }

  /** wait_for_cleanup, behind a batch: reap the children, ask for the group. */
  function ReapStep(c: Config, s: State, call: WaitCall, here: WaitPlace, a: Answer): Next {
    match (here, a)
    case (Reaping(_), OtherChild) => Some(s)
    case (Reaping(_), Interrupted) => Some(s)
    case (Reaping(terminate), StillAlive) =>
      if s.CanBeStillAlive() then Some(s.Goto(InWait(call, Query(terminate, false)))) else None
    case (Reaping(terminate), NoChild) =>
      if s.CanHaveNoChild() then Some(s.Goto(InWait(call, Query(terminate, true)))) else None
    case (Reaping(_), Error) => Fail(s)
    case (Query(terminate, childrenGone), Go) =>
      if c.pgroup then None
      else if childrenGone then Some(ReturnFromWait(c, s, call.kind, true))
      else Some(s.Goto(InWait(call, Check(terminate))))
    case (Query(terminate, _), GroupExists) => if c.pgroup then Some(s.Goto(InWait(call, Check(terminate)))) else None
    case (Query(_, _), GroupGone) =>
      if c.pgroup then Some(ReturnFromWait(c, s.Note(GroupSeenGone), call.kind, true)) else None
    case (Query(_, _), Error) => if c.pgroup then Fail(s) else None
    case _ => None
  }

  /** wait_for_cleanup: give up at the deadline, or poll for at most ten milliseconds. */
  function CheckStep(c: Config, s: State, call: WaitCall, here: WaitPlace, a: Answer): Next {
    match (here, a)
    case (Check(terminate), Go) =>
      var checked := s.Note(DeadlineChecked(s.kernel.now));
      if call.kind != KilledOff && terminate then Some(ReturnFromWait(c, checked, call.kind, false))
      else if call.until.Expired(s.kernel.now) then
        Some(ReturnFromWait(c, checked.Note(WindowEnded(s.kernel.now)), call.kind, false))
      else
        var timeout := PollTimeout(Min(call.until.Remaining(s.kernel.now), 10 * MILLI));
        Some(checked.Goto(InWait(call, Doze(timeout, s.kernel.now))))
    case (Doze(_, _), Interrupted) => Some(s.Goto(InWait(call, Batch)))
    case (Doze(_, _), Error) => Fail(s)
    case (Doze(timeout, since), Ready(pollin, failed)) =>
      if failed then Fail(s)
      else if !pollin && (s.kernel.chld || !TimedOut(timeout, since, s.kernel.now)) then None
      else Some(s.Goto(InWait(call, Batch)))
    case _ => None
  }

  /** supervise_child's own error path. */
  function FailStep(c: Config, s: State, place: FailPlace, a: Answer): Next {
    match (place, a)
    case (Failure, Go) => Some(s.Goto(if s.mainExit.None? then InFailure(SignalGroup) else InGroupFailure(Enter)))
    case (SignalGroup, Go) =>
      Some((if c.pgroup then s.Note(Sent(Group, SIGKILL)).Note(FailedGroupKilled) else s).Goto(InFailure(SignalMain)))
    case (SignalMain, Go) => Some(s.Note(Sent(Direct, SIGKILL)).Goto(InFailure(WaitMain)))
    case (SignalMain, Error) => Some(s.Note(Sent(Direct, SIGKILL)).Goto(InGroupFailure(Enter)))
    case (WaitMain, MainEnded) =>
      if s.kernel.main.Zombie? then Some(s.Reap().Goto(InGroupFailure(Enter))) else None
    case (WaitMain, MainStopped) => Some(s)
    case (WaitMain, Interrupted) => Some(s)
    case (WaitMain, NoChild) => if s.CanHaveNoChild() then Some(s.Goto(InGroupFailure(Enter))) else None
    case (WaitMain, Error) => Some(s.Goto(InGroupFailure(Enter)))
    case _ => None
  }

  /** cleanup_failed_process_group. */
  function GroupFailStep(c: Config, s: State, point: GroupFailPlace, a: Answer): Next {
    match (point, a)
    case (Enter, Go) =>
      Some(s.Goto(if c.pgroup then InGroupFailure(WaitGroup(c.After(s.kernel.now), false)) else Failed))
    case (WaitGroup(until, killed), StillAlive) =>
      Some(s.Note(LiveMemberSeen).Goto(InGroupFailure(if killed then Sleep(until) else KillGroup(until))))
    case (WaitGroup(_, _), MainEnded) => if s.kernel.main.Zombie? then Some(s.Reap()) else None
    case (WaitGroup(_, _), OtherChild) => Some(s)
    case (WaitGroup(_, _), Interrupted) => Some(s)
    case (WaitGroup(_, _), NoChild) => Some(s.Goto(Failed))
    case (WaitGroup(_, _), Error) => Some(s.Goto(Failed))
    case (KillGroup(until), Go) =>
      Some(s.Note(FailedGroupKilled).Note(Sent(Group, SIGKILL)).Goto(InGroupFailure(WaitGroup(until, true))))
    case (KillGroup(_), Error) => Some(s.Note(FailedGroupKilled).Note(Sent(Group, SIGKILL)).Goto(Failed))
    case (Sleep(until), Go) =>
      Some(s.Goto(if until.Expired(s.kernel.now) then Failed else InGroupFailure(WaitGroup(until, true))))
    case _ => None
  }

  function ProgramStep(c: Config, s: State, a: Answer): Next {
    match s.pc
    case InLoop(at) =>
      if at.Draining? then DrainStep(s, at.budget, at.stopped, a)
      else if at.Forwarding? then ForwardStep(c, s, at.stage, at.sig, at.after, a)
      else if at.Reading? then ReadStep(s, at.budget, a)
      else if at.Noting? || at.AfterSignal? then NoteStep(c, s, at, a)
      else if at.Top? || at.Polling? then PollStep(s, at, a)
      else BottomStep(c, s, at, a)
    case InCleanup(step) => CleanupStep(c, s, step, a)
    case InWait(call, here) =>
      if here.Collect? then CollectStep(s, call, here.budget, here.terminate, a)
      else if here.Batch? || here.Pass? || here.Passed? then PassStep(c, s, call, here, a)
      else if here.Reaping? || here.Query? then ReapStep(c, s, call, here, a)
      else CheckStep(c, s, call, here, a)
    case InFailure(place) => FailStep(c, s, place, a)
    case InGroupFailure(point) => GroupFailStep(c, s, point, a)
    case Finished(_) => None
    case Failed => None
  }

  /** One step of the program, or of the world around it. */
  function Step(c: Config, s: State, what: Label): Next {
    match what
    case Reply(a) => ProgramStep(c, s, a)
    case Dies(death) =>
      if s.kernel.main.Alive? then Some(s.(kernel := s.kernel.(main := Zombie(death), chld := true))) else None
    case Disappears =>
      if s.kernel.main.Alive? || s.kernel.main.Zombie? then Some(s.(kernel := s.kernel.(main := Lost))) else None
    case OtherChildChanges => Some(s.(kernel := s.kernel.(chld := true)))
    case TimePasses(elapsed) => Some(s.(kernel := s.kernel.(now := s.kernel.now + elapsed)))
  }

  /** The state a list of labels leads to, if the machine accepts them all. */
  function Run(c: Config, s: State, labels: seq<Label>): Next {
    if labels == [] then Some(s)
    else
      match Run(c, s, labels[..|labels| - 1])
      case None => None
      case Some(before) => Step(c, before, labels[|labels| - 1])
  }
}
