/** What holds in every state of every run of the supervisor. */
module SupervisionSafety {
  import opened Results
  import opened SignalNumbers
  import opened Supervision

  /** The places the code reaches only while the main child has not been reaped. */
  predicate MayTouchMain(pc: Pc) {
    match pc
    case InLoop(at) => !(at.Draining? || at.AfterSignal? || at.DeadlineCheck? || at.Bottom?)
    case InFailure(place) => !place.Failure?
    case _ => false
  }

  predicate CleaningUp(pc: Pc) {
    pc.InCleanup? || pc.InWait? || pc.Finished?
  }

  predicate BehindMainWait(pc: Pc) {
    pc.InGroupFailure? || pc.Failed?
  }

  /** The exit status is known exactly when the child has been reaped, no wakeup is lost, and no
      signal goes to the PID of a reaped child. */
  predicate MainInv(c: Config, s: State) {
    && (s.mainExit.Some? ==> s.kernel.main.Reaped? && s.mainExit.value == s.kernel.main.death.Code())
    && (!BehindMainWait(s.pc) && s.kernel.main.Reaped? ==> s.mainExit.Some?)
    && (CleaningUp(s.pc) ==> s.mainExit.Some?)
    && (MayTouchMain(s.pc) ==> s.mainExit.None?)
    && (s.pc.Finished? ==> s.mainExit.Some? && s.pc.code == c.ExitCode(s.mainExit.value))
    && (s.pc.InLoop? && !s.pc.at.Draining? && s.kernel.main.Zombie? ==> s.kernel.chld)
    && s.seen.reapings == (if s.kernel.main.Reaped? then 1 else 0)
    && s.seen.directAfterReap == 0
  }

  predicate Escalating(pc: Pc) {
    pc.InLoop? && pc.at.Forwarding? && pc.at.after.ToEscalated?
  }

  /** The deadline had passed when it was last checked, and yet nothing has been done about it. */
  predicate Overdue(s: State) {
    && s.deadline.Some? && s.deadline.value.At?
    && s.seen.lastCheck.Some? && s.deadline.value.time <= s.seen.lastCheck.value
    && !s.sigkillSent && !Escalating(s.pc) && s.mainExit.None?
  }

  /** SIGKILL once, and only where a deadline or a second request asks for it. */
  predicate DeadlineInv(c: Config, s: State) {
    && (s.seen.terms == 0 <==> s.seen.firstTerm.None?)
    && (s.seen.terms == 0 <==> s.deadline.None?)
    && (s.seen.terms == 1 ==> s.deadline == Some(c.After(s.seen.firstTerm.value)))
    && (s.seen.terms > 0 ==> s.seen.lastTerm.Some?)
    && (s.seen.terms > 1 ==> s.deadline == Some(At(s.seen.lastTerm.value)))
    && (s.pc.InLoop? && Overdue(s) ==> s.pc.at.AfterSignal? || s.pc.at.DeadlineCheck?)
    && s.seen.escalations == (if s.sigkillSent || Escalating(s.pc) then 1 else 0)
    && (Escalating(s.pc) ==> !s.sigkillSent)
    && (s.seen.escalations > 0 ==> EscalationJustified(c, s.seen))
    && (s.pc.InLoop? && s.pc.at.Polling? ==> PollInv(s, s.pc.at.timeout, s.pc.at.since))
  }

  /** The supervisor sleeps without limit only where no deadline is left to keep, and otherwise never
      past the deadline. */
  /** The whole milliseconds from `since` to the deadline, up to `most`. */
  predicate IsTimeout(deadline: Deadline, since: nat, timeout: int, most: nat) {
    match deadline
    case Never => timeout == most
    case At(time) =>
      && 0 <= timeout <= most
      && (timeout > 0 ==> since + timeout * 1_000_000 <= time)
      && (timeout < most ==> time < since + (timeout + 1) * 1_000_000)
  }

  predicate PollInv(s: State, timeout: int, since: nat) {
    && since <= s.kernel.now
    && if s.deadline.None? || s.sigkillSent then timeout == POLL_BLOCK
       else IsTimeout(s.deadline.value, since, timeout, POLL_MAX)
  }

  predicate EscalationJustified(c: Config, h: History) {
    && h.escalatedAt.Some?
    && h.firstTerm.Some?
    && h.termsAtEscalation > 0
    && (h.termsAtEscalation == 1 ==> h.escalatedAt.value >= h.firstTerm.value + c.graceMs * MILLI)
  }

  /** Reads still allowed before the deadline must be checked, where a batch is under way. */
  function Budget(pc: Pc): Option<nat> {
    match pc
    case InLoop(at) =>
      if at.Reading? || at.Draining? || at.Noting? || at.AfterSignal? then Some(at.budget)
      else if at.Forwarding? && at.after.ToBatch? then Some(at.after.budget)
      else None
    case InWait(_, here) => if here.Collect? || here.Pass? || here.Passed? then Some(here.budget) else None
    case _ => None
  }

  predicate BeforeBatch(pc: Pc) {
    match pc
    case InLoop(at) => at.Top? || at.Polling? || at.Bottom? || (at.Forwarding? && !at.after.ToBatch?)
    case InCleanup(_) => true
    case InWait(_, here) => here.Batch? || here.Doze?
    case _ => false
  }

  predicate BatchInv(s: State) {
    && s.seen.readsSinceCheck <= SIGNAL_BATCH_LIMIT
    && (Budget(s.pc).Some? ==> s.seen.readsSinceCheck + Budget(s.pc).value <= SIGNAL_BATCH_LIMIT)
    && (BeforeBatch(s.pc) ==> s.seen.readsSinceCheck == 0)
  }

  /** One group SIGKILL while the main child is unreaped, and one right behind a live member. */
  predicate FailInv(s: State) {
    var h := s.seen;
    && h.blindGroupKills == 0
    && h.memberGroupKills <= 1
    && h.memberGroupKills <= h.failedGroupKills <= h.memberGroupKills + 1
    && (!BehindMainWait(s.pc) ==> h.memberGroupKills == 0 && h.reapings == (if s.kernel.main.Reaped? then 1 else 0))
    && (!BehindMainWait(s.pc) && !BehindGroupKill(s.pc) ==> h.failedGroupKills == 0)
    && (s.pc.InFailure? && !s.pc.place.Failure? ==> h.reapings == 0)
    && (s.pc.InGroupFailure? ==>
          match s.pc.point
          case Enter => h.memberGroupKills == 0
          case WaitGroup(_, killed) => h.memberGroupKills == if killed then 1 else 0
          case KillGroup(_) => h.memberGroupKills == 0 && h.liveMember
          case Sleep(_) => h.memberGroupKills == 1)
  }

  /** The places behind the group SIGKILL that the error path starts with. */
  predicate BehindGroupKill(pc: Pc) {
    pc.InFailure? && (pc.place.SignalMain? || pc.place.WaitMain?)
  }

  /** The group was killed because of a termination signal, or not before the shared deadline. */
  predicate GroupKillJustified(h: History) {
    && h.groupKilledAt.Some? && h.cleanupDeadline.Some?
    && (h.termBeforeGroupKill || (h.cleanupDeadline.value.At? && h.groupKilledAt.value >= h.cleanupDeadline.value.time))
  }

  /** The last wait cannot end at its deadline before a full grace period after the kill. */
  predicate FullWindow(c: Config, h: History, until: Deadline) {
    h.groupKilledAt.Some? && (until.At? ==> until.time >= h.groupKilledAt.value + c.graceMs * MILLI)
  }

  predicate Terminating(here: WaitPlace) {
    match here
    case Batch => false
    case Doze(_, _) => false
    case _ => here.terminate
  }

  /** Cleanup sleeps for at most ten milliseconds at a time, and never past the deadline of the wait. */
  predicate DozeInv(s: State, until: Deadline, timeout: int, since: nat) {
    && since <= s.kernel.now && !until.Expired(since)
    && IsTimeout(until, since, timeout, 10)
  }

  predicate CleanupInv(c: Config, s: State) {
    var h := s.seen;
    && h.groupKills <= 1
    && (h.groupKills > 0 ==> GroupKillJustified(h))
    && match s.pc
       case InLoop(_) => h.groupKills == 0 && !h.cleanupTerm
       case InCleanup(step) =>
         && (!step.Begin? ==> c.pgroup && SharesDeadline(s))
         && (step.KillWindow? ==>
               h.groupKills == 1 && h.groupKilledAt.Some? && h.groupKilledAt.value <= s.kernel.now)
         && (!step.KillWindow? ==> h.groupKills == 0)
         && (step.Begin? || step.GroupTerm? ==> !h.cleanupTerm)
         && (step.GroupTerm? ==> h.cleanupDeadline == Some(step.until))
         && (step.GroupKill? ==> h.cleanupTerm || h.cleanupDeadline.value.Expired(s.kernel.now))
       case InWait(call, here) =>
         && SharesDeadline(s)
         && (c.pgroup <==> call.kind != Children)
         && (Terminating(here) ==> h.cleanupTerm)
         && (call.kind != KilledOff && h.cleanupTerm ==> Terminating(here))
         && (here.Doze? ==> DozeInv(s, call.until, here.timeout, here.since))
         && (call.kind != KilledOff ==> h.cleanupDeadline == Some(call.until) && h.groupKills == 0)
         && (call.kind == KilledOff ==> h.groupKills == 1 && FullWindow(c, h, call.until))
       case Finished(_) =>
         && SharesDeadline(s)
         && (c.pgroup && !h.groupGone ==>
               && h.groupKills == 1 && h.groupKilledAt.Some? && h.windowEnded.Some?
               && h.windowEnded.value >= h.groupKilledAt.value + c.graceMs * MILLI)
       case _ => true
  }

  /** Cleanup began with the deadline that shutdown had started, if it had. */
  predicate SharesDeadline(s: State) {
    s.seen.cleanupDeadline.Some? && (s.deadline.Some? ==> s.seen.cleanupDeadline == s.deadline)
  }

  predicate Inv(c: Config, s: State) {
    MainInv(c, s) && DeadlineInv(c, s) && BatchInv(s) && FailInv(s) && CleanupInv(c, s)
  }

  /** Events of the cleanup wait that no part of the invariant forbids. */
  lemma QuietEvent(c: Config, s: State, e: Event)
    requires Inv(c, s) && s.pc.InWait?
    requires e.DeadlineChecked? || e.WindowEnded? || (e.Sent? && e.target == Group)
    ensures Inv(c, s.Note(e))
  {
  }

  /** Moving on inside one cleanup wait. */
  lemma WaitMovesOn(c: Config, s: State, to: WaitPlace)
    requires Inv(c, s) && s.pc.InWait?
    requires Terminating(to) ==> s.seen.cleanupTerm
    requires s.pc.call.kind != KilledOff && s.seen.cleanupTerm ==> Terminating(to)
    requires to.Collect? || to.Pass? || to.Passed? ==> s.seen.readsSinceCheck + to.budget <= SIGNAL_BATCH_LIMIT
    requires to.Batch? || to.Doze? ==> s.seen.readsSinceCheck == 0
    requires to.Doze? ==> DozeInv(s, s.pc.call.until, to.timeout, to.since)
    ensures Inv(c, s.Goto(InWait(s.pc.call, to)))
  {
  }

  /** Giving up a cleanup wait, right behind a deadline check. */
  lemma WaitGivesUp(c: Config, s: State, call: WaitCall, terminate: bool)
    requires Inv(c, s) && s.pc == InWait(call, Check(terminate)) && s.seen.readsSinceCheck == 0
    requires (call.kind != KilledOff && terminate)
          || (call.until.Expired(s.kernel.now) && s.seen.windowEnded == Some(s.kernel.now))
    ensures Inv(c, ReturnFromWait(c, s, call.kind, false))
  {
  }

  /** Where a system call has failed. */
  lemma FailureKeeps(c: Config, s: State)
    requires Inv(c, s) && (s.pc.InLoop? || s.pc.InWait?) && !Escalating(s.pc)
    ensures Inv(c, s.Goto(InFailure(Failure)))
  {
  }

  lemma TopKeeps(c: Config, s: State, a: Answer)
    requires s.pc == InLoop(Top) && Inv(c, s) && PollStep(s, Top, a).Some?
    ensures Inv(c, PollStep(s, Top, a).value)
  {
  }

  lemma PollingKeeps(c: Config, s: State, timeout: int, since: nat, a: Answer)
    requires s.pc == InLoop(Polling(timeout, since)) && Inv(c, s) && PollStep(s, Polling(timeout, since), a).Some?
    ensures Inv(c, PollStep(s, Polling(timeout, since), a).value)
  {
  }

  lemma DeadlineChecks(c: Config, s: State)
    requires s.pc == InLoop(DeadlineCheck) && Inv(c, s)
    requires s.deadline.Some? && s.deadline.value.At? && s.kernel.now >= s.deadline.value.time ==>
      s.sigkillSent || s.mainExit.Some?
    ensures Inv(c, s.Note(DeadlineChecked(s.kernel.now)).Goto(InLoop(Bottom)))
  {
    assert s.Note(DeadlineChecked(s.kernel.now)).seen == s.seen.(
      readsSinceCheck := 0, lastCheck := Some(s.kernel.now), checks := s.seen.checks + 1, liveMember := false);
  }

  lemma DeadlineEscalates(c: Config, s: State)
    requires s.pc == InLoop(DeadlineCheck) && Inv(c, s)
    requires s.deadline.Some? && s.deadline.value.At? && s.kernel.now >= s.deadline.value.time
    requires !s.sigkillSent && s.mainExit.None?
    ensures var escalated := s.Note(DeadlineChecked(s.kernel.now)).Note(Escalated(s.kernel.now));
      Inv(c, escalated.Goto(InLoop(Forwarding(Original, SIGKILL, ToEscalated))))
  {
    var escalated := s.Note(DeadlineChecked(s.kernel.now)).Note(Escalated(s.kernel.now));
    assert escalated.seen == s.seen.(
      readsSinceCheck := 0, lastCheck := Some(s.kernel.now), checks := s.seen.checks + 1, liveMember := false,
      escalations := s.seen.escalations + 1, escalatedAt := Some(s.kernel.now), termsAtEscalation := s.seen.terms);
  }

  lemma DeadlineCheckKeeps(c: Config, s: State, a: Answer)
    requires s.pc == InLoop(DeadlineCheck) && Inv(c, s) && BottomStep(c, s, DeadlineCheck, a).Some?
    ensures Inv(c, BottomStep(c, s, DeadlineCheck, a).value)
  {
    hide Inv;
    if s.deadline.Some? && s.deadline.value.At? && !s.sigkillSent && s.mainExit.None?
       && s.kernel.now >= s.deadline.value.time {
      DeadlineEscalates(c, s);
    } else {
      DeadlineChecks(c, s);
    }
  }

  lemma BottomKeeps(c: Config, s: State, a: Answer)
    requires s.pc == InLoop(Bottom) && Inv(c, s) && BottomStep(c, s, Bottom, a).Some?
    ensures Inv(c, BottomStep(c, s, Bottom, a).value)
  {
  }

  /** A signal was taken off the queue; only the drain may be entered without a SIGCHLD left there. */
  lemma LoopTakes(c: Config, s: State, budget: nat, sig: int)
    requires s.pc == InLoop(Reading(budget)) && budget > 0 && Inv(c, s)
    ensures sig != SIGCHLD ==> Inv(c, Take(s, sig).Goto(InLoop(Reading(budget - 1))))
    ensures Inv(c, Take(s, sig).Goto(InLoop(Draining(budget - 1, None))))
  {
    var taken := Take(s, sig);
    assert taken.seen == s.seen.(readsSinceCheck := s.seen.readsSinceCheck + 1, liveMember := false);
  }

  /** What follows a signal that is not SIGCHLD, and the end of a batch. */
  lemma ReadingMovesOn(c: Config, s: State, budget: nat, sig: int, suspend: bool)
    requires s.pc == InLoop(Reading(budget)) && Inv(c, s)
    ensures Inv(c, s.Goto(InLoop(AfterSignal(budget)))) && Inv(c, s.Goto(InLoop(DeadlineCheck)))
    ensures Inv(c, s.(suspend := suspend).Goto(InLoop(Forwarding(Original, sig, ToBatch(budget)))))
  {
  }

  lemma ReadKeeps(c: Config, s: State, budget: nat, a: Answer)
    requires s.pc == InLoop(Reading(budget))
    requires Inv(c, s) && ReadStep(s, budget, a).Some?
    ensures Inv(c, ReadStep(s, budget, a).value)
  {
    hide Inv;
    FailureKeeps(c, s);
    if a.Signal? {
      LoopTakes(c, s, budget, a.sig);
      if a.sig != SIGCHLD {
        var taken := Take(s, a.sig).Goto(InLoop(Reading(budget - 1)));
        ReadingMovesOn(c, taken, budget - 1, a.sig, a.sig != SIGCONT && s.suspend);
      }
    } else {
      ReadingMovesOn(c, s, budget, SIGTERM, false);
    }
  }

  lemma NotingKeeps(c: Config, s: State, budget: nat, a: Answer)
    requires s.pc == InLoop(Noting(budget)) && Inv(c, s) && NoteStep(c, s, Noting(budget), a).Some?
    ensures Inv(c, NoteStep(c, s, Noting(budget), a).value)
  {
  }

  lemma SignalIsDone(c: Config, s: State, budget: nat)
    requires s.pc == InLoop(AfterSignal(budget)) && Inv(c, s)
    ensures Inv(c, s.Goto(InLoop(DeadlineCheck)))
    ensures s.mainExit.None? && (s.sigkillSent || s.deadline.None?) ==> Inv(c, s.Goto(InLoop(Reading(budget))))
  {
  }

  lemma SignalIsChecked(c: Config, s: State, budget: nat)
    requires s.pc == InLoop(AfterSignal(budget)) && Inv(c, s) && s.mainExit.None? && s.deadline.Some?
    ensures var checked := s.Note(DeadlineChecked(s.kernel.now));
      Inv(c, checked.Goto(InLoop(if s.deadline.value.Expired(s.kernel.now) then DeadlineCheck else Reading(budget))))
  {
    assert s.Note(DeadlineChecked(s.kernel.now)).seen == s.seen.(
      readsSinceCheck := 0, lastCheck := Some(s.kernel.now), checks := s.seen.checks + 1, liveMember := false);
  }

  lemma AfterSignalKeeps(c: Config, s: State, budget: nat, a: Answer)
    requires s.pc == InLoop(AfterSignal(budget)) && Inv(c, s) && NoteStep(c, s, AfterSignal(budget), a).Some?
    ensures Inv(c, NoteStep(c, s, AfterSignal(budget), a).value)
  {
    hide Inv;
    SignalIsDone(c, s, budget);
    if s.mainExit.None? && s.deadline.Some? {
      SignalIsChecked(c, s, budget);
    }
  }

  lemma DrainReaps(c: Config, s: State)
    requires s.pc.InLoop? && s.pc.at.Draining? && s.kernel.main.Zombie? && Inv(c, s)
    ensures Inv(c, s.(mainExit := Some(s.kernel.main.death.Code())).Reap())
  {
    assert s.Reap().seen == s.seen.(reapings := s.seen.reapings + 1, liveMember := false);
  }

  lemma DrainGoesOn(c: Config, s: State, budget: nat, stopped: Option<bool>, next: Option<bool>)
    requires s.pc == InLoop(Draining(budget, stopped)) && Inv(c, s)
    ensures Inv(c, s.Goto(InLoop(Draining(budget, next))))
    ensures !s.kernel.main.Zombie? && (s.mainExit.Some? || !s.kernel.main.Reaped?) ==>
      Inv(c, Drained(s, budget, stopped))
  {
  }

  lemma DrainKeeps(c: Config, s: State, budget: nat, stopped: Option<bool>, a: Answer)
    requires s.pc == InLoop(Draining(budget, stopped))
    requires Inv(c, s) && DrainStep(s, budget, stopped, a).Some?
    ensures Inv(c, DrainStep(s, budget, stopped, a).value)
  {
    assert s.kernel.main.Reaped? ==> s.mainExit.Some?;
    hide Inv;
    FailureKeeps(c, s);
    DrainGoesOn(c, s, budget, stopped, if a.MainStopped? then Some(true) else Some(false));
    if a.MainEnded? {
      DrainReaps(c, s);
    }
  }

  /** Sending a signal in the main loop, to the main child only while it is unreaped. */
  lemma SendingKeeps(c: Config, s: State, stage: Stage, sig: int, after: Return, target: Target)
    requires s.pc == InLoop(Forwarding(stage, sig, after)) && Inv(c, s)
    ensures Inv(c, s.Note(Sent(target, sig)))
  {
    assert s.Note(Sent(target, sig)).seen
        == s.seen.(sent := s.seen.sent + [Delivery(target, sig)], liveMember := false);
  }

  lemma StageKeeps(c: Config, s: State, stage: Stage, sig: int, after: Return, next: Stage)
    requires s.pc == InLoop(Forwarding(stage, sig, after)) && Inv(c, s)
    ensures Inv(c, s.Goto(InLoop(Forwarding(next, sig, after))))
  {
  }

  lemma ResumeKeeps(c: Config, s: State, stage: Stage, sig: int, after: Return)
    requires s.pc == InLoop(Forwarding(stage, sig, after)) && Inv(c, s)
    ensures Inv(c, Resume(s, sig, after))
  {
  }

  lemma ForwardKeeps(c: Config, s: State, stage: Stage, sig: int, after: Return, a: Answer)
    requires s.pc == InLoop(Forwarding(stage, sig, after)) && Inv(c, s)
    requires ForwardStep(c, s, stage, sig, after, a).Some?
    ensures Inv(c, ForwardStep(c, s, stage, sig, after, a).value)
  {
    hide Inv, Resume;
    if a.Go? {
      var target := if stage == Original && c.pgroup then Group else Direct;
      SendingKeeps(c, s, stage, sig, after, target);
      StageKeeps(c, s.Note(Sent(target, sig)), stage, sig, after, Locate);
      ResumeKeeps(c, s.Note(Sent(target, sig)), stage, sig, after);
    } else {
      StageKeeps(c, s, stage, sig, after, Redirect);
      ResumeKeeps(c, s, stage, sig, after);
    }
  }

  lemma BeginKeeps(c: Config, s: State, a: Answer)
    requires s.pc == InCleanup(Begin) && Inv(c, s) && CleanupStep(c, s, Begin, a).Some?
    ensures Inv(c, CleanupStep(c, s, Begin, a).value)
  {
  }

  lemma KillWindowKeeps(c: Config, s: State, a: Answer)
    requires s.pc == InCleanup(KillWindow) && Inv(c, s) && CleanupStep(c, s, KillWindow, a).Some?
    ensures Inv(c, CleanupStep(c, s, KillWindow, a).value)
  {
  }

  lemma GroupTermKeeps(c: Config, s: State, until: Deadline, a: Answer)
    requires s.pc == InCleanup(GroupTerm(until)) && Inv(c, s) && CleanupStep(c, s, GroupTerm(until), a).Some?
    ensures Inv(c, CleanupStep(c, s, GroupTerm(until), a).value)
  {
    assert s.Note(Sent(Group, SIGTERM)).seen
        == s.seen.(sent := s.seen.sent + [Delivery(Group, SIGTERM)], liveMember := false);
  }

  lemma GroupKillKeeps(c: Config, s: State, a: Answer)
    requires s.pc == InCleanup(GroupKill) && Inv(c, s) && CleanupStep(c, s, GroupKill, a).Some?
    ensures Inv(c, CleanupStep(c, s, GroupKill, a).value)
  {
  }

  lemma CleanupKeeps(c: Config, s: State, step: CleanupPlace, a: Answer)
    requires s.pc == InCleanup(step) && Inv(c, s) && CleanupStep(c, s, step, a).Some?
    ensures Inv(c, CleanupStep(c, s, step, a).value)
  {
    hide Inv;
    match step
    case Begin => BeginKeeps(c, s, a);
    case GroupTerm(until) => GroupTermKeeps(c, s, until, a);
    case GroupKill => GroupKillKeeps(c, s, a);
    case KillWindow => KillWindowKeeps(c, s, a);
  }

  lemma WaitTakes(c: Config, s: State, call: WaitCall, budget: nat, terminate: bool, sig: int)
    requires s.pc == InWait(call, Collect(budget, terminate)) && budget > 0 && Inv(c, s)
    ensures Inv(c, Take(s, sig).Goto(InWait(call, Collect(budget - 1, terminate))))
  {
    assert Take(s, sig).seen == s.seen.(readsSinceCheck := s.seen.readsSinceCheck + 1, liveMember := false);
  }

  lemma TakingKeeps(c: Config, s: State, call: WaitCall, budget: nat, terminate: bool, sig: int)
    requires s.pc == InWait(call, Collect(budget, terminate)) && budget > 0 && Inv(c, s)
    ensures Inv(c, Take(s, sig).Goto(InWait(call, Collect(budget - 1, terminate))))
    ensures Inv(c, Take(s, sig).Goto(InWait(call, Pass(budget - 1, terminate, sig))))
  {
    WaitTakes(c, s, call, budget, terminate, sig);
    assert Take(s, sig).seen.readsSinceCheck == s.seen.readsSinceCheck + 1;
    WaitMovesOn(c, Take(s, sig).Goto(InWait(call, Collect(budget - 1, terminate))), Pass(budget - 1, terminate, sig));
  }

  lemma CollectKeeps(c: Config, s: State, call: WaitCall, budget: nat, terminate: bool, a: Answer)
    requires s.pc == InWait(call, Collect(budget, terminate))
    requires Inv(c, s) && CollectStep(s, call, budget, terminate, a).Some?
    ensures Inv(c, CollectStep(s, call, budget, terminate, a).value)
  {
    if a.Signal? {
      TakingKeeps(c, s, call, budget, terminate, a.sig);
    }
  }

  lemma BatchKeeps(c: Config, s: State, call: WaitCall, a: Answer)
    requires s.pc == InWait(call, Batch) && Inv(c, s) && PassStep(c, s, call, Batch, a).Some?
    ensures Inv(c, PassStep(c, s, call, Batch, a).value)
  {
  }

  lemma TermEndsWait(c: Config, s: State, call: WaitCall, budget: nat, terminate: bool, sig: int)
    requires s.pc == InWait(call, Pass(budget, terminate, sig)) && Inv(c, s)
    ensures Inv(c, s.Note(CleanupTerm).Goto(InWait(call, Passed(budget, true))))
  {
    assert s.Note(CleanupTerm).seen == s.seen.(cleanupTerm := true, liveMember := false);
  }

  lemma PassKeeps(c: Config, s: State, call: WaitCall, budget: nat, terminate: bool, sig: int, a: Answer)
    requires s.pc == InWait(call, Pass(budget, terminate, sig))
    requires Inv(c, s) && PassStep(c, s, call, Pass(budget, terminate, sig), a).Some?
    ensures Inv(c, PassStep(c, s, call, Pass(budget, terminate, sig), a).value)
  {
    QuietEvent(c, s, Sent(Group, sig));
    var sent := if c.pgroup then s.Note(Sent(Group, sig)) else s;
    if IsTerminationSignal(sig) {
      TermEndsWait(c, sent, call, budget, terminate, sig);
    } else {
      WaitMovesOn(c, sent, Passed(budget, terminate));
    }
  }

  lemma PassedKeeps(c: Config, s: State, call: WaitCall, budget: nat, terminate: bool, a: Answer)
    requires s.pc == InWait(call, Passed(budget, terminate))
    requires Inv(c, s) && PassStep(c, s, call, Passed(budget, terminate), a).Some?
    ensures Inv(c, PassStep(c, s, call, Passed(budget, terminate), a).value)
  {
  }

  lemma ReapingKeeps(c: Config, s: State, call: WaitCall, terminate: bool, a: Answer)
    requires s.pc == InWait(call, Reaping(terminate)) && Inv(c, s) && ReapStep(c, s, call, Reaping(terminate), a).Some?
    ensures Inv(c, ReapStep(c, s, call, Reaping(terminate), a).value)
  {
  }

  /** What was waited for is gone. */
  lemma WaitIsOver(c: Config, s: State, call: WaitCall, terminate: bool, childrenGone: bool)
    requires s.pc == InWait(call, Query(terminate, childrenGone)) && Inv(c, s)
    requires c.pgroup ==> s.seen.groupGone
    ensures Inv(c, ReturnFromWait(c, s, call.kind, true))
  {
  }

  lemma GroupGoneKeeps(c: Config, s: State)
    requires s.pc.InWait? && Inv(c, s)
    ensures Inv(c, s.Note(GroupSeenGone)) && s.Note(GroupSeenGone).seen.groupGone
  {
    assert s.Note(GroupSeenGone).seen == s.seen.(groupGone := true, liveMember := false);
  }

  lemma QueryKeeps(c: Config, s: State, call: WaitCall, terminate: bool, childrenGone: bool, a: Answer)
    requires s.pc == InWait(call, Query(terminate, childrenGone))
    requires Inv(c, s) && ReapStep(c, s, call, Query(terminate, childrenGone), a).Some?
    ensures Inv(c, ReapStep(c, s, call, Query(terminate, childrenGone), a).value)
  {
    hide Inv;
    FailureKeeps(c, s);
    QueryMovesOn(c, s, call, terminate, childrenGone);
    if c.pgroup {
      GroupGoneKeeps(c, s);
      WaitIsOver(c, s.Note(GroupSeenGone), call, terminate, childrenGone);
    } else {
      WaitIsOver(c, s, call, terminate, childrenGone);
    }
  }

  lemma QueryMovesOn(c: Config, s: State, call: WaitCall, terminate: bool, childrenGone: bool)
    requires s.pc == InWait(call, Query(terminate, childrenGone)) && Inv(c, s)
    ensures Inv(c, s.Goto(InWait(call, Check(terminate))))
  {
    WaitMovesOn(c, s, Check(terminate));
  }

  lemma DozeLasts(until: Deadline, now: nat)
    requires !until.Expired(now)
    ensures IsTimeout(until, now, PollTimeout(Min(until.Remaining(now), 10 * MILLI)), 10)
  {
  }

  lemma DozeBegins(c: Config, s: State, call: WaitCall, terminate: bool)
    requires Inv(c, s) && s.pc == InWait(call, Check(terminate)) && s.seen.readsSinceCheck == 0
    requires !(call.kind != KilledOff && terminate) && !call.until.Expired(s.kernel.now)
    ensures var timeout := PollTimeout(Min(call.until.Remaining(s.kernel.now), 10 * MILLI));
      Inv(c, s.Goto(InWait(call, Doze(timeout, s.kernel.now))))
  {
    hide IsTimeout, PollTimeout, Deadline.Remaining;
    DozeLasts(call.until, s.kernel.now);
    WaitMovesOn(c, s, Doze(PollTimeout(Min(call.until.Remaining(s.kernel.now), 10 * MILLI)), s.kernel.now));
  }

  lemma CheckKeeps(c: Config, s: State, call: WaitCall, terminate: bool, a: Answer)
    requires s.pc == InWait(call, Check(terminate)) && Inv(c, s) && CheckStep(c, s, call, Check(terminate), a).Some?
    ensures Inv(c, CheckStep(c, s, call, Check(terminate), a).value)
  {
    hide Inv;
    var checked := s.Note(DeadlineChecked(s.kernel.now));
    QuietEvent(c, s, DeadlineChecked(s.kernel.now));
    if call.kind != KilledOff && terminate {
      WaitGivesUp(c, checked, call, terminate);
    } else if call.until.Expired(s.kernel.now) {
      QuietEvent(c, checked, WindowEnded(s.kernel.now));
      WaitGivesUp(c, checked.Note(WindowEnded(s.kernel.now)), call, terminate);
    } else {
      DozeBegins(c, checked, call, terminate);
    }
  }

  lemma DozeKeeps(c: Config, s: State, call: WaitCall, timeout: int, since: nat, a: Answer)
    requires s.pc == InWait(call, Doze(timeout, since))
    requires Inv(c, s) && CheckStep(c, s, call, Doze(timeout, since), a).Some?
    ensures Inv(c, CheckStep(c, s, call, Doze(timeout, since), a).value)
  {
  }

  lemma SignalGroupKeeps(c: Config, s: State, a: Answer)
    requires s.pc == InFailure(SignalGroup) && Inv(c, s) && FailStep(c, s, SignalGroup, a).Some?
    ensures Inv(c, FailStep(c, s, SignalGroup, a).value)
  {
  }

  lemma WaitMainKeeps(c: Config, s: State, a: Answer)
    requires s.pc == InFailure(WaitMain) && Inv(c, s) && FailStep(c, s, WaitMain, a).Some?
    ensures Inv(c, FailStep(c, s, WaitMain, a).value)
  {
  }

  lemma SignalMainKeeps(c: Config, s: State, a: Answer)
    requires s.pc == InFailure(SignalMain) && Inv(c, s) && FailStep(c, s, SignalMain, a).Some?
    ensures Inv(c, FailStep(c, s, SignalMain, a).value)
  {
    assert s.Note(Sent(Direct, SIGKILL)).seen
        == s.seen.(sent := s.seen.sent + [Delivery(Direct, SIGKILL)], liveMember := false);
  }

  lemma FailureBegins(c: Config, s: State, a: Answer)
    requires s.pc == InFailure(Failure) && Inv(c, s) && FailStep(c, s, Failure, a).Some?
    ensures Inv(c, FailStep(c, s, Failure, a).value)
  {
  }

  lemma FailKeeps(c: Config, s: State, place: FailPlace, a: Answer)
    requires s.pc == InFailure(place) && Inv(c, s) && FailStep(c, s, place, a).Some?
    ensures Inv(c, FailStep(c, s, place, a).value)
  {
    hide Inv;
    match place
    case Failure => FailureBegins(c, s, a);
    case SignalGroup => SignalGroupKeeps(c, s, a);
    case SignalMain => SignalMainKeeps(c, s, a);
    case WaitMain => WaitMainKeeps(c, s, a);
  }

  lemma GroupReapKeeps(c: Config, s: State)
    requires s.pc.InGroupFailure? && s.pc.point.WaitGroup? && s.kernel.main.Zombie? && Inv(c, s)
    ensures Inv(c, s.Reap())
  {
    assert s.Reap().seen == s.seen.(reapings := s.seen.reapings + 1, liveMember := false);
  }

  lemma LiveMemberKeeps(c: Config, s: State, until: Deadline, killed: bool)
    requires s.pc == InGroupFailure(WaitGroup(until, killed)) && Inv(c, s)
    ensures var next := if killed then Sleep(until) else KillGroup(until);
      Inv(c, s.Note(LiveMemberSeen).Goto(InGroupFailure(next)))
  {
    assert s.Note(LiveMemberSeen).seen == s.seen.(liveMember := true);
  }

  lemma GroupFailEnds(c: Config, s: State)
    requires s.pc.InGroupFailure? && Inv(c, s)
    ensures Inv(c, s.Goto(Failed))
  {
  }

  lemma WaitGroupKeeps(c: Config, s: State, until: Deadline, killed: bool, a: Answer)
    requires s.pc == InGroupFailure(WaitGroup(until, killed))
    requires Inv(c, s) && GroupFailStep(c, s, WaitGroup(until, killed), a).Some?
    ensures Inv(c, GroupFailStep(c, s, WaitGroup(until, killed), a).value)
  {
    hide Inv;
    GroupFailEnds(c, s);
    LiveMemberKeeps(c, s, until, killed);
    if s.kernel.main.Zombie? {
      GroupReapKeeps(c, s);
    }
  }

  /** The group SIGKILL behind a live member. */
  lemma GroupKillCounts(c: Config, s: State, until: Deadline)
    requires s.pc == InGroupFailure(KillGroup(until)) && Inv(c, s)
    ensures var killed := s.Note(FailedGroupKilled).Note(Sent(Group, SIGKILL));
      Inv(c, killed.Goto(InGroupFailure(WaitGroup(until, true))))
  {
    var killed := s.Note(FailedGroupKilled).Note(Sent(Group, SIGKILL));
    assert killed.seen == s.seen.(
      sent := s.seen.sent + [Delivery(Group, SIGKILL)],
      failedGroupKills := s.seen.failedGroupKills + 1,
      memberGroupKills := s.seen.memberGroupKills + 1,
      liveMember := false);
  }

  lemma KillGroupKeeps(c: Config, s: State, until: Deadline, a: Answer)
    requires s.pc == InGroupFailure(KillGroup(until)) && Inv(c, s) && GroupFailStep(c, s, KillGroup(until), a).Some?
    ensures Inv(c, GroupFailStep(c, s, KillGroup(until), a).value)
  {
    hide Inv;
    GroupKillCounts(c, s, until);
    var killed := s.Note(FailedGroupKilled).Note(Sent(Group, SIGKILL));
    GroupFailEnds(c, killed.Goto(InGroupFailure(WaitGroup(until, true))));
  }

  lemma GroupFailKeeps(c: Config, s: State, point: GroupFailPlace, a: Answer)
    requires s.pc == InGroupFailure(point) && Inv(c, s) && GroupFailStep(c, s, point, a).Some?
    ensures Inv(c, GroupFailStep(c, s, point, a).value)
  {
    match point
    case WaitGroup(until, killed) => WaitGroupKeeps(c, s, until, killed, a);
    case KillGroup(until) => KillGroupKeeps(c, s, until, a);
    case _ =>
  }

  lemma StepKeeps(c: Config, s: State, what: Label)
    requires Inv(c, s) && Step(c, s, what).Some?
    ensures Inv(c, Step(c, s, what).value)
  {
    if !what.Reply? {
      WorldKeeps(c, s, what);
    } else if s.pc.InLoop? {
      LoopPlaceKeeps(c, s, s.pc.at, what.answer);
    } else if s.pc.InWait? {
      WaitPlaceKeeps(c, s, s.pc.call, s.pc.here, what.answer);
    } else {
      match s.pc
      case InCleanup(step) => CleanupKeeps(c, s, step, what.answer);
      case InFailure(place) => FailKeeps(c, s, place, what.answer);
      case InGroupFailure(point) => GroupFailKeeps(c, s, point, what.answer);
      case _ =>
    }
  }

  lemma LoopPlaceKeeps(c: Config, s: State, at: LoopPlace, a: Answer)
    requires s.pc == InLoop(at) && Inv(c, s) && ProgramStep(c, s, a).Some?
    ensures Inv(c, ProgramStep(c, s, a).value)
  {
    match at
    case Draining(budget, stopped) => DrainKeeps(c, s, budget, stopped, a);
    case Forwarding(stage, sig, after) => ForwardKeeps(c, s, stage, sig, after, a);
    case Reading(budget) => ReadKeeps(c, s, budget, a);
    case Noting(budget) => NotingKeeps(c, s, budget, a);
    case AfterSignal(budget) => AfterSignalKeeps(c, s, budget, a);
    case Top => TopKeeps(c, s, a);
    case Polling(timeout, since) => PollingKeeps(c, s, timeout, since, a);
    case DeadlineCheck => DeadlineCheckKeeps(c, s, a);
    case Bottom => BottomKeeps(c, s, a);
  }

  lemma WaitPlaceKeeps(c: Config, s: State, call: WaitCall, here: WaitPlace, a: Answer)
    requires s.pc == InWait(call, here) && Inv(c, s) && ProgramStep(c, s, a).Some?
    ensures Inv(c, ProgramStep(c, s, a).value)
  {
    match here
    case Collect(budget, terminate) => CollectKeeps(c, s, call, budget, terminate, a);
    case Batch => BatchKeeps(c, s, call, a);
    case Pass(budget, terminate, sig) => PassKeeps(c, s, call, budget, terminate, sig, a);
    case Passed(budget, terminate) => PassedKeeps(c, s, call, budget, terminate, a);
    case Reaping(terminate) => ReapingKeeps(c, s, call, terminate, a);
    case Query(terminate, childrenGone) => QueryKeeps(c, s, call, terminate, childrenGone, a);
    case Check(terminate) => CheckKeeps(c, s, call, terminate, a);
    case Doze(timeout, since) => DozeKeeps(c, s, call, timeout, since, a);
  }

  lemma MainChangeKeeps(c: Config, s: State, what: Label)
    requires Inv(c, s) && (what.Dies? || what.Disappears?) && Step(c, s, what).Some?
    ensures Inv(c, Step(c, s, what).value)
  {
  }

  lemma OtherChildKeeps(c: Config, s: State)
    requires Inv(c, s)
    ensures Inv(c, s.(kernel := s.kernel.(chld := true)))
  {
  }

  lemma TimeKeeps(c: Config, s: State, elapsed: nat)
    requires Inv(c, s)
    ensures Inv(c, s.(kernel := s.kernel.(now := s.kernel.now + elapsed)))
  {
  }

  lemma WorldKeeps(c: Config, s: State, what: Label)
    requires Inv(c, s) && !what.Reply? && Step(c, s, what).Some?
    ensures Inv(c, Step(c, s, what).value)
  {
    hide Inv;
    match what
    case OtherChildChanges => OtherChildKeeps(c, s);
    case TimePasses(elapsed) => TimeKeeps(c, s, elapsed);
    case _ => MainChangeKeeps(c, s, what);
  }

  lemma {:induction false} RunKeeps(c: Config, s: State, labels: seq<Label>)
    requires Starts(s) && Run(c, s, labels).Some?
    ensures Inv(c, Run(c, s, labels).value)
  {
    if labels != [] {
      var before := labels[..|labels| - 1];
      RunKeeps(c, s, before);
      StepKeeps(c, Run(c, s, before).value, labels[|labels| - 1]);
    }
  }

  // ---------------------------------------------------------------- what every run keeps

  /** No lost wakeup. Where the supervisor polls and its child is dead, SIGCHLD is pending: poll
      cannot time out, the signal can be read, and the drain this starts can reap the child. */
  lemma NoLostWakeup(c: Config, start: State, labels: seq<Label>)
    requires Starts(start) && Run(c, start, labels).Some?
    ensures var s := Run(c, start, labels).value;
      s.pc.InLoop? && s.pc.at.Polling? && s.kernel.main.Zombie? ==>
        s.kernel.chld && Step(c, s, Reply(Ready(false, false))).None? && ReapedInThreeSteps(c, s)
  {
    RunKeeps(c, start, labels);
  }

  predicate ReapedInThreeSteps(c: Config, s: State) {
    var polled := Step(c, s, Reply(Ready(true, false)));
    && polled.Some?
    && var read := Step(c, polled.value, Reply(Signal(SIGCHLD, false)));
    && read.Some?
    && var reaped := Step(c, read.value, Reply(MainEnded));
    && reaped.Some?
    && reaped.value.kernel.main.Reaped?
    && reaped.value.mainExit == Some(reaped.value.kernel.main.death.Code())
  }

  /** A drain ends only when no child has anything left to report, and so the dead child has been
      reaped, whatever other children do. */
  lemma DrainReapsTheChild(c: Config, start: State, labels: seq<Label>, answer: Answer)
    requires Starts(start) && Run(c, start, labels).Some?
    ensures var s := Run(c, start, labels).value;
      var t := Step(c, s, Reply(answer));
      s.pc.InLoop? && s.pc.at.Draining? && t.Some? && t.value.pc.InLoop? && !t.value.pc.at.Draining? ==>
        !t.value.kernel.main.Zombie? && (answer.StillAlive? || answer.NoChild?)
  {
    RunKeeps(c, start, labels);
  }

  /** The same holds for the reaping of the cleanup. */
  lemma CleanupReapsAllChildren(c: Config, s: State, answer: Answer)
    requires s.pc.InWait? && s.pc.here.Reaping? && Step(c, s, Reply(answer)).Some?
    ensures var t := Step(c, s, Reply(answer)).value;
      t.pc.InWait? && !t.pc.here.Reaping? ==> answer.StillAlive? || answer.NoChild?
  {
  }

  /** The child's death is returned by waitpid at most once, and no signal is sent to its PID after. */
  lemma ReapedChildIsNotSignalled(c: Config, start: State, labels: seq<Label>)
    requires Starts(start) && Run(c, start, labels).Some?
    ensures var h := Run(c, start, labels).value.seen; h.reapings <= 1 && h.directAfterReap == 0
  {
    RunKeeps(c, start, labels);
  }

  /** The main loop kills once, after a termination signal, and after the grace period of the first
      one unless another had come. */
  lemma EscalatesOnceAndInTime(c: Config, start: State, labels: seq<Label>)
    requires Starts(start) && Run(c, start, labels).Some?
    ensures var h := Run(c, start, labels).value.seen;
      && h.escalations <= 1
      && (h.escalations == 1 ==>
            && h.escalatedAt.Some? && h.firstTerm.Some? && h.termsAtEscalation > 0
            && (h.termsAtEscalation == 1 ==> h.escalatedAt.value >= h.firstTerm.value + c.graceMs * MILLI))
  {
    RunKeeps(c, start, labels);
  }

  /** A deadline is left as it is, or moved to the present moment. */
  predicate DeadlineMoved(s: State, t: State) {
    t.deadline == s.deadline || (t.deadline == Some(At(s.kernel.now)) && t.kernel.now == s.kernel.now)
  }

  lemma DeadlineMoves(c: Config, s: State, what: Label)
    requires s.deadline.Some? && Step(c, s, what).Some?
    ensures DeadlineMoved(s, Step(c, s, what).value)
  {
    if what.Reply? {
      if s.pc.InWait? {
        WaitKeepsDeadline(c, s, what.answer);
      } else if s.pc.InLoop? {
        LoopMovesDeadline(c, s, what.answer);
      } else {
        RestKeepsDeadline(c, s, what.answer);
      }
    }
  }

  lemma LoopMovesDeadline(c: Config, s: State, a: Answer)
    requires s.pc.InLoop? && s.deadline.Some? && ProgramStep(c, s, a).Some?
    ensures DeadlineMoved(s, ProgramStep(c, s, a).value)
  {
  }

  lemma WaitKeepsDeadline(c: Config, s: State, a: Answer)
    requires s.pc.InWait? && ProgramStep(c, s, a).Some?
    ensures ProgramStep(c, s, a).value.deadline == s.deadline
  {
    match s.pc.here
    case Collect(_, _) =>
    case Pass(_, _, _) =>
    case Reaping(_) =>
    case Query(_, _) =>
    case Check(_) =>
    case _ =>
  }

  lemma RestKeepsDeadline(c: Config, s: State, a: Answer)
    requires !s.pc.InLoop? && !s.pc.InWait? && ProgramStep(c, s, a).Some?
    ensures ProgramStep(c, s, a).value.deadline == s.deadline
  {
  }

  /** The remaining grace never grows, seen from any later moment. */
  lemma GraceOnlyShrinks(c: Config, s: State, what: Label, later: nat)
    requires s.deadline.Some? && Step(c, s, what).Some? && later >= Step(c, s, what).value.kernel.now
    ensures var t := Step(c, s, what).value;
      t.deadline.Some? && t.deadline.value.Remaining(later) <= s.deadline.value.Remaining(later)
  {
    DeadlineMoves(c, s, what);
  }

  /** A poll of the main loop that has a deadline to keep sleeps for the whole milliseconds of the grace
      that remained when it began, as far as poll can express them. */
  lemma PollKeepsTheDeadline(c: Config, start: State, labels: seq<Label>)
    requires Starts(start) && Run(c, start, labels).Some?
    ensures var s := Run(c, start, labels).value;
      s.pc.InLoop? && s.pc.at.Polling? && s.deadline.Some? && !s.sigkillSent ==>
        IsTimeout(s.deadline.value, s.pc.at.since, s.pc.at.timeout, 0x7FFF_FFFF)
  {
    RunKeeps(c, start, labels);
  }

  /** A poll of the cleanup lasts ten milliseconds, or what remains to the deadline of its wait. */
  lemma CleanupPollKeepsTheDeadline(c: Config, start: State, labels: seq<Label>)
    requires Starts(start) && Run(c, start, labels).Some?
    ensures var s := Run(c, start, labels).value;
      s.pc.InWait? && s.pc.here.Doze? ==>
        && IsTimeout(s.pc.call.until, s.pc.here.since, s.pc.here.timeout, 10)
        && (s.pc.call.until.At? ==> s.pc.here.since < s.pc.call.until.time)
  {
    RunKeeps(c, start, labels);
  }

  /** Success with a managed group: it was seen gone, or it was killed and then waited for during a
      whole grace period. That kill came no earlier than the deadline cleanup shares with shutdown,
      unless a termination signal was read during cleanup. */
  lemma CleanupIsComplete(c: Config, start: State, labels: seq<Label>)
    requires Starts(start) && Run(c, start, labels).Some?
    ensures var s := Run(c, start, labels).value;
      var h := s.seen;
      && (s.pc.Finished? && c.pgroup && !h.groupGone ==>
            && h.groupKills == 1 && h.groupKilledAt.Some? && h.windowEnded.Some?
            && h.windowEnded.value >= h.groupKilledAt.value + c.graceMs * MILLI)
      && (h.groupKills > 0 ==> h.groupKills == 1 && GroupKillJustified(h))
      && (s.pc.Finished? && s.deadline.Some? ==> h.cleanupDeadline == s.deadline)
  {
    RunKeeps(c, start, labels);
  }

  /** The error path kills the group at most twice: once while the main child is unreaped and so
      keeps its PID and its group, and once right behind a live, waitable member; and where there is
      such a member it has done so before it sleeps. */
  lemma FailureKillsOwnGroup(c: Config, start: State, labels: seq<Label>)
    requires Starts(start) && Run(c, start, labels).Some?
    ensures var h := Run(c, start, labels).value.seen;
      h.blindGroupKills == 0 && h.memberGroupKills <= 1 && h.failedGroupKills <= h.memberGroupKills + 1
    ensures var s := Run(c, start, labels).value;
      s.pc.InGroupFailure? && s.pc.point.Sleep? ==> s.seen.memberGroupKills == 1
  {
    RunKeeps(c, start, labels);
  }

  /** A flood of signals cannot keep the supervisor from looking at its deadline. */
  lemma FloodIsBounded(c: Config, start: State, labels: seq<Label>)
    requires Starts(start) && Run(c, start, labels).Some?
    ensures Run(c, start, labels).value.seen.readsSinceCheck <= 64
  {
    RunKeeps(c, start, labels);
  }

  predicate DiedAs(main: Main, death: Death) {
    main == Zombie(death) || main == Reaped(death) || main == Lost
  }

  /** The main child dies of one death, is reaped with that death, or is lost; nothing else happens. */
  predicate MainMoves(before: Main, after: Main, what: Label) {
    || after == before
    || (before.Alive? && what.Dies? && after == Zombie(what.death))
    || (before.Zombie? && after == Reaped(before.death))
    || ((before.Alive? || before.Zombie?) && after == Lost)
  }

  lemma StepMovesMain(c: Config, s: State, what: Label)
    requires Step(c, s, what).Some?
    ensures MainMoves(s.kernel.main, Step(c, s, what).value.kernel.main, what)
  {
    if what.Reply? {
      if s.pc.InWait? {
        WaitMovesMain(c, s, what.answer);
      } else if s.pc.InLoop? {
        LoopMovesMain(c, s, what.answer);
      } else {
        RestMovesMain(c, s, what.answer);
      }
    }
  }

  lemma LoopMovesMain(c: Config, s: State, a: Answer)
    requires s.pc.InLoop? && ProgramStep(c, s, a).Some?
    ensures MainMoves(s.kernel.main, ProgramStep(c, s, a).value.kernel.main, Reply(a))
  {
  }

  lemma WaitMovesMain(c: Config, s: State, a: Answer)
    requires s.pc.InWait? && ProgramStep(c, s, a).Some?
    ensures ProgramStep(c, s, a).value.kernel.main == s.kernel.main
  {
  }

  lemma RestMovesMain(c: Config, s: State, a: Answer)
    requires !s.pc.InLoop? && !s.pc.InWait? && ProgramStep(c, s, a).Some?
    ensures MainMoves(s.kernel.main, ProgramStep(c, s, a).value.kernel.main, Reply(a))
  {
  }

  /** The child died with this status, before supervision began or during the run. */
  predicate DiedWith(start: State, labels: seq<Label>, death: Death) {
    start.kernel.main == Zombie(death) || Dies(death) in labels
  }

  lemma {:induction false} DeathStays(c: Config, start: State, labels: seq<Label>, death: Death)
    requires Run(c, start, labels).Some? && DiedWith(start, labels, death)
    ensures DiedAs(Run(c, start, labels).value.kernel.main, death)
  {
    if labels != [] {
      var before := labels[..|labels| - 1];
      assert labels == before + [labels[|labels| - 1]];
      StepMovesMain(c, Run(c, start, before).value, labels[|labels| - 1]);
      if DiedWith(start, before, death) {
        DeathStays(c, start, before, death);
      }
    }
  }

  lemma {:induction false} DeathComesFromSomewhere(c: Config, start: State, labels: seq<Label>, death: Death)
    requires Starts(start) && Run(c, start, labels).Some?
    requires Run(c, start, labels).value.kernel.main in {Zombie(death), Reaped(death)}
    ensures DiedWith(start, labels, death)
  {
    if labels != [] {
      var before, last := labels[..|labels| - 1], labels[|labels| - 1];
      var s := Run(c, start, before).value;
      assert labels == before + [last];
      if last != Dies(death) {
        StepMovesMain(c, s, last);
        DeathComesFromSomewhere(c, start, before, death);
      }
    }
  }

  /** A run that succeeds returns the status the main child died with, before supervision or during
      it, whatever else was reaped, stopped, continued or signalled around it: its exit code, or 128
      and the number of the signal, unless that is one of the codes to be turned into 0. */
  lemma ExitStatusIsTheChilds(c: Config, start: State, labels: seq<Label>)
    requires Starts(start) && Run(c, start, labels).Some?
    ensures var s := Run(c, start, labels).value;
      s.pc.Finished? ==>
        && (exists death :: DiedWith(start, labels, death))
        && (forall death :: DiedWith(start, labels, death) ==>
              var status := match death case Exited(code) => code case Killed(sig) => 128 + sig;
              s.pc.code == if 0 <= status < 256 && status in c.expectZero then 0 else status)
  {
    RunKeeps(c, start, labels);
    var s := Run(c, start, labels).value;
    if s.pc.Finished? {
      DeathComesFromSomewhere(c, start, labels, s.kernel.main.death);
      forall death | DiedWith(start, labels, death)
        ensures s.pc.code == c.ExitCode(death.Code())
      {
        DeathStays(c, start, labels, death);
      }
    }
  }
}
