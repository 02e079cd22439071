/** What the supervisor owes to its child, told from what it reads and decides, and that it pays it: module
    SupervisionSafety bounds what is done, this one says that it is done. */
module SupervisionDuty {
  import opened Results
  import opened SignalNumbers
  import opened Supervision
  import opened SupervisionSafety

  /** Kept beside a run. `due`: every signal that must have been sent or be about to be. `terms`: the
      termination signals read while the main child was unreaped and not killed. `stopped`: the
      last the loop heard of the main child is that it stopped. `unchecked`: a poll has returned and
      the deadline has not been looked at since. `cleanupTerm`: a termination signal was read during
      cleanup. `gone`: what the cleanup waits for is gone. */
  datatype Ledger =
    Ledger(due: seq<Delivery>, terms: nat, stopped: bool, unchecked: bool, cleanupTerm: bool, gone: bool)

  const NOTHING_DUE := Ledger([], 0, false, false, false, false)

  /** All signals are for the child but SIGCHLD, SIGTTIN and SIGTTOU, and SIGPIPE and SIGXFSZ of the
      supervisor's own writes; here by their numbers on Linux. */
  predicate IsForwardable(sig: int, own: bool) {
    sig !in {17, 21, 22} && !(own && sig in {13, 25})
  }

  /** SIGINT, SIGQUIT and SIGTERM. */
  predicate AsksToStop(sig: int) {
    sig in {2, 3, 15}
  }

  function ToChild(c: Config, sig: int): Delivery {
    Delivery(if c.pgroup then Group else Direct, sig)
  }

  /** The latest signal again, for a main child that has left its group. */
  function Copy(due: seq<Delivery>): seq<Delivery> {
    if due == [] then [] else [Delivery(Direct, due[|due| - 1].sig)]
  }

  /** What an answer of the kernel asks for. */
  function Asked(c: Config, due: seq<Delivery>, before: State, a: Answer): seq<Delivery> {
    match a
    case Signal(sig, own) =>
      if !IsForwardable(sig, own) then []
      else if before.pc.InLoop? then [ToChild(c, sig)]
      else if c.pgroup then [Delivery(Group, sig)]
      else []
    case Suspended(continueAccepted) => if continueAccepted then [] else [ToChild(c, SIGCONT)]
    case MovedGroup => Copy(due)
    case Error =>
      if before.pc.InLoop? && before.pc.at.Forwarding? then Copy(due)
      else if before.pc == InFailure(SignalMain) then [Delivery(Direct, SIGKILL)]
      else []
    case _ => if before.pc == InFailure(SignalMain) then [Delivery(Direct, SIGKILL)] else []
  }

  /** What the supervisor's own decisions ask for. */
  function Decided(c: Config, h: History, h': History): seq<Delivery> {
    if h'.escalations > h.escalations then [ToChild(c, SIGKILL)]
    else if h'.cleanupDeadline != h.cleanupDeadline && c.pgroup then [Delivery(Group, SIGTERM)]
    else if h'.groupKills > h.groupKills || h'.failedGroupKills > h.failedGroupKills then [Delivery(Group, SIGKILL)]
    else []
  }

  predicate PollReturned(before: State, a: Answer) {
    before.pc.InLoop? && before.pc.at.Polling? && a.Ready?
  }

  function Stopped(stopped: bool, before: State, a: Answer): bool {
    if PollReturned(before, a) || a.MainContinued? || (a.Signal? && a.sig == SIGCONT) then false
    else stopped || a.MainStopped?
  }

  predicate SaysGone(c: Config, before: State, a: Answer) {
    before.pc.InWait? && if c.pgroup then a.GroupGone? else a.NoChild?
  }

  function Booked(c: Config, l: Ledger, before: State, what: Label, after: State): Ledger {
    match what
    case Reply(a) =>
      Ledger(
        l.due + Asked(c, l.due, before, a) + Decided(c, before.seen, after.seen),
        l.terms + (if a.Signal? && AsksToStop(a.sig) && before.pc.InLoop? && !before.sigkillSent then 1 else 0),
        Stopped(l.stopped, before, a),
        (l.unchecked || PollReturned(before, a)) && after.seen.checks == before.seen.checks,
        l.cleanupTerm || (a.Signal? && AsksToStop(a.sig) && before.pc.InWait?),
        l.gone || SaysGone(c, before, a))
    case _ => l
  }

  function LedgerOf(c: Config, start: State, labels: seq<Label>): Ledger
    requires Run(c, start, labels).Some?
  {
    if labels == [] then NOTHING_DUE
    else
      var front, last := labels[..|labels| - 1], labels[|labels| - 1];
      Booked(c, LedgerOf(c, start, front), Run(c, start, front).value, last, Run(c, start, labels).value)
  }

  // ---------------------------------------------------------------- what is about to be done

  /** The signal that the code sends next, where it is on its way to send one. */
  function Pending(c: Config, pc: Pc): seq<Delivery> {
    match pc
    case InLoop(Forwarding(Original, sig, _)) => [ToChild(c, sig)]
    case InLoop(Forwarding(Redirect, sig, _)) => [Delivery(Direct, sig)]
    case InCleanup(GroupTerm(_)) => [Delivery(Group, SIGTERM)]
    case InWait(_, Pass(_, _, sig)) => if c.pgroup then [Delivery(Group, sig)] else []
    case _ => []
  }

  function PendingTerms(s: State): nat {
    match s.pc
    case InLoop(Forwarding(_, sig, ToBatch(_))) => if AsksToStop(sig) && !s.sigkillSent then 1 else 0
    case InLoop(Noting(_)) => 1
    case _ => 0
  }

  predicate WillSuspend(s: State) {
    match s.pc
    case InLoop(Draining(_, Some(stopped))) => stopped
    case _ => s.suspend
  }

  predicate DueInv(c: Config, s: State, due: seq<Delivery>) {
    && s.seen.sent + Pending(c, s.pc) == due
    && (s.pc.InLoop? || s.pc == InCleanup(Begin) ==> s.seen.cleanupDeadline.None?)
    && (s.pc.InLoop? && s.pc.at.Forwarding? && s.pc.at.stage != Original ==>
          c.pgroup && s.seen.sent != [] && s.seen.sent[|s.seen.sent| - 1] == Delivery(Group, s.pc.at.sig))
  }

  predicate TermInv(s: State, l: Ledger) {
    && s.seen.terms + PendingTerms(s) == l.terms
    && (CleaningUp(s.pc) ==>
          (l.cleanupTerm <==>
             s.seen.cleanupTerm || (s.pc.InWait? && s.pc.here.Pass? && AsksToStop(s.pc.here.sig))))
    && (s.pc.InLoop? ==> !l.cleanupTerm)
  }

  predicate LoopInv(s: State, l: Ledger) {
    s.pc.InLoop? ==>
      && (s.mainExit.None? ==> (WillSuspend(s) <==> l.stopped))
      && (l.unchecked ==> Budget(s.pc).Some? || s.pc.at.DeadlineCheck?)
  }

  /** The main child, and its group, are killed before the error path waits for them. */
  predicate KillInv(c: Config, s: State) {
    s.mainExit.None? ==>
      && (s.pc == InFailure(SignalMain) && c.pgroup ==> Delivery(Group, SIGKILL) in s.seen.sent)
      && (s.pc == InFailure(WaitMain) || BehindMainWait(s.pc) ==> KilledMain(c, s))
  }

  predicate KilledMain(c: Config, s: State) {
    Delivery(Direct, SIGKILL) in s.seen.sent && (c.pgroup ==> Delivery(Group, SIGKILL) in s.seen.sent)
  }

  /** A wait ends with the answer that it was waiting for. */
  predicate GoneInv(c: Config, s: State, l: Ledger) {
    && (CleaningUp(s.pc) && l.gone ==> Ending(c, s.pc))
    && (s.pc.InLoop? ==> !l.gone)
  }

  predicate Ending(c: Config, pc: Pc) {
    pc.Finished? || (!c.pgroup && pc.InWait? && pc.here.Query? && pc.here.childrenGone)
  }

  predicate Kept(c: Config, s: State, l: Ledger) {
    DueInv(c, s, l.due) && TermInv(s, l) && LoopInv(s, l) && KillInv(c, s) && GoneInv(c, s, l)
  }

  // ---------------------------------------------------------------- every step keeps it

  predicate KeepsOn(c: Config, s: State, l: Ledger, a: Answer)
    requires ProgramStep(c, s, a).Some?
  {
    var after := ProgramStep(c, s, a).value;
    Kept(c, after, Booked(c, l, s, Reply(a), after))
  }

  /** No decision was taken, and only these signals were sent. */
  predicate Sends(h: History, h': History, sent: seq<Delivery>) {
    && h'.sent == h.sent + sent && h'.terms == h.terms
    && h'.escalations == h.escalations && h'.cleanupDeadline == h.cleanupDeadline
    && h'.groupKills == h.groupKills && h'.failedGroupKills == h.failedGroupKills
  }

  predicate SameBooks(h: History, h': History) {
    Sends(h, h', []) && h'.cleanupTerm == h.cleanupTerm
  }

  /** A step outside the main loop that neither reads nor sends a signal. */
  predicate IsQuiet(c: Config, s: State, a: Answer, after: State) {
    && SameBooks(s.seen, after.seen) && after.mainExit == s.mainExit
    && !a.Signal? && !a.Suspended? && !a.MovedGroup?
    && !s.pc.InLoop? && !after.pc.InLoop? && s.pc != InFailure(SignalMain)
    && Pending(c, s.pc) == [] && Pending(c, after.pc) == []
    && (CleaningUp(after.pc) ==> CleaningUp(s.pc)) && after.pc != InCleanup(Begin)
    && (CleaningUp(after.pc) && (SaysGone(c, s, a) || Ending(c, s.pc)) ==> Ending(c, after.pc))
    && (after.pc.InWait? ==> !after.pc.here.Pass?) && (s.pc.InWait? ==> !s.pc.here.Pass?)
    && (after.pc != InFailure(SignalMain))
    && (after.pc == InFailure(WaitMain) || BehindMainWait(after.pc) ==>
          s.mainExit.Some? || s.pc == InFailure(WaitMain) || BehindMainWait(s.pc))
  }

  lemma QuietOwes(c: Config, s: State, l: Ledger, a: Answer, after: State)
    requires Kept(c, s, l) && IsQuiet(c, s, a, after)
    ensures Kept(c, after, Booked(c, l, s, Reply(a), after))
  {
    assert l.due + [] + [] == l.due;
  }

  lemma TopOwes(c: Config, s: State, l: Ledger, a: Answer)
    requires s.pc == InLoop(Top) && Kept(c, s, l) && PollStep(s, Top, a).Some?
    ensures KeepsOn(c, s, l, a)
  {
    hide PollTimeout, Deadline.Remaining;
    assert l.due + [] + [] == l.due;
  }

  lemma PollingOwes(c: Config, s: State, l: Ledger, timeout: int, since: nat, a: Answer, after: State)
    requires s.pc == InLoop(Polling(timeout, since)) && Kept(c, s, l)
    requires PollStep(s, Polling(timeout, since), a) == Some(after)
    ensures Kept(c, after, Booked(c, l, s, Reply(a), after))
  {
    assert l.due + [] + [] == l.due;
  }

  /** What an event writes into the books. */
  lemma Observed(h: History, e: Event)
    ensures var h' := h.Observe(e);
      match e
      case Sent(target, sig) => Sends(h, h', [Delivery(target, sig)]) && h'.cleanupTerm == h.cleanupTerm
      case CleanupTerm => Sends(h, h', []) && h'.cleanupTerm
      case CleanupBegan(deadline) =>
        SameBooks(h, h'.(cleanupDeadline := h.cleanupDeadline)) && h'.cleanupDeadline == Some(deadline)
      case GroupKilled(_) => SameBooks(h, h'.(groupKills := h.groupKills)) && h'.groupKills == h.groupKills + 1
      case FailedGroupKilled =>
        SameBooks(h, h'.(failedGroupKills := h.failedGroupKills)) && h'.failedGroupKills == h.failedGroupKills + 1
      case TermNoted(_) => SameBooks(h, h'.(terms := h.terms)) && h'.terms == h.terms + 1
      case Escalated(_) => SameBooks(h, h'.(escalations := h.escalations)) && h'.escalations == h.escalations + 1
      case _ => SameBooks(h, h')
    ensures h.Observe(e).checks == h.checks + if e.DeadlineChecked? then 1 else 0
  {
  }

  /** What one answer to a read of the main loop leads to. */
  predicate ReadLeads(s: State, budget: nat, a: Answer, after: State) {
    && SameBooks(s.seen, after.seen) && after.seen.checks == s.seen.checks
    && after.mainExit == s.mainExit && after.sigkillSent == s.sigkillSent
    && match a
       case Signal(sig, own) =>
         && budget > 0
         && if IsForwardable(sig, own) then
              && after.pc == InLoop(Forwarding(Original, sig, ToBatch(budget - 1)))
              && after.suspend == (sig != SIGCONT && s.suspend)
            else
              && after.suspend == s.suspend
              && (|| after.pc == InLoop(Reading(budget - 1)) || after.pc == InLoop(Draining(budget - 1, None))
                  || after.pc == InLoop(AfterSignal(budget - 1)))
       case _ =>
         && (a.Go? || a.NoSignal? || a.Error?)
         && (after.pc == InLoop(DeadlineCheck) || after.pc == InFailure(Failure)) && after.suspend == s.suspend
  }

  lemma ReadStepLeads(c: Config, s: State, budget: nat, a: Answer)
    requires s.pc == InLoop(Reading(budget)) && ReadStep(s, budget, a).Some?
    ensures ReadLeads(s, budget, a, ReadStep(s, budget, a).value)
  {
    if a.Signal? {
      Observed(s.seen, SignalRead(a.sig));
      hide History.Observe;
    }
  }

  lemma ReadOwes(c: Config, s: State, l: Ledger, budget: nat, a: Answer, after: State)
    requires Kept(c, s, l) && s.pc == InLoop(Reading(budget)) && ReadLeads(s, budget, a, after)
    ensures Kept(c, after, Booked(c, l, s, Reply(a), after))
  {
    assert l.due + [] + [] == l.due;
  }

  lemma NotingOwes(c: Config, s: State, l: Ledger, budget: nat, after: State)
    requires s.pc == InLoop(Noting(budget)) && Kept(c, s, l) && NoteStep(c, s, Noting(budget), Go) == Some(after)
    ensures Kept(c, after, Booked(c, l, s, Reply(Go), after))
  {
    Observed(s.seen, TermNoted(s.kernel.now));
    hide History.Observe;
    assert l.due + [] + [] == l.due;
  }

  lemma AfterSignalOwes(c: Config, s: State, l: Ledger, budget: nat, after: State)
    requires s.pc == InLoop(AfterSignal(budget)) && Kept(c, s, l)
    requires NoteStep(c, s, AfterSignal(budget), Go) == Some(after)
    ensures Kept(c, after, Booked(c, l, s, Reply(Go), after))
  {
    Observed(s.seen, DeadlineChecked(s.kernel.now));
    hide History.Observe;
    assert l.due + [] + [] == l.due;
  }

  lemma DrainEndedOwes(c: Config, s: State, l: Ledger, budget: nat, stopped: Option<bool>, after: State)
    requires s.pc == InLoop(Draining(budget, stopped)) && Kept(c, s, l)
    requires DrainStep(s, budget, stopped, MainEnded) == Some(after)
    ensures Kept(c, after, Booked(c, l, s, Reply(MainEnded), after))
  {
    Observed(s.seen, MainReaped);
    hide History.Observe;
    assert l.due + [] + [] == l.due;
  }

  lemma DrainOwes(c: Config, s: State, l: Ledger, budget: nat, stopped: Option<bool>, a: Answer, after: State)
    requires s.pc == InLoop(Draining(budget, stopped)) && Kept(c, s, l)
    requires DrainStep(s, budget, stopped, a) == Some(after)
    ensures Kept(c, after, Booked(c, l, s, Reply(a), after))
  {
    if a.MainEnded? {
      DrainEndedOwes(c, s, l, budget, stopped, after);
    } else {
      assert l.due + [] + [] == l.due;
    }
  }

  lemma ResumeOwes(c: Config, s: State, l: Ledger, stage: Stage, sig: int, after: Return)
    requires s.pc == InLoop(Forwarding(stage, sig, after)) && s.mainExit.None?
    requires TermInv(s, l) && LoopInv(s, l) && KillInv(c, s)
    ensures var t := Resume(s, sig, after); TermInv(t, l) && LoopInv(t, l) && KillInv(c, t)
    ensures Pending(c, Resume(s, sig, after).pc) == [] && Resume(s, sig, after).seen == s.seen
  {
  }

  lemma OriginalOwes(c: Config, s: State, l: Ledger, sig: int, after: Return, t: State)
    requires s.pc == InLoop(Forwarding(Original, sig, after)) && s.mainExit.None? && Kept(c, s, l)
    requires ForwardStep(c, s, Original, sig, after, Go) == Some(t)
    ensures Kept(c, t, Booked(c, l, s, Reply(Go), t))
  {
    var sent := s.Note(Sent(ToChild(c, sig).target, sig));
    Observed(s.seen, Sent(ToChild(c, sig).target, sig));
    hide History.Observe;
    ResumeOwes(c, sent, l, Original, sig, after);
    hide Resume;
    assert l.due + [] + [] == l.due;
  }

  lemma LocateOwes(c: Config, s: State, l: Ledger, sig: int, after: Return, a: Answer, t: State)
    requires s.pc == InLoop(Forwarding(Locate, sig, after)) && s.mainExit.None? && Kept(c, s, l)
    requires ForwardStep(c, s, Locate, sig, after, a) == Some(t)
    ensures Kept(c, t, Booked(c, l, s, Reply(a), t))
  {
    ResumeOwes(c, s, l, Locate, sig, after);
    hide Resume, History.Observe;
    assert s.seen.sent + [] == s.seen.sent && l.due + [] == l.due;
    assert Copy(l.due) == [Delivery(Direct, sig)];
    assert l.due + Copy(l.due) + [] == l.due + Copy(l.due);
  }

  lemma RedirectOwes(c: Config, s: State, l: Ledger, sig: int, after: Return, t: State)
    requires s.pc == InLoop(Forwarding(Redirect, sig, after)) && s.mainExit.None? && Kept(c, s, l)
    requires ForwardStep(c, s, Redirect, sig, after, Go) == Some(t)
    ensures Kept(c, t, Booked(c, l, s, Reply(Go), t))
  {
    Observed(s.seen, Sent(Direct, sig));
    hide History.Observe;
    ResumeOwes(c, s.Note(Sent(Direct, sig)), l, Redirect, sig, after);
    hide Resume;
    assert l.due + [] + [] == l.due;
  }

  lemma CheckOwes(c: Config, s: State, l: Ledger)
    requires s.pc == InLoop(DeadlineCheck) && Kept(c, s, l)
    ensures var after := s.Note(DeadlineChecked(s.kernel.now)).Goto(InLoop(Bottom));
      Kept(c, after, Booked(c, l, s, Reply(Go), after))
  {
    Observed(s.seen, DeadlineChecked(s.kernel.now));
    hide History.Observe;
    assert l.due + [] + [] == l.due;
  }

  lemma EscalationOwes(c: Config, s: State, l: Ledger)
    requires s.pc == InLoop(DeadlineCheck) && Kept(c, s, l) && !s.sigkillSent && s.mainExit.None?
    ensures var escalated := s.Note(DeadlineChecked(s.kernel.now)).Note(Escalated(s.kernel.now));
      var after := escalated.Goto(InLoop(Forwarding(Original, SIGKILL, ToEscalated)));
      Kept(c, after, Booked(c, l, s, Reply(Go), after))
  {
    Observed(s.seen, DeadlineChecked(s.kernel.now));
    Observed(s.seen.Observe(DeadlineChecked(s.kernel.now)), Escalated(s.kernel.now));
    hide History.Observe;
    assert l.due + [] == l.due;
  }

  lemma DeadlineOwes(c: Config, s: State, l: Ledger, a: Answer)
    requires s.pc == InLoop(DeadlineCheck) && Kept(c, s, l) && BottomStep(c, s, DeadlineCheck, a).Some?
    ensures KeepsOn(c, s, l, a)
  {
    hide Kept, Booked, History.Observe;
    CheckOwes(c, s, l);
    if !s.sigkillSent && s.mainExit.None? {
      EscalationOwes(c, s, l);
    }
  }

  lemma BottomOwes(c: Config, s: State, l: Ledger, a: Answer)
    requires s.pc == InLoop(Bottom) && Kept(c, s, l) && ProgramStep(c, s, a).Some? && !s.seen.cleanupTerm
    ensures KeepsOn(c, s, l, a)
  {
    assert l.due + [] + [] == l.due;
    assert l.due + [ToChild(c, SIGCONT)] + [] == l.due + [ToChild(c, SIGCONT)];
  }

  lemma BeginOwes(c: Config, s: State, l: Ledger, after: State)
    requires Kept(c, s, l) && CleanupStep(c, s, Begin, Go) == Some(after) && s.pc == InCleanup(Begin)
    ensures Kept(c, after, Booked(c, l, s, Reply(Go), after))
  {
    var until := if s.deadline.Some? then s.deadline.value else c.After(s.kernel.now);
    Observed(s.seen, CleanupBegan(until));
    hide History.Observe;
    assert l.due + [] == l.due;
  }

  lemma GroupTermOwes(c: Config, s: State, l: Ledger, until: Deadline, after: State)
    requires Kept(c, s, l) && s.pc == InCleanup(GroupTerm(until))
    requires CleanupStep(c, s, GroupTerm(until), Go) == Some(after)
    ensures Kept(c, after, Booked(c, l, s, Reply(Go), after))
  {
    Observed(s.seen, Sent(Group, SIGTERM));
    hide History.Observe;
    assert l.due + [] + [] == l.due;
  }

  lemma GroupKilledOwes(c: Config, s: State, l: Ledger, after: State)
    requires Kept(c, s, l) && CleanupStep(c, s, GroupKill, Go) == Some(after) && s.pc == InCleanup(GroupKill)
    ensures Kept(c, after, Booked(c, l, s, Reply(Go), after))
  {
    Observed(s.seen, GroupKilled(s.kernel.now));
    Observed(s.seen.Observe(GroupKilled(s.kernel.now)), Sent(Group, SIGKILL));
    hide History.Observe;
    assert l.due + [] == l.due;
  }

  lemma WindowIsQuiet(c: Config, s: State, after: State)
    requires CleanupStep(c, s, KillWindow, Go) == Some(after) && s.pc == InCleanup(KillWindow)
    ensures IsQuiet(c, s, Go, after)
  {
  }

  lemma CleanupOwes(c: Config, s: State, l: Ledger, a: Answer)
    requires Kept(c, s, l) && ProgramStep(c, s, a).Some? && s.pc.InCleanup?
    ensures KeepsOn(c, s, l, a)
  {
    hide IsQuiet, Kept, Booked, History.Observe;
    var after := ProgramStep(c, s, a).value;
    match s.pc.step
    case Begin => BeginOwes(c, s, l, after);
    case GroupTerm(until) => GroupTermOwes(c, s, l, until, after);
    case GroupKill => GroupKilledOwes(c, s, l, after);
    case KillWindow =>
      WindowIsQuiet(c, s, after);
      QuietOwes(c, s, l, a, after);
  }

  /** What one answer to a read of the cleanup leads to. */
  predicate CollectLeads(s: State, call: WaitCall, budget: nat, terminate: bool, a: Answer, after: State) {
    && SameBooks(s.seen, after.seen) && after.mainExit == s.mainExit && after.sigkillSent == s.sigkillSent
    && match a
       case Signal(sig, own) =>
         && budget > 0
         && after.pc == InWait(call,
              if IsForwardable(sig, own) then Pass(budget - 1, terminate, sig) else Collect(budget - 1, terminate))
       case _ =>
         && (a.Go? || a.NoSignal? || a.Error?)
         && (after.pc == InWait(call, Reaping(terminate)) || after.pc == InFailure(Failure))
  }

  lemma CollectStepLeads(s: State, call: WaitCall, budget: nat, terminate: bool, a: Answer)
    requires s.pc == InWait(call, Collect(budget, terminate)) && CollectStep(s, call, budget, terminate, a).Some?
    ensures CollectLeads(s, call, budget, terminate, a, CollectStep(s, call, budget, terminate, a).value)
  {
    if a.Signal? {
      Observed(s.seen, SignalRead(a.sig));
      hide History.Observe;
    }
  }

  lemma CollectOwes(c: Config, s: State, l: Ledger, call: WaitCall, budget: nat, terminate: bool, a: Answer,
      after: State)
    requires Kept(c, s, l) && s.pc == InWait(call, Collect(budget, terminate))
    requires CollectLeads(s, call, budget, terminate, a, after)
    ensures Kept(c, after, Booked(c, l, s, Reply(a), after))
  {
    assert l.due + [] + [] == l.due;
  }

  /** A signal read during cleanup goes to the group, and one that asks to stop is remembered. */
  predicate PassLeads(c: Config, s: State, call: WaitCall, sig: int, after: State) {
    && Sends(s.seen, after.seen, if c.pgroup then [Delivery(Group, sig)] else [])
    && (after.seen.cleanupTerm <==> s.seen.cleanupTerm || AsksToStop(sig))
    && after.mainExit == s.mainExit && after.sigkillSent == s.sigkillSent
    && after.pc.InWait? && after.pc.call == call && after.pc.here.Passed?
  }

  lemma PassStepLeads(c: Config, s: State, call: WaitCall, budget: nat, terminate: bool, sig: int)
    requires s.pc == InWait(call, Pass(budget, terminate, sig))
    ensures PassLeads(c, s, call, sig, PassStep(c, s, call, Pass(budget, terminate, sig), Go).value)
  {
    Observed(s.seen, Sent(Group, sig));
    Observed(s.seen, CleanupTerm);
    Observed(s.seen.Observe(Sent(Group, sig)), CleanupTerm);
    hide History.Observe;
  }

  lemma PassOwes(c: Config, s: State, l: Ledger, call: WaitCall, sig: int, after: State)
    requires Kept(c, s, l) && s.pc.InWait? && s.pc.call == call && s.pc.here.Pass? && s.pc.here.sig == sig
    requires PassLeads(c, s, call, sig, after)
    ensures Kept(c, after, Booked(c, l, s, Reply(Go), after))
  {
    assert l.due + [] + [] == l.due;
  }

  lemma BatchIsQuiet(c: Config, s: State, a: Answer)
    requires s.pc.InWait? && (s.pc.here.Batch? || s.pc.here.Passed?)
    requires ProgramStep(c, s, a).Some?
    ensures IsQuiet(c, s, a, ProgramStep(c, s, a).value)
  {
  }

  lemma ReapingIsQuiet(c: Config, s: State, call: WaitCall, terminate: bool, a: Answer)
    requires s.pc == InWait(call, Reaping(terminate)) && ReapStep(c, s, call, Reaping(terminate), a).Some?
    ensures IsQuiet(c, s, a, ReapStep(c, s, call, Reaping(terminate), a).value)
  {
  }

  lemma QueryIsQuiet(c: Config, s: State, call: WaitCall, terminate: bool, childrenGone: bool, a: Answer)
    requires s.pc == InWait(call, Query(terminate, childrenGone))
    requires ReapStep(c, s, call, Query(terminate, childrenGone), a).Some?
    ensures IsQuiet(c, s, a, ReapStep(c, s, call, Query(terminate, childrenGone), a).value)
  {
    hide History.Observe;
    Observed(s.seen, GroupSeenGone);
  }

  lemma CheckBooks(h: History, now: nat)
    ensures SameBooks(h, h.Observe(DeadlineChecked(now)))
    ensures SameBooks(h, h.Observe(DeadlineChecked(now)).Observe(WindowEnded(now)))
  {
    Observed(h, DeadlineChecked(now));
    Observed(h.Observe(DeadlineChecked(now)), WindowEnded(now));
  }

  lemma CheckIsQuiet(c: Config, s: State, terminate: bool, a: Answer)
    requires s.pc.InWait? && s.pc.here == Check(terminate) && CheckStep(c, s, s.pc.call, s.pc.here, a).Some?
    ensures IsQuiet(c, s, a, CheckStep(c, s, s.pc.call, s.pc.here, a).value)
  {
    CheckBooks(s.seen, s.kernel.now);
    hide History.Observe, PollTimeout, SameBooks, Deadline.Remaining, Deadline.Expired;
  }

  lemma DozeIsQuiet(c: Config, s: State, a: Answer)
    requires s.pc.InWait? && s.pc.here.Doze? && CheckStep(c, s, s.pc.call, s.pc.here, a).Some?
    ensures IsQuiet(c, s, a, CheckStep(c, s, s.pc.call, s.pc.here, a).value)
  {
  }

  lemma WaitOwes(c: Config, s: State, l: Ledger, a: Answer)
    requires Kept(c, s, l) && ProgramStep(c, s, a).Some?
    requires s.pc.InWait? && !s.pc.here.Collect? && !s.pc.here.Pass?
    ensures KeepsOn(c, s, l, a)
  {
    hide IsQuiet, Kept, Booked, CheckStep, ReapStep, PassStep;
    match s.pc.here {
    case Check(terminate) => CheckIsQuiet(c, s, terminate, a);
    case Doze(_, _) => DozeIsQuiet(c, s, a);
    case Reaping(terminate) => ReapingIsQuiet(c, s, s.pc.call, terminate, a);
    case Query(terminate, childrenGone) => QueryIsQuiet(c, s, s.pc.call, terminate, childrenGone, a);
    case _ => BatchIsQuiet(c, s, a);
    }
    QuietOwes(c, s, l, a, ProgramStep(c, s, a).value);
  }

  lemma FailureIsQuiet(c: Config, s: State, a: Answer)
    requires s.pc.InFailure? && (s.pc.place.WaitMain? || (s.pc.place.Failure? && s.mainExit.Some?))
    requires ProgramStep(c, s, a).Some?
    ensures IsQuiet(c, s, a, ProgramStep(c, s, a).value)
  {
  }

  lemma FailureOwes(c: Config, s: State, l: Ledger, after: State)
    requires Kept(c, s, l) && s.pc == InFailure(Failure) && s.mainExit.None?
    requires FailStep(c, s, Failure, Go) == Some(after)
    ensures Kept(c, after, Booked(c, l, s, Reply(Go), after))
  {
    assert l.due + [] + [] == l.due;
  }

  lemma KillGroupFirst(c: Config, s: State, l: Ledger, after: State)
    requires Kept(c, s, l) && s.pc == InFailure(SignalGroup) && FailStep(c, s, SignalGroup, Go) == Some(after)
    ensures Kept(c, after, Booked(c, l, s, Reply(Go), after))
  {
    hide History.Observe;
    Observed(s.seen, Sent(Group, SIGKILL));
    Observed(s.seen.Observe(Sent(Group, SIGKILL)), FailedGroupKilled);
    assert l.due + [] == l.due && l.due + [Delivery(Group, SIGKILL)] + [] == l.due + [Delivery(Group, SIGKILL)];
    if c.pgroup {
      assert after.seen.sent[|after.seen.sent| - 1] == Delivery(Group, SIGKILL);
    }
  }

  lemma KillMain(c: Config, s: State, l: Ledger, a: Answer, pc: Pc)
    requires Kept(c, s, l) && s.pc == InFailure(SignalMain) && (a.Go? || a.Error?)
    requires pc == InFailure(WaitMain) || pc == InGroupFailure(Enter)
    ensures var after := s.Note(Sent(Direct, SIGKILL)).Goto(pc); Kept(c, after, Booked(c, l, s, Reply(a), after))
  {
    Observed(s.seen, Sent(Direct, SIGKILL));
    hide History.Observe;
    var sent := s.seen.Observe(Sent(Direct, SIGKILL)).sent;
    assert l.due + [Delivery(Direct, SIGKILL)] + [] == l.due + [Delivery(Direct, SIGKILL)];
    assert sent[|sent| - 1] == Delivery(Direct, SIGKILL);
  }

  lemma KillOwes(c: Config, s: State, l: Ledger, a: Answer)
    requires Kept(c, s, l) && ProgramStep(c, s, a).Some?
    requires s.pc.InFailure? && !s.pc.place.WaitMain? && (s.pc.place.Failure? ==> s.mainExit.None?)
    ensures KeepsOn(c, s, l, a)
  {
    hide IsQuiet, Kept, Booked, History.Observe;
    var after := ProgramStep(c, s, a).value;
    match s.pc.place
    case Failure => FailureOwes(c, s, l, after);
    case SignalGroup => KillGroupFirst(c, s, l, after);
    case SignalMain => KillMain(c, s, l, a, after.pc);
  }

  lemma FailOwes(c: Config, s: State, l: Ledger, a: Answer)
    requires Kept(c, s, l) && ProgramStep(c, s, a).Some?
    requires s.pc.InFailure?
    ensures KeepsOn(c, s, l, a)
  {
    hide ProgramStep, IsQuiet, Kept, Booked;
    if s.pc.place.WaitMain? || (s.pc.place.Failure? && s.mainExit.Some?) {
      FailureIsQuiet(c, s, a);
      QuietOwes(c, s, l, a, ProgramStep(c, s, a).value);
    } else {
      KillOwes(c, s, l, a);
    }
  }

  lemma GroupWaitIsQuiet(c: Config, s: State, a: Answer)
    requires s.pc.InGroupFailure? && !s.pc.point.KillGroup?
    requires ProgramStep(c, s, a).Some?
    ensures IsQuiet(c, s, a, ProgramStep(c, s, a).value)
  {
  }

  lemma GroupKillOwes(c: Config, s: State, l: Ledger, a: Answer)
    requires Kept(c, s, l) && ProgramStep(c, s, a).Some?
    requires s.pc.InGroupFailure? && s.pc.point.KillGroup?
    ensures KeepsOn(c, s, l, a)
  {
  }

  lemma GroupFailOwes(c: Config, s: State, l: Ledger, a: Answer)
    requires Kept(c, s, l) && ProgramStep(c, s, a).Some?
    requires s.pc.InGroupFailure?
    ensures KeepsOn(c, s, l, a)
  {
    hide ProgramStep, IsQuiet, Kept, Booked;
    if s.pc.point.KillGroup? {
      GroupKillOwes(c, s, l, a);
    } else {
      GroupWaitIsQuiet(c, s, a);
      QuietOwes(c, s, l, a, ProgramStep(c, s, a).value);
    }
  }

  lemma LoopOwes(c: Config, s: State, l: Ledger, at: LoopPlace, a: Answer)
    requires s.pc == InLoop(at) && Inv(c, s) && Kept(c, s, l) && ProgramStep(c, s, a).Some?
    ensures KeepsOn(c, s, l, a)
  {
    assert !s.seen.cleanupTerm && (MayTouchMain(s.pc) ==> s.mainExit.None?);
    hide Inv, Kept, Booked, ReadLeads, History.Observe, ReadStep, PollStep, DrainStep, BottomStep;
    var after := ProgramStep(c, s, a).value;
    match at
    case Reading(budget) =>
      ReadStepLeads(c, s, budget, a);
      ReadOwes(c, s, l, budget, a, after);
    case Forwarding(Original, sig, resume) => OriginalOwes(c, s, l, sig, resume, after);
    case Forwarding(Locate, sig, resume) => LocateOwes(c, s, l, sig, resume, a, after);
    case Forwarding(Redirect, sig, resume) => RedirectOwes(c, s, l, sig, resume, after);
    case Draining(budget, stopped) => DrainOwes(c, s, l, budget, stopped, a, after);
    case DeadlineCheck => DeadlineOwes(c, s, l, a);
    case Bottom => BottomOwes(c, s, l, a);
    case Top => TopOwes(c, s, l, a);
    case Polling(timeout, since) => PollingOwes(c, s, l, timeout, since, a, after);
    case Noting(budget) => NotingOwes(c, s, l, budget, after);
    case AfterSignal(budget) => AfterSignalOwes(c, s, l, budget, after);
  }

  lemma CleanupWaitOwes(c: Config, s: State, l: Ledger, call: WaitCall, here: WaitPlace, a: Answer)
    requires s.pc == InWait(call, here) && Kept(c, s, l) && ProgramStep(c, s, a).Some?
    ensures KeepsOn(c, s, l, a)
  {
    hide Kept, Booked, CollectLeads, PassLeads, History.Observe, CollectStep, ReapStep, CheckStep;
    var after := ProgramStep(c, s, a).value;
    match here
    case Collect(budget, terminate) =>
      CollectStepLeads(s, call, budget, terminate, a);
      CollectOwes(c, s, l, call, budget, terminate, a, after);
    case Pass(budget, terminate, sig) =>
      PassStepLeads(c, s, call, budget, terminate, sig);
      PassOwes(c, s, l, call, sig, after);
    case _ => WaitOwes(c, s, l, a);
  }

  /** Nothing the world does changes what is owed. */
  lemma WorldOwes(c: Config, s: State, l: Ledger, what: Label)
    requires Kept(c, s, l) && !what.Reply? && Step(c, s, what).Some?
    ensures Kept(c, Step(c, s, what).value, l)
  {
  }

  lemma StepOwes(c: Config, s: State, l: Ledger, what: Label)
    requires Inv(c, s) && Kept(c, s, l) && Step(c, s, what).Some?
    ensures var after := Step(c, s, what).value; Kept(c, after, Booked(c, l, s, what, after))
  {
    hide Inv, Kept, ProgramStep;
    if !what.Reply? {
      WorldOwes(c, s, l, what);
    } else {
      hide Booked;
      match s.pc
      case InLoop(at) => LoopOwes(c, s, l, at, what.answer);
      case InWait(call, here) => CleanupWaitOwes(c, s, l, call, here, what.answer);
      case InCleanup(_) => CleanupOwes(c, s, l, what.answer);
      case InFailure(_) => FailOwes(c, s, l, what.answer);
      case InGroupFailure(_) => GroupFailOwes(c, s, l, what.answer);
      case Finished(_) => NothingFollows(c, s, what.answer);
      case Failed => NothingFollows(c, s, what.answer);
    }
  }

  lemma NothingFollows(c: Config, s: State, a: Answer)
    requires s.pc.Finished? || s.pc.Failed?
    ensures ProgramStep(c, s, a).None?
  {
  }

  lemma {:induction false} RunOwes(c: Config, start: State, labels: seq<Label>)
    requires Starts(start) && Run(c, start, labels).Some?
    ensures Kept(c, Run(c, start, labels).value, LedgerOf(c, start, labels))
  {
    if labels == [] {
      assert [] + Pending(c, start.pc) == [];
    } else {
      var front, last := labels[..|labels| - 1], labels[|labels| - 1];
      RunKeeps(c, start, front);
      RunOwes(c, start, front);
      hide Kept, Booked, Inv;
      StepOwes(c, Run(c, start, front).value, LedgerOf(c, start, front), last);
    }
  }

  // ---------------------------------------------------------------- what every run pays

  /** Where no signal is on its way, exactly the signals that were due have been sent, in their
      order: those read from the signalfd that are for the child, once to its group and once more to
      a main child that has left it, SIGKILL at an escalation, SIGCONT to resume, and what cleanup and
      the error path decide. */
  lemma EverySignalIsForwarded(c: Config, start: State, labels: seq<Label>)
    requires Starts(start) && Run(c, start, labels).Some?
    ensures var s := Run(c, start, labels).value;
      s.seen.sent + Pending(c, s.pc) == LedgerOf(c, start, labels).due
    ensures var s := Run(c, start, labels).value;
      IsAtRest(s.pc) ==> s.seen.sent == LedgerOf(c, start, labels).due
  {
    RunOwes(c, start, labels);
    var s := Run(c, start, labels).value;
    assert s.seen.sent + [] == s.seen.sent;
  }

  /** Between two signals: at the poll, before each read, at each check, and when all is over. */
  predicate IsAtRest(pc: Pc) {
    match pc
    case InLoop(at) => !at.Forwarding?
    case InCleanup(step) => !step.GroupTerm?
    case InWait(_, here) => !here.Pass?
    case _ => true
  }

  /** The deadline that the termination signals read so far ask for: none before the first, the end of
      its grace period where the clock can express it, and the moment of the latest of several. */
  predicate IsAskedFor(c: Config, deadline: Option<Deadline>, h: History, terms: nat) {
    && h.terms == terms
    && (terms == 0 <==> deadline.None?)
    && (terms == 1 ==>
          h.firstTerm.Some? &&
          var time := h.firstTerm.value + c.graceMs * 1_000_000;
          deadline == Some(if time <= c.instantMax then At(time) else Never))
    && (terms > 1 ==> h.lastTerm.Some? && deadline == Some(At(h.lastTerm.value)))
  }

  lemma DeadlineIsAskedFor(c: Config, s: State, l: Ledger)
    requires DeadlineInv(c, s) && TermInv(s, l) && PendingTerms(s) == 0
    ensures IsAskedFor(c, s.deadline, s.seen, l.terms)
  {
  }

  /** Every termination signal read while the main child is unreaped and not killed moves the
      deadline before the next signal is read: the first one starts the grace period, and each
      later one ends it at once. */
  lemma TerminationMovesTheDeadline(c: Config, start: State, labels: seq<Label>)
    requires Starts(start) && Run(c, start, labels).Some?
    ensures var s := Run(c, start, labels).value;
      s.pc.InLoop? && !s.pc.at.Forwarding? && !s.pc.at.Noting? ==>
        IsAskedFor(c, s.deadline, s.seen, LedgerOf(c, start, labels).terms)
  {
    hide Run, LedgerOf, DeadlineInv, TermInv, IsAskedFor;
    RunKeeps(c, start, labels);
    RunOwes(c, start, labels);
    var s := Run(c, start, labels).value;
    if s.pc.InLoop? && !s.pc.at.Forwarding? && !s.pc.at.Noting? {
      DeadlineIsAskedFor(c, s, LedgerOf(c, start, labels));
    }
  }

  /** Once a check has found the deadline passed the child is killed before anything else is read or
      polled for, and after every poll there is a check. */
  lemma EscalatesWhenDue(c: Config, start: State, labels: seq<Label>)
    requires Starts(start) && Run(c, start, labels).Some?
    ensures var s := Run(c, start, labels).value;
      s.pc.InLoop? && !s.pc.at.AfterSignal? && !s.pc.at.DeadlineCheck? ==> !Overdue(s)
    ensures var s := Run(c, start, labels).value;
      s.pc.InLoop? && (s.pc.at.Top? || s.pc.at.Polling? || s.pc.at.Bottom?) ==>
        !LedgerOf(c, start, labels).unchecked
  {
    RunKeeps(c, start, labels);
    RunOwes(c, start, labels);
  }

  /** With a terminal, and no shutdown under way, a stop of the main child suspends the job before
      the next poll; a continuation takes the stop back. */
  lemma StopsAreFollowed(c: Config, start: State, labels: seq<Label>)
    requires Starts(start) && Run(c, start, labels).Some?
    ensures var s := Run(c, start, labels).value;
      s.pc == InLoop(Bottom) && s.mainExit.None? && s.deadline.None? && c.tty ==>
        (LedgerOf(c, start, labels).stopped <==> Step(c, s, Reply(Go)).None?)
  {
    RunOwes(c, start, labels);
  }

  /** A termination signal read during cleanup ends a wait that can be cut short before it sleeps. */
  lemma TerminationEndsTheWait(c: Config, start: State, labels: seq<Label>)
    requires Starts(start) && Run(c, start, labels).Some?
    ensures var s := Run(c, start, labels).value;
      s.pc.InWait? && s.pc.call.kind != KilledOff && (s.pc.here.Doze? || s.pc.here.Batch?) ==>
        !LedgerOf(c, start, labels).cleanupTerm
  {
    RunKeeps(c, start, labels);
    RunOwes(c, start, labels);
  }

  /** The error path waits for a main child that was not reaped only after killing it and its group. */
  lemma FailureKillsTheChild(c: Config, start: State, labels: seq<Label>)
    requires Starts(start) && Run(c, start, labels).Some?
    ensures var s := Run(c, start, labels).value;
      (s.pc == InFailure(WaitMain) || s.pc.InGroupFailure? || s.pc.Failed?) && s.mainExit.None? ==>
        && Delivery(Direct, SIGKILL) in s.seen.sent
        && (c.pgroup ==> Delivery(Group, SIGKILL) in s.seen.sent)
  {
    RunOwes(c, start, labels);
  }

  /** Cleanup neither sleeps nor reads on once what it waits for is gone. */
  lemma GoneEndsTheWait(c: Config, start: State, labels: seq<Label>)
    requires Starts(start) && Run(c, start, labels).Some?
    ensures var s := Run(c, start, labels).value;
      s.pc.InWait? && !s.pc.here.Query? ==> !LedgerOf(c, start, labels).gone
  {
    RunOwes(c, start, labels);
  }
}
