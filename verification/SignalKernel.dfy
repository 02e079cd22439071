/** What the kernel does with the signals of one single-threaded process, as far as the supervisor
    depends on it: sections 2.4.1 and 2.4.3 of POSIX.1-2017 System Interfaces, with Linux's choice
    that a blocked signal is queued even while it is ignored. */
module SignalKernel {

  import opened SignalNumbers

  const STOP_SIGNALS: set<int> := {SIGSTOP, SIGTSTP, SIGTTIN, SIGTTOU}
  const DEFAULT_IGNORED: set<int> := {SIGCHLD, SIGCONT, SIGURG, SIGWINCH}
  const LAST_STANDARD: int := 31

  /** The highest signal number, the numbers the C library keeps to itself, the process, and whether
      its system calls may fail. */
  datatype Host = Host(last: int, reserved: set<int>, pid: int, mayFail: bool) {
    function Signals(): set<int> {
      set s | 1 <= s <= last && s !in reserved
    }

    function Blockable(): set<int> {
      Signals() - {SIGKILL, SIGSTOP}
    }
  }

  datatype Disposition = Default | Ignore | Catch

  /** `details` stands for the handler, its mask and its flags. */
  datatype Action = Action(disposition: Disposition, details: int)

  const IGNORED := Action(Ignore, 0)
  const DEFAULTED := Action(Default, 0)

  /** One generated signal: its place in the order of generation, its number, its sender, and
      whether it was blocked when it was generated. */
  datatype Instance = Instance(id: nat, sig: int, pid: int, held: bool)

  /** The system calls of the bracket. */
  datatype Call = MaskQuery | MaskChange | PendingQuery | DescriptorOpen | Read | Wait | ActionChange(sig: int)

  /** A newly generated signal of number `arriving` removes pending signals of number `waiting`. */
  predicate Cancels(arriving: int, waiting: int) {
    || (arriving == SIGCONT && waiting in STOP_SIGNALS)
    || (arriving in STOP_SIGNALS && waiting == SIGCONT)
  }

  datatype Kernel = Kernel(
    host: Host,
    mask: set<int>,
    pending: set<Instance>,
    actions: map<int, Action>,
    sent: seq<Instance>,        // every signal generated so far
    delivered: set<Instance>,   // those that ran a handler or had their default effect
    taken: set<Instance>,       // those accepted through signalfd or sigtimedwait
    faults: seq<Call>)          // every call that has failed, in order
  {
    predicate Known(i: Instance) {
      i.id < |sent| && sent[i.id] == i
    }

    ghost predicate Valid() {
      && mask <= host.Blockable()
      && actions.Keys == host.Signals()
      && (forall i <- pending :: i.sig in mask && i.held && Known(i))
      && (forall i <- delivered :: Known(i))
      && (forall i <- taken :: Known(i))
      && pending !! delivered !! taken
    }

    predicate IsPending(sig: int) {
      exists p :: p in pending && p.sig == sig
    }

    predicate Discards(sig: int)
      requires sig in actions
    {
      || actions[sig].disposition == Ignore
      || (actions[sig].disposition == Default && sig in DEFAULT_IGNORED)
    }

    /** A signal arrives: it cancels, is queued while blocked (a standard signal only once), is
        dropped if ignored, or takes effect. */
    function Generate(sig: int, pid: int): Kernel
      requires sig in actions
    {
      var i := Instance(|sent|, sig, pid, sig in mask);
      var kept := set p | p in pending && !Cancels(sig, p.sig);
      var k := this.(sent := sent + [i], pending := kept);
      if sig !in mask then
        if Discards(sig) then k else k.(delivered := delivered + {i})
      else if sig <= LAST_STANDARD && k.IsPending(sig) then k
      else k.(pending := kept + {i})
    }

    /** sigprocmask(SIG_SETMASK): what becomes unblocked is discarded or takes effect at once. */
    function SetMask(signals: set<int>): Kernel
      requires Valid()
    {
      var blocked := signals * host.Blockable();
      var released := set p | p in pending && p.sig !in blocked;
      this.(
        mask := blocked,
        pending := pending - released,
        delivered := delivered + set p | p in released && !Discards(p.sig))
    }

    /** sigaction: an action that ignores the signal discards its pending instances. */
    function SetAction(sig: int, action: Action): Kernel
      requires Valid() && sig in actions
    {
      var k := this.(actions := actions[sig := action]);
      if k.Discards(sig) then k.(pending := set p | p in pending && p.sig != sig) else k
    }

    function Fault(call: Call): Kernel {
      this.(faults := faults + [call])
    }

    function Take(i: Instance): Kernel {
      this.(pending := pending - {i}, taken := taken + {i})
    }
  }

  // ---------------------------------------------------------------- what later states keep

  /** Signals are never unsent or brought back, and calls fail only where they may. */
  ghost predicate Follows(k0: Kernel, k1: Kernel) {
    && k1.host == k0.host
    && k0.sent <= k1.sent
    && k0.delivered <= k1.delivered
    && k0.taken <= k1.taken
    && k0.faults <= k1.faults && (!k0.host.mayFail ==> k1.faults == k0.faults)
    && (forall i <- k1.pending :: i in k0.pending || |k0.sent| <= i.id)
    && (forall i <- k1.delivered :: i in k0.delivered || i in k0.pending || |k0.sent| <= i.id)
    && (forall i <- k1.taken :: i in k0.taken || i in k0.pending || |k0.sent| <= i.id)
  }

  /** A call of this kind failed in between. */
  ghost predicate FailedSince(k0: Kernel, k1: Kernel, call: Call) {
    exists n :: |k0.faults| <= n < |k1.faults| && k1.faults[n] == call
  }

  ghost predicate NothingFailed(k0: Kernel, k1: Kernel) {
    k1.faults == k0.faults
  }

  lemma FailedWithin(k0: Kernel, k1: Kernel, k2: Kernel, k3: Kernel, call: Call)
    requires Follows(k0, k1) && Follows(k1, k2) && Follows(k2, k3) && FailedSince(k1, k2, call)
    ensures FailedSince(k0, k3, call)
  {
    var n :| |k1.faults| <= n < |k2.faults| && k2.faults[n] == call;
    assert k3.faults[n] == call;
  }

  ghost predicate Cancelled(sig: int, k0: Kernel, k1: Kernel) {
    exists n :: |k0.sent| <= n < |k1.sent| && Cancels(k1.sent[n].sig, sig)
  }

  /** No signal of these numbers took effect in between. */
  ghost predicate Undelivered(k0: Kernel, k1: Kernel, signals: set<int>) {
    forall i <- k1.delivered :: i in k0.delivered || i.sig !in signals
  }

  /** Nor was one accepted, and what was pending still is unless a stop or continue cancelled it. */
  ghost predicate Spares(k0: Kernel, k1: Kernel, signals: set<int>) {
    && Undelivered(k0, k1, signals)
    && (forall i <- k1.taken :: i in k0.taken || i.sig !in signals)
    && (forall i <- k0.pending :: i.sig in signals ==> i in k1.pending || Cancelled(i.sig, k0, k1))
  }

  /** The mask stayed, and so only new signals that were never blocked took effect. */
  ghost predicate Steady(k0: Kernel, k1: Kernel, signals: set<int>) {
    && Follows(k0, k1)
    && k1.mask == k0.mask
    && Spares(k0, k1, signals)
    && (forall i <- k1.delivered :: i in k0.delivered || (|k0.sent| <= i.id && !i.held && i.sig !in k0.mask))
  }

  lemma FollowsTwice(k0: Kernel, k1: Kernel, k2: Kernel)
    requires Follows(k0, k1) && Follows(k1, k2)
    ensures Follows(k0, k2)
  {
  }

  lemma SparesTwice(k0: Kernel, k1: Kernel, k2: Kernel, signals: set<int>)
    requires Follows(k0, k1) && Follows(k1, k2)
    requires Spares(k0, k1, signals) && Spares(k1, k2, signals)
    ensures Spares(k0, k2, signals)
  {
    forall i <- k0.pending | i.sig in signals
      ensures i in k2.pending || Cancelled(i.sig, k0, k2)
    {
      if Cancelled(i.sig, k0, k1) {
        var n :| |k0.sent| <= n < |k1.sent| && Cancels(k1.sent[n].sig, i.sig);
        assert k2.sent[n] == k1.sent[n];
      }
    }
  }

  lemma SteadyTwice(k0: Kernel, k1: Kernel, k2: Kernel, signals: set<int>)
    requires Steady(k0, k1, signals) && Steady(k1, k2, signals)
    ensures Steady(k0, k2, signals)
  {
    SparesTwice(k0, k1, k2, signals);
  }

  // ---------------------------------------------------------------- each kernel action

  lemma GenerateKeepsValid(k: Kernel, sig: int, pid: int)
    requires k.Valid() && sig in k.actions
    ensures k.Generate(sig, pid).Valid() && Follows(k, k.Generate(sig, pid))
  {
  }

  lemma GenerateSpares(k: Kernel, sig: int, pid: int)
    requires k.Valid() && sig in k.actions
    ensures Spares(k, k.Generate(sig, pid), k.mask)
  {
    var k1 := k.Generate(sig, pid);
    assert k1.sent[|k.sent|].sig == sig;
    forall i <- k.pending
      ensures i in k1.pending || Cancelled(i.sig, k, k1)
    {
      if Cancels(sig, i.sig) {
        assert Cancels(k1.sent[|k.sent|].sig, i.sig);
      }
    }
  }

  lemma GenerateEffect(k: Kernel, sig: int, pid: int)
    requires k.Valid() && sig in k.actions
    ensures var k1 := k.Generate(sig, pid);
      k1.Valid() && Steady(k, k1, k.mask)
  {
    GenerateKeepsValid(k, sig, pid);
    GenerateSpares(k, sig, pid);
    hide Follows, Spares;
  }

  lemma SetMaskEffect(k: Kernel, signals: set<int>)
    requires k.Valid()
    ensures var k1 := k.SetMask(signals);
      k1.Valid() && Follows(k, k1) && Spares(k, k1, signals * k.host.Blockable())
    ensures var k1 := k.SetMask(signals);
      forall i <- k.pending ::
        && (i in k1.pending <==> i.sig in signals)
        && (i in k1.delivered <==> i.sig !in signals && !k.Discards(i.sig))
  {
  }

  lemma SetActionEffect(k: Kernel, sig: int, action: Action, signals: set<int>)
    requires k.Valid() && sig in k.actions && sig !in signals
    ensures var k1 := k.SetAction(sig, action);
      k1.Valid() && Steady(k, k1, signals)
  {
  }

  lemma TakeEffect(k: Kernel, i: Instance, signals: set<int>)
    requires k.Valid() && i in k.pending && i.sig !in signals
    ensures var k1 := k.Take(i);
      k1.Valid() && Steady(k, k1, signals)
  {
  }

  lemma FaultEffect(k: Kernel, call: Call, signals: set<int>)
    requires k.Valid() && k.host.mayFail
    ensures var k1 := k.Fault(call);
      k1.Valid() && Steady(k, k1, signals) && k1.actions == k.actions && FailedSince(k, k1, call)
  {
    assert k.Fault(call).faults[|k.faults|] == call;
  }
}
