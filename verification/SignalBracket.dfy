/** How a run takes over the caller's signals and gives them back
    (src/platform/unix/signals.rs, in the order of run_impl in src/platform/unix/mod.rs). */
module SignalBracket {
  import opened Results
  import opened SignalKernel
  import opened SignalNumbers

  const SIGNALS_EXCLUDED_FROM_SIGNALFD: seq<int> :=
    [SIGFPE, SIGILL, SIGSEGV, SIGBUS, SIGABRT, SIGTRAP, SIGSYS]
  const DISCARD_LIMIT: nat := 64

  datatype Errno = EINTR | Other(code: int)

  datatype Failure =
    | ProcfsUnreadable
    | Multithreaded
    | QueryMask
    | QueryPending
    | BlockSignals
    | OpenSignalFd
    | ResetChildAction
    | Prepare
    | Supervise
    | RestoreChildAction
    | QueryMaskBeforeRestore
    | LeftBlocked(sig: int)
    | RestoreMask
    | RestoreAction(sig: int)

  /** What listing /proc/self/task gives: one entry a thread, each readable or not. */
  datatype Tasks = Unreadable | Entries(entries: seq<bool>)

  datatype SignalFd = SignalFd(signals: set<int>)

  /** A signal whose action was replaced, and the action to put back. */
  datatype Guard = Guard(sig: int, action: Action)

  // ---------------------------------------------------------------- the masks

  function Excluded(): set<int> {
    set sig | sig in SIGNALS_EXCLUDED_FROM_SIGNALFD
  }

  /** The signals blocked during supervision, for a caller that blocked `previous`. */
  function SupervisorMask(host: Host, previous: set<int>): set<int> {
    (host.Signals() - Excluded() + (Excluded() * previous)) * host.Blockable()
  }

  /** The signals the caller already blocked and had pending. */
  function Backlog(previous: set<int>, pending: set<int>): set<int> {
    previous * pending - {SIGCHLD}
  }

  /** The signals supervision accepts through signalfd. */
  function Accepted(host: Host, previous: set<int>, pending: set<int>): set<int> {
    host.Signals() - Excluded() - Backlog(previous, pending)
  }

  /** What supervision blocks that the caller did not, and restoration therefore clears. */
  function Owned(current: set<int>, previous: set<int>): set<int> {
    current - previous - {SIGCHLD}
  }

  predicate IsOwnWriteFailure(host: Host, i: Instance) {
    OwnWriteFailure(i.sig, i.pid == host.pid)
  }

  /** Supervision unblocks nothing of the caller's, never reads the caller's backlog, and always
      reads SIGCHLD; what it reads cannot also take effect, as it is blocked. */
  lemma MasksFit(host: Host, previous: set<int>, pending: set<int>)
    requires previous <= host.Blockable() && SIGCHLD in host.Signals()
    ensures var mask := SupervisorMask(host, previous);
      var accepted := Accepted(host, previous, pending);
      && previous <= mask <= host.Blockable()
      && accepted * host.Blockable() <= mask
      && SIGCHLD in accepted && SIGCHLD in mask
      && accepted !! Backlog(previous, pending)
      && mask - accepted == (Backlog(previous, pending) + (Excluded() * previous))
      && Owned(mask, previous) == host.Blockable() - Excluded() - previous - {SIGCHLD}
  {
  }

  /** Both sets by the numbers of the signals on Linux. */
  lemma MasksByNumber(host: Host, previous: set<int>, pending: set<int>, sig: int)
    ensures sig in Accepted(host, previous, pending) <==>
      sig in host.Signals() && sig !in {4, 5, 6, 7, 8, 11, 31} && !(sig in previous * pending && sig != 17)
    ensures sig in SupervisorMask(host, previous) <==>
      sig in host.Signals() && sig !in {9, 19} && (sig in {4, 5, 6, 7, 8, 11, 31} ==> sig in previous)
  {
    assert SIGNALS_EXCLUDED_FROM_SIGNALFD == [8, 4, 11, 7, 6, 5, 31];
    assert forall k :: 0 <= k < 7 ==> SIGNALS_EXCLUDED_FROM_SIGNALFD[k] in Excluded();
  }

  // ---------------------------------------------------------------- the process

  class Process {
    var k: Kernel

    ghost predicate Valid()
      reads this
    {
      k.Valid() && SIGCHLD in k.host.Blockable()
    }

    /** Any number of signals arrive. */
    method Interfere()
      requires Valid()
      modifies this
      ensures Valid() && Steady(old(k), k, k.mask)
      ensures k.actions == old(k.actions) && k.taken == old(k.taken)
    {
      var arrivals: nat := *;
      while arrivals > 0
        invariant Valid() && Steady(old(k), k, k.mask)
        invariant k.actions == old(k.actions) && k.taken == old(k.taken)
      {
        var sig: int := *;
        var pid: int := *;
        if sig in k.actions {
          ghost var k0 := k;
          GenerateEffect(k, sig, pid);
          k := k.Generate(sig, pid);
          SteadyTwice(old(k), k0, k, k.mask);
        }
        arrivals := arrivals - 1;
      }
    }

    /** A call fails; only where calls may. */
    method Fail(call: Call)
      requires Valid() && k.host.mayFail
      modifies this
      ensures Valid() && k == old(k).Fault(call)
    {
      FaultEffect(k, call, {});
      k := k.Fault(call);
    }

    method GetMask() returns (r: Result<set<int>, Errno>)
      requires Valid()
      modifies this
      ensures Valid()
      ensures r.Ok? ==> r.value == k.mask && k == old(k)
      ensures r.Err? ==> k.host.mayFail && k == old(k).Fault(MaskQuery)
    {
      var fails: bool := *;
      if fails && k.host.mayFail {
        Fail(MaskQuery);
        return Err(Other(0));
      }
      r := Ok(k.mask);
    }

    method Pending() returns (r: Result<set<int>, Errno>)
      requires Valid()
      modifies this
      ensures Valid()
      ensures r.Ok? ==> r.value == (set i | i in k.pending :: i.sig) && k == old(k)
      ensures r.Err? ==> k.host.mayFail && k == old(k).Fault(PendingQuery)
    {
      var fails: bool := *;
      if fails && k.host.mayFail {
        Fail(PendingQuery);
        return Err(Other(0));
      }
      r := Ok(set i | i in k.pending :: i.sig);
    }

    method SetMask(signals: set<int>) returns (ok: bool)
      requires Valid()
      modifies this
      ensures Valid()
      ensures ok ==> k == old(k).SetMask(signals)
      ensures !ok ==> k.host.mayFail && k == old(k).Fault(MaskChange)
    {
      var fails: bool := *;
      ok := !(fails && k.host.mayFail);
      if ok {
        SetMaskEffect(k, signals);
        k := k.SetMask(signals);
      } else {
        Fail(MaskChange);
      }
    }

    method OpenSignalFd(signals: set<int>) returns (r: Result<SignalFd, Errno>)
      requires Valid()
      modifies this
      ensures Valid()
      ensures r.Ok? ==> r.value == SignalFd(signals) && k == old(k)
      ensures r.Err? ==> k.host.mayFail && k == old(k).Fault(DescriptorOpen)
    {
      var fails: bool := *;
      if fails && k.host.mayFail {
        Fail(DescriptorOpen);
        return Err(Other(0));
      }
      r := Ok(SignalFd(signals));
    }

    method SetAction(sig: int, action: Action) returns (r: Result<Action, Errno>)
      requires Valid() && sig in k.host.Blockable()
      modifies this
      ensures Valid()
      ensures r.Ok? ==> r.value == old(k).actions[sig] && k == old(k).SetAction(sig, action)
      ensures r.Err? ==> k.host.mayFail && k == old(k).Fault(ActionChange(sig))
    {
      var fails: bool := *;
      if fails && k.host.mayFail {
        Fail(ActionChange(sig));
        return Err(Other(0));
      }
      r := Ok(k.actions[sig]);
      SetActionEffect(k, sig, action, {});
      k := k.SetAction(sig, action);
    }

    /** sigtimedwait on one signal with no timeout: None when it is not pending. */
    method WaitNohang(sig: int) returns (r: Result<Option<Instance>, Errno>)
      requires Valid()
      modifies this
      ensures Valid()
      ensures r == Ok(None) ==> !k.IsPending(sig) && k == old(k)
      ensures r.Ok? && r.value.Some? ==>
        r.value.value in old(k.pending) && r.value.value.sig == sig && k == old(k).Take(r.value.value)
      ensures r.Err? ==> k.host.mayFail && k == old(k).Fault(Wait)
    {
      var fails: bool := *;
      if fails && k.host.mayFail {
        var interrupted: bool := *;
        Fail(Wait);
        return Err(if interrupted then EINTR else Other(0));
      }
      if k.IsPending(sig) {
        var i :| i in k.pending && i.sig == sig;
        TakeEffect(k, i, {});
        k := k.Take(i);
        return Ok(Some(i));
      }
      r := Ok(None);
    }

    /** read on the signalfd: None when it has nothing to read, or is interrupted. */
    method ReadSignal(fd: SignalFd) returns (r: Result<Option<Instance>, Errno>)
      requires Valid()
      modifies this
      ensures Valid()
      ensures r.Ok? && r.value.Some? ==>
        r.value.value in old(k.pending) && r.value.value.sig in fd.signals && k == old(k).Take(r.value.value)
      ensures r == Ok(None) && k == old(k) ==> forall i <- k.pending :: i.sig !in fd.signals
      ensures r.Err? || (r.value.None? && k != old(k)) ==> k.host.mayFail && k == old(k).Fault(Read)
    {
      var fails: bool := *;
      if fails && k.host.mayFail {
        var interrupted: bool := *;
        Fail(Read);
        return if interrupted then Ok(None) else Err(Other(0));
      }
      if !exists i :: i in k.pending && i.sig in fd.signals {
        return Ok(None);
      }
      var i :| i in k.pending && i.sig in fd.signals;
      TakeEffect(k, i, {});
      k := k.Take(i);
      r := Ok(Some(i));
    }
  }

  // ---------------------------------------------------------------- taking over

  predicate OneThread(tasks: Tasks) {
    tasks.Entries? && |tasks.entries| <= 1 && false !in tasks.entries
  }

  method CheckSingleThreaded(tasks: Tasks) returns (r: Result<(), Failure>)
    ensures r.Ok? <==> OneThread(tasks)
    ensures r == Err(Multithreaded) <==>
      tasks.Entries? && |tasks.entries| > 1 && tasks.entries[0] && tasks.entries[1]
    ensures r.Err? ==> r.error in {ProcfsUnreadable, Multithreaded}
  {
    if tasks.Unreadable? {
      return Err(ProcfsUnreadable);
    }
    for index := 0 to |tasks.entries|
      invariant index <= 1 && false !in tasks.entries[..index]
    {
      if !tasks.entries[index] {
        return Err(ProcfsUnreadable);
      }
      if index != 0 {
        return Err(Multithreaded);
      }
    }
    r := Ok(());
  }

  /** What reaches the caller when the signalfd cannot be opened, `failed` being the state at that
      moment: nothing that was blocked up to then, and on restoring the caller's mask exactly the
      signals pending outside it whose action does not discard them. */
  ghost predicate Released(k0: Kernel, failed: Kernel, k1: Kernel) {
    && Follows(k0, failed) && failed.Valid() && failed.actions == k0.actions
    && (forall i <- failed.delivered :: i in k0.delivered || !i.held)
    && (forall i: Instance :: i.held && i !in k0.delivered ==>
          (i in k1.delivered <==>
             k1.mask == k0.mask && i in failed.pending && i.sig !in k0.mask && !failed.Discards(i.sig)))
  }

  /** All of these were sent after entry, with numbers that only the supervisor had blocked. */
  lemma ReleasedAreNew(k0: Kernel, failed: Kernel, k1: Kernel, i: Instance)
    requires k0.Valid() && Released(k0, failed, k1) && i.held && i in k1.delivered && i !in k0.delivered
    ensures |k0.sent| <= i.id && i.sig in failed.mask - k0.mask
  {
  }

  lemma ReleasedEarlier(k0: Kernel, k1: Kernel, failed: Kernel, k2: Kernel, signals: set<int>)
    requires Steady(k0, k1, signals) && k1.actions == k0.actions && Released(k1, failed, k2)
    ensures Released(k0, failed, k2)
  {
    FollowsTwice(k0, k1, failed);
  }

  /** The exit that delivers: for any signal that the supervisor blocks and the caller does not,
      unless its action discards it or it was pending before. */
  lemma FailedOpenReachesTheCaller(k: Kernel, supervisorMask: set<int>, sig: int, pid: int)
    requires k.Valid() && k.mask <= supervisorMask && sig in supervisorMask * k.host.Blockable() && sig !in k.mask
    requires !k.Discards(sig) && !k.IsPending(sig)
    ensures var k1 := k.SetMask(supervisorMask).Generate(sig, pid).SetMask(k.mask);
      exists i <- k1.delivered :: i.sig == sig && i.held && i !in k.delivered
  {
    SetMaskEffect(k, supervisorMask);
    var blocked := k.SetMask(supervisorMask);
    GenerateEffect(blocked, sig, pid);
    var i := Instance(|blocked.sent|, sig, pid, true);
    assert i in blocked.Generate(sig, pid).pending;
    assert i in blocked.Generate(sig, pid).SetMask(k.mask).delivered;
  }

  method BlockAndOpen(p: Process, previous: set<int>, block: set<int>, supervisorMask: set<int>)
    returns (r: Result<SignalFd, Failure>, ghost failed: Kernel)
    requires p.Valid() && p.k.mask == previous && previous <= supervisorMask
    modifies p
    ensures p.Valid() && Follows(old(p.k), p.k) && Spares(old(p.k), p.k, previous)
    ensures p.k.actions == old(p.k.actions) && p.k.taken == old(p.k.taken)
    ensures r.Ok? ==> r.value == SignalFd(block) && p.k.mask == supervisorMask * p.k.host.Blockable()
    ensures r.Err? ==> r.error in {BlockSignals, OpenSignalFd}
    ensures r.Err? ==>
      || p.k.mask == previous
      || (r.error == OpenSignalFd && p.k.mask == supervisorMask * p.k.host.Blockable())
    ensures r != Err(OpenSignalFd) ==> forall i <- p.k.delivered :: i in old(p.k.delivered) || !i.held
    ensures r == Err(OpenSignalFd) ==>
      failed.mask == supervisorMask * p.k.host.Blockable() && Released(old(p.k), failed, p.k)
    ensures r == Err(BlockSignals) ==> FailedSince(old(p.k), p.k, MaskChange)
    ensures r == Err(OpenSignalFd) ==>
      && FailedSince(old(p.k), p.k, DescriptorOpen)
      && (p.k.mask == previous || FailedSince(old(p.k), p.k, MaskChange))
  {
    ghost var k0 := p.k;
    failed := p.k;
    SetMaskEffect(k0, supervisorMask);
    var blocked := p.SetMask(supervisorMask);
    if !blocked {
      FaultEffect(k0, MaskChange, previous);
      return Err(BlockSignals), failed;
    }
    ghost var k1 := p.k;
    p.Interfere();
    SparesTwice(k0, k1, p.k, previous);
    FollowsTwice(k0, k1, p.k);
    k1 := p.k;
    var fd := p.OpenSignalFd(block);
    if fd.Ok? {
      return Ok(fd.value), failed;
    }
    FaultEffect(k1, DescriptorOpen, previous);
    SparesTwice(k0, k1, p.k, previous);
    FollowsTwice(k0, k1, p.k);
    failed := p.k;
    UnblockAgain(p, previous, k0);
    FailedWithin(k0, k1, failed, p.k, DescriptorOpen);
    r := Err(OpenSignalFd);
  }

  /** The way out when the signalfd cannot be opened; the mask may stay if that fails too. */
  method UnblockAgain(p: Process, previous: set<int>, ghost k0: Kernel)
    requires p.Valid() && previous == k0.mask && previous <= p.k.mask && previous <= p.k.host.Blockable()
    requires Follows(k0, p.k) && Spares(k0, p.k, previous) && p.k.actions == k0.actions
    requires forall i <- p.k.delivered :: i in k0.delivered || !i.held
    modifies p
    ensures p.Valid() && Follows(k0, p.k) && Spares(k0, p.k, previous)
    ensures p.k.actions == old(p.k.actions) && p.k.taken == old(p.k.taken)
    ensures p.k.mask == previous || (p.k.mask == old(p.k.mask) && FailedSince(k0, p.k, MaskChange))
    ensures Released(k0, old(p.k), p.k) && Follows(old(p.k), p.k)
  {
    ghost var failed := p.k;
    SetMaskEffect(failed, previous);
    var unblocked := p.SetMask(previous);
    if !unblocked {
      FaultEffect(failed, MaskChange, previous);
      FailedWithin(k0, failed, p.k, p.k, MaskChange);
    }
    SparesTwice(k0, failed, p.k, previous);
    FollowsTwice(k0, failed, p.k);
  }

  /** The call whose failure an error of the setup reports. */
  function SetupCall(e: Failure): Option<Call> {
    match e
    case QueryMask => Some(MaskQuery)
    case QueryPending => Some(PendingQuery)
    case BlockSignals => Some(MaskChange)
    case OpenSignalFd => Some(DescriptorOpen)
    case _ => None
  }

  method SetupSignalDelivery(p: Process, tasks: Tasks)
    returns (r: Result<(set<int>, SignalFd), Failure>, ghost queried: Kernel, ghost failed: Kernel)
    requires p.Valid()
    modifies p
    ensures p.Valid() && Follows(old(p.k), p.k) && Spares(old(p.k), p.k, old(p.k.mask))
    ensures p.k.actions == old(p.k.actions) && p.k.taken == old(p.k.taken)
    ensures if OneThread(tasks) then r.Ok? || SetupCall(r.error).Some?
      else r.Err? && r.error in {ProcfsUnreadable, Multithreaded}
    ensures r.Ok? ==>
      && r.value.0 == old(p.k.mask)
      && p.k.mask == SupervisorMask(p.k.host, old(p.k.mask))
      && Steady(old(p.k), queried, old(p.k.mask)) && Follows(queried, p.k)
      && r.value.1.signals
         == Accepted(p.k.host, old(p.k.mask), set i | i in queried.pending :: i.sig)
    ensures r.Err? ==>
      || p.k.mask == old(p.k.mask)
      || (r.error == OpenSignalFd && p.k.mask == SupervisorMask(p.k.host, old(p.k.mask)))
    ensures r != Err(OpenSignalFd) ==> forall i <- p.k.delivered :: i in old(p.k.delivered) || !i.held
    ensures r == Err(OpenSignalFd) ==>
      failed.mask == SupervisorMask(p.k.host, old(p.k.mask)) && Released(old(p.k), failed, p.k)
    ensures r.Err? && SetupCall(r.error).Some? ==> FailedSince(old(p.k), p.k, SetupCall(r.error).value)
    ensures p.k.mask != old(p.k.mask) && r.Err? ==> FailedSince(old(p.k), p.k, MaskChange)
    ensures OneThread(tasks) && NothingFailed(old(p.k), p.k) ==> r.Ok?
  {
    hide Released, FailedSince;
    queried, failed := p.k, p.k;
    var checked := CheckSingleThreaded(tasks);
    if checked.Err? {
      return Err(checked.error), queried, failed;
    }
    var query := QuerySignals(p);
    queried := p.k;
    if query.Err? {
      return Err(query.error), queried, failed;
    }
    var (previous, pending) := query.value;
    var block, supervisorMask := Masks(p.k.host, previous, pending);
    MasksFit(p.k.host, previous, pending);
    p.Interfere();
    ghost var k0 := p.k;
    SteadyTwice(old(p.k), queried, k0, previous);
    var opening;
    opening, failed := BlockAndOpen(p, previous, block, supervisorMask);
    SparesTwice(old(p.k), k0, p.k, previous);
    FollowsTwice(old(p.k), k0, p.k);
    FollowsTwice(queried, k0, p.k);
    if opening.Err? {
      SetupFailed(old(p.k), k0, failed, p.k, opening.error);
    }
    r := match opening case Ok(fd) => Ok((previous, fd)) case Err(e) => Err(e);
  }

  lemma SetupFailed(k0: Kernel, k1: Kernel, failed: Kernel, k2: Kernel, e: Failure)
    requires Steady(k0, k1, k0.mask) && k1.actions == k0.actions && Follows(k1, k2)
    requires SetupCall(e).Some? && FailedSince(k1, k2, SetupCall(e).value)
    requires e == OpenSignalFd ==> Released(k1, failed, k2)
    requires k2.mask != k0.mask ==> FailedSince(k1, k2, MaskChange)
    ensures FailedSince(k0, k2, SetupCall(e).value) && !NothingFailed(k0, k2)
    ensures e == OpenSignalFd ==> Released(k0, failed, k2)
    ensures k2.mask != k0.mask ==> FailedSince(k0, k2, MaskChange)
  {
    FailedWithin(k0, k1, k2, k2, SetupCall(e).value);
    if e == OpenSignalFd {
      ReleasedEarlier(k0, k1, failed, k2, k0.mask);
    }
    if k2.mask != k0.mask {
      FailedWithin(k0, k1, k2, k2, MaskChange);
    }
  }

  /** The caller's mask and what it has pending. */
  method QuerySignals(p: Process) returns (r: Result<(set<int>, set<int>), Failure>)
    requires p.Valid()
    modifies p
    ensures p.Valid() && Steady(old(p.k), p.k, old(p.k.mask))
    ensures p.k.actions == old(p.k.actions) && p.k.taken == old(p.k.taken)
    ensures r.Ok? ==> r.value == (old(p.k.mask), set i | i in p.k.pending :: i.sig)
    ensures r.Err? ==>
      && r.error in {QueryMask, QueryPending}
      && FailedSince(old(p.k), p.k, SetupCall(r.error).value) && !NothingFailed(old(p.k), p.k)
  {
    hide Follows, Spares;
    p.Interfere();
    ghost var k0 := p.k;
    var mask := p.GetMask();
    if mask.Err? {
      FaultEffect(k0, MaskQuery, old(p.k.mask));
      SteadyTwice(old(p.k), k0, p.k, old(p.k.mask));
      FailedWithin(old(p.k), k0, p.k, p.k, MaskQuery);
      return Err(QueryMask);
    }
    p.Interfere();
    SteadyTwice(old(p.k), k0, p.k, old(p.k.mask));
    k0 := p.k;
    var pending := p.Pending();
    if pending.Err? {
      FaultEffect(k0, PendingQuery, old(p.k.mask));
      SteadyTwice(old(p.k), k0, p.k, old(p.k.mask));
      FailedWithin(old(p.k), k0, p.k, p.k, PendingQuery);
      return Err(QueryPending);
    }
    r := Ok((mask.value, pending.value));
  }

  /** The sets that are edited in place before they are given to the kernel. */
  method Masks(host: Host, previous: set<int>, pending: set<int>)
    returns (block: set<int>, supervisorMask: set<int>)
    requires previous <= host.Blockable() && SIGCHLD in host.Signals()
    ensures block == Accepted(host, previous, pending)
    ensures supervisorMask * host.Blockable() == SupervisorMask(host, previous)
  {
    block := host.Signals();
    for j := 0 to |SIGNALS_EXCLUDED_FROM_SIGNALFD|
      invariant block == host.Signals() - set sig | sig in SIGNALS_EXCLUDED_FROM_SIGNALFD[..j]
    {
      block := block - {SIGNALS_EXCLUDED_FROM_SIGNALFD[j]};
    }
    supervisorMask := block;
    for j := 0 to |SIGNALS_EXCLUDED_FROM_SIGNALFD|
      invariant supervisorMask == block + (previous * set sig | sig in SIGNALS_EXCLUDED_FROM_SIGNALFD[..j])
    {
      if SIGNALS_EXCLUDED_FROM_SIGNALFD[j] in previous {
        supervisorMask := supervisorMask + {SIGNALS_EXCLUDED_FROM_SIGNALFD[j]};
      }
    }
    ghost var whole := block;
    for signal := 1 to host.last + 1
      invariant block == whole - set sig | sig in Backlog(previous, pending) && sig < signal
    {
      if signal != SIGCHLD && signal in previous && signal in pending {
        block := block - {signal};
      }
    }
  }

  // ---------------------------------------------------------------- supervising

  ghost predicate NothingToRead(k: Kernel, fd: SignalFd) {
    forall i <- k.pending :: i.sig !in fd.signals
  }

  /** One read, with whatever arrives before it. */
  method ReadNext(p: Process, fd: SignalFd, ghost spared: set<int>) returns (r: Result<Option<Instance>, Errno>)
    requires p.Valid() && spared <= p.k.mask && spared !! fd.signals
    modifies p
    ensures p.Valid() && Steady(old(p.k), p.k, spared) && p.k.actions == old(p.k.actions)
    ensures r.Ok? && r.value.Some? ==>
      && r.value.value.sig in fd.signals
      && r.value.value !in old(p.k.taken)
      && p.k.taken == old(p.k.taken) + {r.value.value}
      && |p.k.taken| == |old(p.k.taken)| + 1
    ensures !(r.Ok? && r.value.Some?) ==> p.k.taken == old(p.k.taken)
    ensures r == Ok(None) ==> NothingToRead(p.k, fd) || FailedSince(old(p.k), p.k, Read)
    ensures r.Err? ==> FailedSince(old(p.k), p.k, Read)
  {
    p.Interfere();
    ghost var k0 := p.k;
    r := p.ReadSignal(fd);
    if r.Ok? && r.value.Some? {
      TakeEffect(k0, r.value.value, spared);
    } else if p.k != k0 {
      FaultEffect(k0, Read, spared);
      FailedWithin(old(p.k), k0, p.k, p.k, Read);
    }
    SteadyTwice(old(p.k), k0, p.k, spared);
  }

  /** Reads until a signal is worth forwarding, nothing is pending or the budget is used up: one
      unit of budget a signal read, and only write failures of the supervisor are passed over. */
  method ReadForwardableSignal(p: Process, fd: SignalFd, budget: nat, ghost spared: set<int>)
    returns (r: Result<Option<Instance>, Errno>, remaining: nat)
    requires p.Valid() && spared <= p.k.mask && spared !! fd.signals
    modifies p
    ensures p.Valid() && Steady(old(p.k), p.k, spared) && p.k.actions == old(p.k.actions)
    ensures |p.k.taken| + remaining == |old(p.k.taken)| + budget
    ensures forall i <- p.k.taken ::
      i in old(p.k.taken) || (i.sig in fd.signals && (IsOwnWriteFailure(p.k.host, i) <==> r != Ok(Some(i))))
    ensures r.Ok? && r.value.Some? ==> r.value.value in p.k.taken && r.value.value !in old(p.k.taken)
    ensures r == Ok(None) && remaining > 0 ==> NothingToRead(p.k, fd) || FailedSince(old(p.k), p.k, Read)
    ensures r.Err? ==> FailedSince(old(p.k), p.k, Read)
  {
    remaining := budget;
    while remaining > 0
      invariant p.Valid() && Steady(old(p.k), p.k, spared) && p.k.actions == old(p.k.actions)
      invariant |p.k.taken| + remaining == |old(p.k.taken)| + budget
      invariant forall i <- p.k.taken ::
        i in old(p.k.taken) || (i.sig in fd.signals && IsOwnWriteFailure(p.k.host, i))
    {
      ghost var k0 := p.k;
      var read := ReadNext(p, fd, spared);
      SteadyTwice(old(p.k), k0, p.k, spared);
      if FailedSince(k0, p.k, Read) {
        FailedWithin(old(p.k), k0, p.k, p.k, Read);
      }
      if read.Err? {
        return Err(read.error), remaining;
      }
      if read.value.None? {
        return Ok(None), remaining;
      }
      var info := read.value.value;
      remaining := remaining - 1;
      if !IsOwnWriteFailure(p.k.host, info) {
        return Ok(Some(info)), remaining;
      }
    }
    r := Ok(None);
  }

  /** What supervise_child does to signals: batches of reads, for as long as it runs. What it comes to
      is `outcome`. */
  method SuperviseChild(p: Process, fd: SignalFd, outcome: Option<int>, ghost spared: set<int>)
    returns (r: Result<int, Failure>)
    requires p.Valid() && spared <= p.k.mask && spared !! fd.signals
    modifies p
    ensures p.Valid() && Steady(old(p.k), p.k, spared) && p.k.actions == old(p.k.actions)
    ensures r == if outcome.Some? then Ok(outcome.value) else Err(Supervise)
  {
    var rounds: nat := *;
    while rounds > 0
      invariant p.Valid() && Steady(old(p.k), p.k, spared) && p.k.actions == old(p.k.actions)
    {
      ghost var k0 := p.k;
      var _, _ := ReadForwardableSignal(p, fd, SIGNAL_BATCH_LIMIT, spared);
      SteadyTwice(old(p.k), k0, p.k, spared);
      rounds := rounds - 1;
    }
    r := if outcome.Some? then Ok(outcome.value) else Err(Supervise);
  }

  // ---------------------------------------------------------------- giving back

  /** Why emptying a queue was given up in between: a call failed, or it took as many as it may. */
  ghost predicate Undrained(k0: Kernel, k1: Kernel) {
    || FailedSince(k0, k1, Wait) || FailedSince(k0, k1, PendingQuery)
    || |k0.taken| + DISCARD_LIMIT <= |k1.taken|
  }

  lemma UndrainedWithin(k0: Kernel, k1: Kernel, k2: Kernel, k3: Kernel)
    requires Follows(k0, k1) && Follows(k1, k2) && Follows(k2, k3)
    ensures Undrained(k1, k2) ==> Undrained(k0, k3)
  {
    if FailedSince(k1, k2, Wait) {
      FailedWithin(k0, k1, k2, k3, Wait);
    } else if FailedSince(k1, k2, PendingQuery) {
      FailedWithin(k0, k1, k2, k3, PendingQuery);
    } else {
      MoreTaken(k0.taken, k1.taken);
      MoreTaken(k2.taken, k3.taken);
    }
  }

  lemma MoreTaken(some: set<Instance>, all: set<Instance>)
    requires some <= all
    ensures |some| <= |all|
  {
    assert all == some + (all - some);
  }

  /** One attempt to accept a signal, with whatever arrives before it. */
  method AcceptNext(p: Process, sig: int, ghost spared: set<int>) returns (r: Result<Option<Instance>, Errno>)
    requires p.Valid() && sig !in spared && spared <= p.k.mask
    modifies p
    ensures p.Valid() && Steady(old(p.k), p.k, spared) && p.k.actions == old(p.k.actions)
    ensures r == Ok(None) ==> !p.k.IsPending(sig)
    ensures |p.k.taken| == |old(p.k.taken)| + if r.Ok? && r.value.Some? then 1 else 0
    ensures r.Err? ==> FailedSince(old(p.k), p.k, Wait)
  {
    p.Interfere();
    ghost var k0 := p.k;
    r := p.WaitNohang(sig);
    if r.Err? {
      FaultEffect(k0, Wait, spared);
      FailedWithin(old(p.k), k0, p.k, p.k, Wait);
    } else if r.value.Some? {
      TakeEffect(k0, r.value.value, spared);
    }
    SteadyTwice(old(p.k), k0, p.k, spared);
  }

  /** Accepts a blocked signal until it is no longer pending: whatever was pending at the start, or
      arrived before the last look, is gone. */
  method DiscardPendingSignal(p: Process, sig: int, ghost spared: set<int>) returns (r: Result<(), Failure>)
    requires p.Valid() && sig !in spared && spared <= p.k.mask
    modifies p
    ensures p.Valid() && Steady(old(p.k), p.k, spared) && p.k.actions == old(p.k.actions)
    ensures r.Ok? ==> !p.k.IsPending(sig)
    ensures r.Err? ==> r.error == LeftBlocked(sig)
    ensures |p.k.taken| <= |old(p.k.taken)| + 64
    ensures r.Err? ==> Undrained(old(p.k), p.k)
  {
    for attempt := 0 to DISCARD_LIMIT
      invariant p.Valid() && Steady(old(p.k), p.k, spared) && p.k.actions == old(p.k.actions)
      invariant |p.k.taken| <= |old(p.k.taken)| + attempt
      invariant |p.k.taken| == |old(p.k.taken)| + attempt || FailedSince(old(p.k), p.k, Wait)
    {
      ghost var k0 := p.k;
      var waited := AcceptNext(p, sig, spared);
      SteadyTwice(old(p.k), k0, p.k, spared);
      WaitFailedEitherWay(old(p.k), k0, p.k);
      if waited.Ok? && waited.value.None? {
        return Ok(());
      }
      if waited.Err? && waited.error != EINTR {
        return Err(LeftBlocked(sig));
      }
    }
    ghost var k1 := p.k;
    var pending := p.Pending();
    if pending.Err? {
      FaultEffect(k1, PendingQuery, spared);
      SteadyTwice(old(p.k), k1, p.k, spared);
      FailedWithin(old(p.k), k1, p.k, p.k, PendingQuery);
      return Err(LeftBlocked(sig));
    }
    if sig in pending.value {
      return Err(LeftBlocked(sig));
    }
    r := Ok(());
  }

  lemma WaitFailedEitherWay(k0: Kernel, k1: Kernel, k2: Kernel)
    requires Follows(k0, k1) && Follows(k1, k2)
    ensures FailedSince(k0, k1, Wait) || FailedSince(k1, k2, Wait) ==> FailedSince(k0, k2, Wait)
  {
    if FailedSince(k0, k1, Wait) {
      FailedWithin(k0, k0, k1, k2, Wait);
    } else if FailedSince(k1, k2, Wait) {
      FailedWithin(k0, k1, k2, k2, Wait);
    }
  }

  /** `left`: signals left blocked. `refused`: those SIG_IGN could not be set for. `unrestored`:
      those whose action could not be put back. `masked`: the mask was put back. `before`: the state
      just before that. */
  datatype Report = Report(masked: bool, left: set<int>, refused: set<int>, unrestored: set<int>, before: Kernel)

  /** What putting back the mask `previous` can let through: SIGCHLD, and the signals that were
      neither ignored nor left blocked. */
  function Loose(report: Report, previous: set<int>): set<int> {
    report.refused - report.left + ({SIGCHLD} - previous)
  }

  /** What a run lets through: nothing that was blocked up to `before`, and on putting the mask back
      exactly the pending `loose` signals whose action does not discard them. Apart from SIGCHLD these
      were sent since `k0`, and their actions are those of `k0`. */
  ghost predicate LetThrough(k0: Kernel, before: Kernel, k1: Kernel, masked: bool, loose: set<int>) {
    && Follows(k0, before) && before.Valid() && before.actions.Keys == k0.actions.Keys
    && (forall sig <- k0.actions :: sig in loose && sig != SIGCHLD ==> before.actions[sig] == k0.actions[sig])
    && (forall i <- before.pending :: i.sig in loose && i.sig != SIGCHLD ==> |k0.sent| <= i.id)
    && (forall i <- before.delivered :: i in k0.delivered || !i.held)
    && (forall i: Instance :: i.held && i !in k0.delivered ==>
          (i in k1.delivered <==> masked && i in before.pending && i.sig in loose && !before.Discards(i.sig)))
  }

  function Signals(guards: seq<Guard>): set<int> {
    set g | g in guards :: g.sig
  }

  /** Exactly the guarded signals are ignored now, and the guards hold their former actions. */
  ghost predicate Ignoring(k0: Kernel, k: Kernel, guards: seq<Guard>) {
    && k.actions.Keys == k0.actions.Keys
    && (forall g <- guards :: g.sig in k0.actions && g.action == k0.actions[g.sig])
    && (forall sig <- k0.actions :: k.actions[sig] == if sig in Signals(guards) then IGNORED else k0.actions[sig])
  }

  /** Of these signals nothing is pending that was sent before `k0`. */
  ghost predicate Drained(k0: Kernel, k: Kernel, signals: set<int>) {
    forall i <- k.pending :: i.sig in signals ==> |k0.sent| <= i.id
  }

  /** The failure that is reported for signals left blocked: the least of them. */
  ghost predicate FirstLeft(failure: Option<Failure>, left: set<int>) {
    match failure
    case None => left == {}
    case Some(e) => e.LeftBlocked? && e.sig in left && forall sig <- left :: e.sig <= sig
  }

  /** For each of these signals a sigaction call failed in between. */
  ghost predicate Refused(k0: Kernel, k1: Kernel, signals: set<int>) {
    forall sig <- signals :: FailedSince(k0, k1, ActionChange(sig))
  }

  lemma RefusedLater(k0: Kernel, k1: Kernel, k2: Kernel, signals: set<int>)
    requires Follows(k0, k1) && Follows(k1, k2) && Refused(k0, k1, signals)
    ensures Refused(k0, k2, signals)
  {
    forall sig <- signals
      ensures FailedSince(k0, k2, ActionChange(sig))
    {
      FailedWithin(k0, k0, k1, k2, ActionChange(sig));
    }
  }

  lemma RefusedEarlier(k0: Kernel, k1: Kernel, k2: Kernel, signals: set<int>)
    requires Follows(k0, k1) && Follows(k1, k2) && Refused(k1, k2, signals)
    ensures Refused(k0, k2, signals)
  {
    forall sig <- signals
      ensures FailedSince(k0, k2, ActionChange(sig))
    {
      FailedWithin(k0, k1, k2, k2, ActionChange(sig));
    }
  }

  lemma RefusedOneMore(k0: Kernel, k1: Kernel, k2: Kernel, signals: set<int>, sig: int)
    requires Follows(k0, k1) && Follows(k1, k2) && Refused(k0, k2, signals) && FailedSince(k1, k2, ActionChange(sig))
    ensures Refused(k0, k2, signals + {sig})
  {
    FailedWithin(k0, k1, k2, k2, ActionChange(sig));
  }

  /** Ignores one signal or, when that is refused, empties its queue. */
  method Silence(p: Process, sig: int, ghost spared: set<int>)
    returns (former: Option<Action>, failed: Option<Failure>)
    requires p.Valid() && sig in p.k.mask && sig !in spared && spared <= p.k.mask
    modifies p
    ensures p.Valid() && Steady(old(p.k), p.k, spared)
    ensures former.Some? ==>
      && failed.None?
      && former.value == old(p.k.actions[sig])
      && p.k.actions == old(p.k.actions)[sig := IGNORED]
    ensures former.None? ==> p.k.actions == old(p.k.actions) && FailedSince(old(p.k), p.k, ActionChange(sig))
    ensures former.None? && failed.None? ==> !p.k.IsPending(sig)
    ensures failed.Some? ==> failed.value == LeftBlocked(sig) && Undrained(old(p.k), p.k)
  {
    hide Undrained;
    p.Interfere();
    ghost var k0 := p.k;
    var ignored := p.SetAction(sig, IGNORED);
    if ignored.Ok? {
      SetActionEffect(k0, sig, IGNORED, spared);
      SteadyTwice(old(p.k), k0, p.k, spared);
      return Some(ignored.value), None;
    }
    FaultEffect(k0, ActionChange(sig), spared);
    SteadyTwice(old(p.k), k0, p.k, spared);
    ghost var k1 := p.k;
    var discarded := DiscardPendingSignal(p, sig, spared);
    SteadyTwice(old(p.k), k1, p.k, spared);
    FailedWithin(old(p.k), k0, k1, p.k, ActionChange(sig));
    UndrainedWithin(old(p.k), k1, p.k, p.k);
    former, failed := None, if discarded.Err? then Some(discarded.error) else None;
  }

  lemma IgnoringOneMore(k0: Kernel, k1: Kernel, k2: Kernel, guards: seq<Guard>, guard: Guard)
    requires Ignoring(k0, k1, guards) && guard.sig !in Signals(guards) && guard.sig in k1.actions
    requires guard.action == k1.actions[guard.sig] && k2.actions == k1.actions[guard.sig := IGNORED]
    ensures Ignoring(k0, k2, guards + [guard])
    ensures Signals(guards + [guard]) == Signals(guards) + {guard.sig}
  {
    assert guard in guards + [guard];
    assert forall g <- guards :: g in guards + [guard];
  }

  lemma DrainedLater(k0: Kernel, k1: Kernel, k2: Kernel, signals: set<int>)
    requires Drained(k0, k1, signals) && Follows(k0, k1) && Follows(k1, k2)
    ensures Drained(k0, k2, signals)
  {
  }

  lemma FirstLeftGrows(failure: Option<Failure>, left: set<int>, sig: int)
    requires FirstLeft(failure, left) && forall other <- left :: other < sig
    ensures FirstLeft(if failure.None? then Some(LeftBlocked(sig)) else failure, left + {sig})
  {
  }

  function OwnedBelow(current: set<int>, previous: set<int>, bound: int): set<int> {
    set sig | sig in Owned(current, previous) && sig < bound
  }

  lemma OwnedNext(current: set<int>, previous: set<int>, sig: int)
    ensures OwnedBelow(current, previous, sig + 1) == OwnedBelow(current, previous, sig)
      + if sig in Owned(current, previous) then {sig} else {}
  {
  }

  /** The owned signals below `bound` are ignored, or refused it and are empty or left blocked. */
  ghost predicate Silenced(k0: Kernel, k: Kernel, previous: set<int>, bound: int, restore: seq<Guard>,
      refused: set<int>, left: set<int>, failure: Option<Failure>, restoreMask: set<int>) {
    && Steady(k0, k, previous * k0.mask) && Ignoring(k0, k, restore)
    && left <= refused <= OwnedBelow(k0.mask, previous, bound)
    && Signals(restore) == OwnedBelow(k0.mask, previous, bound) - refused
    && Refused(k0, k, refused) && Drained(k0, k, refused - left)
    && FirstLeft(failure, left) && restoreMask == previous + left && (left != {} ==> Undrained(k0, k))
  }

  lemma SilencedByIgnoring(k0: Kernel, k1: Kernel, k2: Kernel, previous: set<int>, restore: seq<Guard>,
      refused: set<int>, left: set<int>, failure: Option<Failure>, restoreMask: set<int>, guard: Guard)
    requires Silenced(k0, k1, previous, guard.sig, restore, refused, left, failure, restoreMask)
    requires guard.sig in Owned(k0.mask, previous) && guard.sig in k1.actions && Steady(k1, k2, previous * k0.mask)
    requires guard.action == k1.actions[guard.sig] && k2.actions == k1.actions[guard.sig := IGNORED]
    ensures Silenced(k0, k2, previous, guard.sig + 1, restore + [guard], refused, left, failure, restoreMask)
  {
    hide Undrained;
    OwnedNext(k0.mask, previous, guard.sig);
    SteadyTwice(k0, k1, k2, previous * k0.mask);
    DrainedLater(k0, k1, k2, refused - left);
    RefusedLater(k0, k1, k2, refused);
    UndrainedWithin(k0, k0, k1, k2);
    IgnoringOneMore(k0, k1, k2, restore, guard);
  }

  lemma SilencedByEmptying(k0: Kernel, k1: Kernel, k2: Kernel, previous: set<int>, restore: seq<Guard>,
      refused: set<int>, left: set<int>, failure: Option<Failure>, restoreMask: set<int>, sig: int, blocked: set<int>)
    requires Silenced(k0, k1, previous, sig, restore, refused, left, failure, restoreMask)
    requires sig in Owned(k0.mask, previous)
    requires Steady(k1, k2, previous * k0.mask) && k2.actions == k1.actions
    requires FailedSince(k1, k2, ActionChange(sig)) && blocked <= {sig}
    requires if blocked == {} then !k2.IsPending(sig) else Undrained(k1, k2)
    ensures var first := if blocked != {} && failure.None? then Some(LeftBlocked(sig)) else failure;
      Silenced(k0, k2, previous, sig + 1, restore, refused + {sig}, left + blocked, first, restoreMask + blocked)
  {
    hide Undrained;
    UndrainedWithin(k0, k0, k1, k2);
    UndrainedWithin(k0, k1, k2, k2);
    if blocked != {} {
      FirstLeftGrows(failure, left, sig);
    }
    OwnedNext(k0.mask, previous, sig);
    SteadyTwice(k0, k1, k2, previous * k0.mask);
    DrainedLater(k0, k1, k2, refused - left);
    RefusedLater(k0, k1, k2, refused);
    RefusedOneMore(k0, k1, k2, refused, sig);
  }

  lemma SilencedPassing(k0: Kernel, k1: Kernel, previous: set<int>, restore: seq<Guard>, refused: set<int>,
      left: set<int>, failure: Option<Failure>, restoreMask: set<int>, sig: int)
    requires Silenced(k0, k1, previous, sig, restore, refused, left, failure, restoreMask)
    requires sig !in Owned(k0.mask, previous)
    ensures Silenced(k0, k1, previous, sig + 1, restore, refused, left, failure, restoreMask)
  {
    OwnedNext(k0.mask, previous, sig);
  }

  lemma SilencedAll(k0: Kernel, k1: Kernel, previous: set<int>, restore: seq<Guard>, refused: set<int>,
      left: set<int>, failure: Option<Failure>, restoreMask: set<int>)
    requires Silenced(k0, k1, previous, k1.host.last + 1, restore, refused, left, failure, restoreMask)
    requires k0.mask <= k0.host.Blockable()
    ensures Steady(k0, k1, previous * k0.mask) && Ignoring(k0, k1, restore)
    ensures left <= refused <= Owned(k0.mask, previous) && Signals(restore) == Owned(k0.mask, previous) - refused
    ensures Refused(k0, k1, refused) && Drained(k0, k1, refused - left)
    ensures FirstLeft(failure, left) && restoreMask == previous + left && (left != {} ==> Undrained(k0, k1))
  {
    assert OwnedBelow(k0.mask, previous, k1.host.last + 1) == Owned(k0.mask, previous);
  }

  method SilenceOwned(p: Process, current: set<int>, previous: set<int>)
    returns (restore: seq<Guard>, restoreMask: set<int>, failure: Option<Failure>,
      ghost refused: set<int>, ghost left: set<int>)
    requires p.Valid() && current == p.k.mask && previous <= p.k.host.Blockable()
    modifies p
    ensures p.Valid() && Steady(old(p.k), p.k, previous * current)
    ensures Ignoring(old(p.k), p.k, restore)
    ensures Signals(restore) == Owned(current, previous) - refused
    ensures restoreMask == previous + left && left <= refused <= Owned(current, previous)
    ensures Refused(old(p.k), p.k, refused)
    ensures FirstLeft(failure, left) && (left != {} ==> Undrained(old(p.k), p.k))
    ensures Drained(old(p.k), p.k, refused - left)
  {
    hide Undrained;
    ghost var k0 := p.k;
    restore, restoreMask, failure, refused, left := [], previous, None, {}, {};
    assert Silenced(k0, k0, previous, 1, restore, refused, left, failure, restoreMask);
    hide Silenced, FirstLeft, Refused, FailedSince, Drained, Ignoring, Steady, OwnedBelow;
    for signal := 1 to p.k.host.last + 1
      invariant p.Valid() && Silenced(k0, p.k, previous, signal, restore, refused, left, failure, restoreMask)
      invariant p.k.mask == current && p.k.host == k0.host
    {
      if signal != SIGCHLD && signal in current && signal !in previous {
        ghost var k1 := p.k;
        var former, failed := Silence(p, signal, previous * current);
        if former.Some? {
          SilencedByIgnoring(k0, k1, p.k, previous, restore, refused, left, failure, restoreMask,
            Guard(signal, former.value));
          restore := restore + [Guard(signal, former.value)];
        } else {
          ghost var blocked := if failed.Some? then {signal} else {};
          SilencedByEmptying(k0, k1, p.k, previous, restore, refused, left, failure, restoreMask, signal, blocked);
          if failed.Some? {
            restoreMask := restoreMask + {signal};
            failure := if failure.None? then failed else failure;
          }
          refused, left := refused + {signal}, left + blocked;
        }
      } else {
        SilencedPassing(k0, p.k, previous, restore, refused, left, failure, restoreMask, signal);
      }
    }
    SilencedAll(k0, p.k, previous, restore, refused, left, failure, restoreMask);
  }

  /** On unblocking exactly those pending signals take effect whose action does not discard them
      and that refused to be ignored, or are SIGCHLD. */
  lemma UnblockEffect(k0: Kernel, k: Kernel, previous: set<int>, guards: seq<Guard>, refused: set<int>, left: set<int>)
    requires k.Valid() && Steady(k0, k, previous * k0.mask) && Ignoring(k0, k, guards)
    requires left <= refused <= Owned(k0.mask, previous) && previous + left <= k.host.Blockable()
    requires Signals(guards) == Owned(k0.mask, previous) - refused
    requires Drained(k0, k, refused - left)
    ensures var k1 := k.SetMask(previous + left);
      && k1.Valid() && k1.mask == previous + left
      && Follows(k0, k1) && Spares(k0, k1, previous * k0.mask)
      && LetThrough(k0, k, k1, true, refused - left + ({SIGCHLD} - previous))
  {
    var k1, loose := k.SetMask(previous + left), refused - left + ({SIGCHLD} - previous);
    SetMaskEffect(k, previous + left);
    SparesTwice(k0, k, k1, previous * k0.mask);
    forall i <- k.pending
      ensures i in k1.delivered <==> i.sig in loose && !k.Discards(i.sig)
    {
      if i.sig !in previous + left && i.sig !in loose {
        assert i.sig in Signals(guards);
      }
    }
  }

  /** Only the action of SIGCHLD may have changed. */
  ghost predicate SameActions(k0: Kernel, k1: Kernel) {
    && k1.actions.Keys == k0.actions.Keys
    && forall sig <- k0.actions :: sig == SIGCHLD || k1.actions[sig] == k0.actions[sig]
  }

  lemma LetThroughEarlier(k0: Kernel, k1: Kernel, before: Kernel, k2: Kernel, masked: bool, loose: set<int>)
    requires LetThrough(k1, before, k2, masked, loose) && Follows(k0, k1)
    requires SameActions(k0, k1)
    requires forall i <- k1.delivered :: i in k0.delivered || !i.held
    ensures LetThrough(k0, before, k2, masked, loose)
  {
    FollowsTwice(k0, k1, before);
  }

  lemma LetThroughLater(k0: Kernel, before: Kernel, k1: Kernel, k2: Kernel, masked: bool, loose: set<int>,
      spared: set<int>)
    requires Follows(k0, k1) && Spares(k0, k1, spared) && LetThrough(k0, before, k1, masked, loose)
    requires Steady(k1, k2, spared)
    ensures Follows(k0, k2) && Spares(k0, k2, spared) && LetThrough(k0, before, k2, masked, loose)
  {
    SparesTwice(k0, k1, k2, spared);
  }

  method PutBack(p: Process, guard: Guard, ghost spared: set<int>) returns (ok: bool)
    requires p.Valid() && guard.sig in p.k.host.Blockable() && guard.sig !in spared && spared <= p.k.mask
    modifies p
    ensures p.Valid() && Steady(old(p.k), p.k, spared)
    ensures p.k.actions == if ok then old(p.k.actions)[guard.sig := guard.action] else old(p.k.actions)
    ensures !ok ==> FailedSince(old(p.k), p.k, ActionChange(guard.sig))
  {
    p.Interfere();
    ghost var k0 := p.k;
    var replaced := p.SetAction(guard.sig, guard.action);
    ok := replaced.Ok?;
    if ok {
      SetActionEffect(k0, guard.sig, guard.action, spared);
    } else {
      FaultEffect(k0, ActionChange(guard.sig), spared);
      FailedWithin(old(p.k), k0, p.k, p.k, ActionChange(guard.sig));
    }
    SteadyTwice(old(p.k), k0, p.k, spared);
  }

  lemma RestoredOneMore(k0: Kernel, k1: Kernel, k2: Kernel, unrestored: set<int>, guards: seq<Guard>, ok: bool)
    requires guards != [] && guards[0].sig in k0.actions && guards[0].action == k0.actions[guards[0].sig]
    requires Restored(k0, k1, unrestored + Signals(guards))
    requires k2.actions == if ok then k1.actions[guards[0].sig := guards[0].action] else k1.actions
    ensures Restored(k0, k2, unrestored + (if ok then {} else {guards[0].sig}) + Signals(guards[1..]))
  {
    assert guards == [guards[0]] + guards[1..];
    assert Signals(guards) == {guards[0].sig} + Signals(guards[1..]);
  }

  /** Why a refused SIG_IGN needs an exception: a signal that arrives between the last look at its
      queue and the restoring of a mask without it has its effect on the caller, be it a handler or a
      fatal default. */
  lemma GapReachesTheCaller(k: Kernel, restored: set<int>, sig: int, pid: int)
    requires k.Valid() && sig in k.mask - restored && !k.Discards(sig) && !k.IsPending(sig)
    ensures var k1 := k.Generate(sig, pid).SetMask(restored);
      exists i <- k1.delivered :: i.sig == sig && i.held && i !in k.delivered
  {
    GenerateEffect(k, sig, pid);
    var i := Instance(|k.sent|, sig, pid, true);
    assert i in k.Generate(sig, pid).pending;
    assert i in k.Generate(sig, pid).SetMask(restored).delivered;
  }

  /** Puts the former actions back, in order; `kStart` is the state they were saved in. */
  method RestoreActions(p: Process, restore: seq<Guard>, first: Option<Failure>,
      ghost kStart: Kernel, ghost spared: set<int>)
    returns (failure: Option<Failure>, ghost unrestored: set<int>)
    requires p.Valid() && Ignoring(kStart, p.k, restore) && spared <= p.k.mask
    requires Signals(restore) !! spared && Signals(restore) <= p.k.host.Blockable()
    modifies p
    ensures p.Valid() && Steady(old(p.k), p.k, spared)
    ensures Restored(kStart, p.k, unrestored) && Refused(old(p.k), p.k, unrestored)
    ensures unrestored <= Signals(restore)
    ensures first.Some? ==> failure == first
    ensures first.None? && failure.None? ==> unrestored == {}
    ensures first.None? && failure.Some? ==> failure.value.RestoreAction? && failure.value.sig in unrestored
  {
    failure, unrestored := first, {};
    for j := 0 to |restore|
      invariant p.Valid() && Steady(old(p.k), p.k, spared)
      invariant Restored(kStart, p.k, unrestored + Signals(restore[j..])) && Refused(old(p.k), p.k, unrestored)
      invariant unrestored <= Signals(restore)
      invariant first.Some? ==> failure == first
      invariant first.None? && failure.None? ==> unrestored == {}
      invariant first.None? && failure.Some? ==> failure.value.RestoreAction? && failure.value.sig in unrestored
    {
      ghost var k0 := p.k;
      var guard := restore[j];
      var ok := PutBack(p, guard, spared);
      SteadyTwice(old(p.k), k0, p.k, spared);
      RestoredOneMore(kStart, k0, p.k, unrestored, restore[j..], ok);
      RefusedLater(old(p.k), k0, p.k, unrestored);
      if !ok {
        RefusedOneMore(old(p.k), k0, p.k, unrestored, guard.sig);
        unrestored := unrestored + {guard.sig};
        failure := if failure.None? then Some(RestoreAction(guard.sig)) else failure;
      }
    }
  }

  ghost predicate Restored(k0: Kernel, k1: Kernel, unrestored: set<int>) {
    && k1.actions.Keys == k0.actions.Keys
    && forall sig <- k0.actions :: sig in unrestored || k1.actions[sig] == k0.actions[sig]
  }

  /** A restoration of the mask `previous`, from `k0` to `k1`: the mask, what is not as it was and the
      calls that failed for it, and what took effect. */
  ghost predicate GivenBack(k0: Kernel, k1: Kernel, previous: set<int>, spared: set<int>, report: Report) {
    && Follows(k0, k1) && Spares(k0, k1, spared)
    && k1.mask == (if report.masked then previous + report.left else k0.mask)
    && (!report.masked ==> FailedSince(k0, k1, MaskQuery) || FailedSince(k0, k1, MaskChange))
    && report.left <= report.refused <= Owned(k0.mask, previous)
    && Refused(k0, k1, report.refused + report.unrestored)
    && LetThrough(k0, report.before, k1, report.masked, Loose(report, previous))
  }

  /** Puts the mask back, from just before it to just after. */
  method PutMaskBack(p: Process, previous: set<int>, restoreMask: set<int>, ghost restore: seq<Guard>,
      ghost refused: set<int>, ghost left: set<int>, ghost k0: Kernel)
    returns (masked: bool, ghost before: Kernel)
    requires p.Valid() && Steady(k0, p.k, previous * k0.mask) && Ignoring(k0, p.k, restore)
    requires left <= refused <= Owned(k0.mask, previous) && previous <= p.k.host.Blockable()
    requires Signals(restore) == Owned(k0.mask, previous) - refused && restoreMask == previous + left
    requires Drained(k0, p.k, refused - left) && Refused(k0, p.k, refused)
    modifies p
    ensures p.Valid() && Ignoring(k0, p.k, restore)
    ensures GivenBack(k0, p.k, previous, previous * k0.mask, Report(masked, left, refused, {}, before))
    ensures !masked ==> FailedSince(k0, p.k, MaskChange)
    ensures Follows(old(p.k), p.k) && previous * k0.mask <= p.k.mask
  {
    hide FailedSince;
    ghost var k1 := p.k;
    p.Interfere();
    before := p.k;
    SteadyTwice(k0, k1, before, previous * k0.mask);
    DrainedLater(k0, k1, before, refused - left);
    masked := p.SetMask(restoreMask);
    if masked {
      UnblockEffect(k0, before, previous, restore, refused, left);
    } else {
      MaskStays(k0, before, previous, refused, left);
    }
    FollowsTwice(k1, before, p.k);
    RefusedLater(k0, k1, p.k, refused);
  }

  lemma MaskStays(k0: Kernel, k: Kernel, previous: set<int>, refused: set<int>, left: set<int>)
    requires k.Valid() && k.host.mayFail && Steady(k0, k, previous * k0.mask) && k.actions.Keys == k0.actions.Keys
    requires refused <= Owned(k0.mask, previous) && Drained(k0, k, refused - left)
    requires forall sig <- refused :: sig in k0.actions && k.actions[sig] == k0.actions[sig]
    ensures var k1 := k.Fault(MaskChange);
      && k1.Valid() && Steady(k0, k1, previous * k0.mask) && Follows(k, k1) && FailedSince(k0, k1, MaskChange)
      && LetThrough(k0, k, k1, false, refused - left + ({SIGCHLD} - previous))
  {
    var k1 := k.Fault(MaskChange);
    FaultEffect(k, MaskChange, previous * k0.mask);
    SteadyTwice(k0, k, k1, previous * k0.mask);
    FailedWithin(k0, k, k1, k1, MaskChange);
  }

  /** What is given back stays so while the former actions are put back. */
  lemma GivenBackLater(k0: Kernel, silenced: Kernel, k1: Kernel, k2: Kernel, previous: set<int>, report: Report,
      unrestored: set<int>)
    requires GivenBack(k0, k1, previous, previous * k0.mask, report) && Steady(k1, k2, previous * k0.mask)
    requires report.unrestored == {} && Refused(k1, k2, unrestored)
    requires Follows(k0, silenced) && Follows(silenced, k1)
    ensures GivenBack(k0, k2, previous, previous * k0.mask, report.(unrestored := unrestored))
    ensures FailedSince(k0, k1, MaskChange) ==> FailedSince(k0, k2, MaskChange)
    ensures Undrained(k0, silenced) ==> Undrained(k0, k2)
  {
    hide Undrained;
    LetThroughLater(k0, report.before, k1, k2, report.masked, Loose(report, previous), previous * k0.mask);
    RefusedLater(k0, k1, k2, report.refused);
    RefusedEarlier(k0, k1, k2, unrestored);
    FollowsTwice(silenced, k1, k2);
    UndrainedWithin(k0, k0, silenced, k2);
    MaskFailedLater(k0, k1, k2);
  }

  lemma NotQueried(k0: Kernel, previous: set<int>)
    requires k0.Valid() && k0.host.mayFail
    ensures var k1 := k0.Fault(MaskQuery);
      GivenBack(k0, k1, previous, previous * k0.mask, Report(false, {}, {}, {}, k1)) && FailedSince(k0, k1, MaskQuery)
  {
    FaultEffect(k0, MaskQuery, previous * k0.mask);
  }

  lemma MaskFailedLater(k0: Kernel, k1: Kernel, k2: Kernel)
    requires Follows(k0, k1) && Follows(k1, k2)
    ensures FailedSince(k0, k1, MaskQuery) ==> FailedSince(k0, k2, MaskQuery)
    ensures FailedSince(k0, k1, MaskChange) ==> FailedSince(k0, k2, MaskChange)
  {
    if FailedSince(k0, k1, MaskQuery) {
      FailedWithin(k0, k0, k1, k2, MaskQuery);
    }
    if FailedSince(k0, k1, MaskChange) {
      FailedWithin(k0, k0, k1, k2, MaskChange);
    }
  }

  lemma NeverRefused(k0: Kernel, k1: Kernel, signals: set<int>, sig: int)
    requires Refused(k0, k1, signals) && NothingFailed(k0, k1)
    ensures sig !in signals
  {
  }

  /** Where no call fails, everything is given back. */
  lemma AllGivenBack(k0: Kernel, k1: Kernel, previous: set<int>, spared: set<int>, report: Report)
    requires GivenBack(k0, k1, previous, spared, report) && NothingFailed(k0, k1)
    ensures report.masked && report.left == report.refused == report.unrestored == {} && k1.mask == previous
    ensures forall call :: !FailedSince(k0, k1, call)
  {
    forall sig
      ensures sig !in report.refused + report.unrestored
    {
      NeverRefused(k0, k1, report.refused + report.unrestored, sig);
    }
  }

  method RestoreSignalDelivery(p: Process, previous: set<int>) returns (r: Result<(), Failure>, ghost report: Report)
    requires p.Valid() && previous <= p.k.host.Blockable()
    modifies p
    ensures p.Valid() && GivenBack(old(p.k), p.k, previous, previous * old(p.k.mask), report)
    ensures Restored(old(p.k), p.k, report.unrestored) && report.unrestored <= Owned(old(p.k.mask), previous)
    ensures report.left != {} ==> Undrained(old(p.k), p.k)
    ensures r.Ok? ==> report.masked && report.left == {} && report.unrestored == {}
    ensures r.Err? && report.masked ==>
      if report.left != {} then FirstLeft(Some(r.error), report.left)
      else r.error.RestoreAction? && r.error.sig in report.unrestored
    ensures !report.masked ==>
      || (r == Err(QueryMaskBeforeRestore) && FailedSince(old(p.k), p.k, MaskQuery))
      || (r == Err(RestoreMask) && FailedSince(old(p.k), p.k, MaskChange))
    ensures NothingFailed(old(p.k), p.k) ==>
      r.Ok? && report.masked && report.refused == {} && report.unrestored == {}
  {
    hide GivenBack, Undrained, FailedSince, Spares, Ignoring, Drained, Refused;
    ghost var k0 := p.k;
    var mask := p.GetMask();
    if mask.Err? {
      NotQueried(k0, previous);
      return Err(QueryMaskBeforeRestore), Report(false, {}, {}, {}, p.k);
    }
    var current := mask.value;
    var restore, restoreMask, failure;
    ghost var refused, left, before, unrestored;
    restore, restoreMask, failure, refused, left := SilenceOwned(p, current, previous);
    ghost var silenced := p.k;
    var masked;
    masked, before := PutMaskBack(p, previous, restoreMask, restore, refused, left, k0);
    ghost var k1 := p.k;
    failure, unrestored := RestoreActions(p, restore, failure, k0, previous * current);
    report := Report(masked, left, refused, unrestored, before);
    GivenBackLater(k0, silenced, k1, p.k, previous, report.(unrestored := {}), unrestored);
    if NothingFailed(k0, p.k) {
      AllGivenBack(k0, p.k, previous, previous * current, report);
    }
    if !masked {
      return Err(RestoreMask), report;
    }
    r := if failure.None? then Ok(()) else Err(failure.value);
  }

  // ---------------------------------------------------------------- the guards

  /** Keeps children reapable: SIGCHLD has its default action until the guard restores it. */
  class ChildReapingRestore {
    const action: Action
    var active: bool

    constructor (action: Action)
      ensures this.action == action && active
    {
      this.action, active := action, true;
    }

    static method Enable(p: Process, ghost spared: set<int>) returns (r: Result<ChildReapingRestore, Failure>)
      requires p.Valid() && spared <= p.k.mask && SIGCHLD !in spared
      modifies p
      ensures p.Valid() && Steady(old(p.k), p.k, spared)
      ensures r.Ok? ==>
        && fresh(r.value) && r.value.active
        && r.value.action == old(p.k.actions[SIGCHLD])
        && p.k.actions == old(p.k.actions)[SIGCHLD := DEFAULTED]
      ensures r.Err? ==>
        && p.k.actions == old(p.k.actions) && r.error == ResetChildAction
        && FailedSince(old(p.k), p.k, ActionChange(SIGCHLD))
    {
      p.Interfere();
      ghost var k0 := p.k;
      var replaced := p.SetAction(SIGCHLD, DEFAULTED);
      if replaced.Err? {
        FaultEffect(k0, ActionChange(SIGCHLD), spared);
        SteadyTwice(old(p.k), k0, p.k, spared);
        FailedWithin(old(p.k), k0, p.k, p.k, ActionChange(SIGCHLD));
        return Err(ResetChildAction);
      }
      SetActionEffect(k0, SIGCHLD, DEFAULTED, spared);
      SteadyTwice(old(p.k), k0, p.k, spared);
      var guard := new ChildReapingRestore(replaced.value);
      r := Ok(guard);
    }

    /** Restores the action once: a second call, and the drop after it, do nothing. */
    method Finish(p: Process, ghost spared: set<int>) returns (ok: bool)
      requires p.Valid() && spared <= p.k.mask && SIGCHLD !in spared
      modifies p, this
      ensures p.Valid() && Steady(old(p.k), p.k, spared) && !active
      ensures p.k.actions == if ok && old(active) then old(p.k.actions)[SIGCHLD := action] else old(p.k.actions)
      ensures !ok ==> FailedSince(old(p.k), p.k, ActionChange(SIGCHLD))
    {
      if !active {
        return true;
      }
      active := false;
      ok := PutBack(p, Guard(SIGCHLD, action), spared);
    }
  }

  // ---------------------------------------------------------------- the whole run

  /** What the caller had blocked and pending, SIGCHLD aside, is neither accepted nor delivered,
      and still pending unless a stop or continue cancelled it. */
  ghost predicate KeepsBacklog(k0: Kernel, k1: Kernel) {
    forall i <- k0.pending :: i.sig != SIGCHLD ==>
      && i !in k1.taken && i !in k1.delivered
      && (i in k1.pending || Cancelled(i.sig, k0, k1))
  }

  function PendingSignals(k: Kernel): set<int> {
    set i | i in k.pending :: i.sig
  }

  lemma BacklogKept(k0: Kernel, queried: Kernel, k1: Kernel, k2: Kernel)
    requires k0.Valid()
    requires Follows(k0, queried) && Follows(queried, k1) && Follows(k0, k1) && Spares(k0, k1, k0.mask)
    requires Follows(k1, k2) && Spares(k1, k2, Backlog(k0.mask, PendingSignals(queried)))
    ensures KeepsBacklog(k0, k2)
  {
    forall i <- k0.pending | i.sig != SIGCHLD
      ensures i !in k2.taken && i !in k2.delivered && (i in k2.pending || Cancelled(i.sig, k0, k2))
    {
      if i in k1.pending {
        assert i in queried.pending;
        assert i.sig in Backlog(k0.mask, PendingSignals(queried));
        if Cancelled(i.sig, k1, k2) {
          var n :| |k1.sent| <= n < |k2.sent| && Cancels(k2.sent[n].sig, i.sig);
        }
      } else {
        var n :| |k0.sent| <= n < |k1.sent| && Cancels(k1.sent[n].sig, i.sig);
        assert k2.sent[n] == k1.sent[n];
      }
    }
  }

  lemma MaskFailedEarlier(k0: Kernel, k1: Kernel, k2: Kernel)
    requires Follows(k0, k1) && Follows(k1, k2)
    ensures FailedSince(k1, k2, MaskQuery) ==> FailedSince(k0, k2, MaskQuery)
    ensures FailedSince(k1, k2, MaskChange) ==> FailedSince(k0, k2, MaskChange)
  {
    if FailedSince(k1, k2, MaskQuery) {
      FailedWithin(k0, k1, k2, k2, MaskQuery);
    }
    if FailedSince(k1, k2, MaskChange) {
      FailedWithin(k0, k1, k2, k2, MaskChange);
    }
  }

  /** What a restoration says of its own start holds from an earlier moment on. */
  lemma GivenBackBehind(k0: Kernel, k1: Kernel, k2: Kernel, previous: set<int>, wide: set<int>, report: Report,
      spared: set<int>)
    requires Steady(k0, k1, spared) && SameActions(k0, k1) && spared <= wide
    requires GivenBack(k1, k2, previous, wide, report)
    ensures GivenBack(k0, k2, previous, spared, report)
    ensures Undrained(k1, k2) ==> Undrained(k0, k2)
    ensures FailedSince(k0, k1, ActionChange(SIGCHLD)) ==> FailedSince(k0, k2, ActionChange(SIGCHLD))
    ensures forall e :: RestoreFailed(k1, k2, e, report) ==> RestoreFailed(k0, k2, e, report)
  {
    hide Undrained;
    FollowsTwice(k0, k1, k2);
    SparesTwice(k0, k1, k2, spared);
    LetThroughEarlier(k0, k1, report.before, k2, report.masked, Loose(report, previous));
    RefusedEarlier(k0, k1, k2, report.refused + report.unrestored);
    UndrainedWithin(k0, k1, k2, k2);
    MaskFailedEarlier(k0, k1, k2);
    if FailedSince(k0, k1, ActionChange(SIGCHLD)) {
      FailedWithin(k0, k0, k1, k2, ActionChange(SIGCHLD));
    }
  }

  /** What an error of the restoration reports. */
  ghost predicate RestoreFailed(k0: Kernel, k1: Kernel, e: Failure, report: Report) {
    match e
    case RestoreChildAction => SIGCHLD in report.unrestored
    case QueryMaskBeforeRestore => !report.masked && FailedSince(k0, k1, MaskQuery)
    case RestoreMask => !report.masked && FailedSince(k0, k1, MaskChange)
    case LeftBlocked(sig) => sig in report.left
    case RestoreAction(sig) => sig in report.unrestored
    case _ => false
  }

  lemma RestorationFailed(k0: Kernel, k1: Kernel, e: Failure, report: Report)
    requires if !report.masked then
        || (e == QueryMaskBeforeRestore && FailedSince(k0, k1, MaskQuery))
        || (e == RestoreMask && FailedSince(k0, k1, MaskChange))
      else if report.left != {} then FirstLeft(Some(e), report.left)
      else e.RestoreAction? && e.sig in report.unrestored
    ensures RestoreFailed(k0, k1, e, report)
  {
  }

  lemma ReapingLost(k0: Kernel, k1: Kernel, previous: set<int>, spared: set<int>, report: Report)
    requires GivenBack(k0, k1, previous, spared, report) && FailedSince(k0, k1, ActionChange(SIGCHLD))
    ensures var more := report.(unrestored := report.unrestored + {SIGCHLD});
      && GivenBack(k0, k1, previous, spared, more)
      && RestoreFailed(k0, k1, RestoreChildAction, more)
  {
  }

  /** Puts the child disposition back and then the mask, on success and on every early exit; the
      first failure is reported unless the run itself has failed. */
  method GiveBack(p: Process, reaping: ChildReapingRestore, previous: set<int>, result: Result<int, Failure>,
      ghost spared: set<int>)
    returns (r: Result<int, Failure>, ghost report: Report)
    requires p.Valid() && previous <= p.k.mask && reaping.active && spared <= previous - {SIGCHLD}
    modifies p, reaping
    ensures p.Valid() && GivenBack(old(p.k), p.k, previous, spared, report)
    ensures report.left != {} ==> Undrained(old(p.k), p.k)
    ensures p.k.actions.Keys == old(p.k.actions.Keys)
    ensures forall sig <- p.k.actions ::
      sig in report.unrestored || p.k.actions[sig] == if sig == SIGCHLD then reaping.action else old(p.k.actions[sig])
    ensures r.Ok? ==> r == result && report.masked && report.left == {} && report.unrestored == {}
    ensures result.Err? ==> r == result
    ensures result.Ok? && SIGCHLD in report.unrestored ==> r == Err(RestoreChildAction)
    ensures result.Ok? && r.Err? ==> RestoreFailed(old(p.k), p.k, r.error, report)
    ensures NothingFailed(old(p.k), p.k) ==>
      r == result && report.masked && report.refused == {} && report.unrestored == {}
  {
    hide Undrained;
    ghost var k0 := p.k;
    var restored := reaping.Finish(p, spared);
    ghost var k1 := p.k;
    var unmasked;
    unmasked, report := RestoreSignalDelivery(p, previous);
    if unmasked.Err? {
      RestorationFailed(k1, p.k, unmasked.error, report);
    }
    GivenBackBehind(k0, k1, p.k, previous, previous * k1.mask, report, spared);
    r := result;
    if !restored {
      ReapingLost(k0, p.k, previous, spared, report);
      report := report.(unrestored := report.unrestored + {SIGCHLD});
      r := if r.Ok? then Err(RestoreChildAction) else r;
    }
    if NothingFailed(k0, p.k) {
      AllGivenBack(k0, p.k, previous, spared, report);
    }
    if unmasked.Err? && r.Ok? {
      r := Err(unmasked.error);
    }
  }

  /** The same from the start of the run, before the mask was changed. */
  lemma RunBehind(k0: Kernel, k1: Kernel, k2: Kernel, previous: set<int>, spared: set<int>, report: Report)
    requires Follows(k0, k1) && k1.actions == k0.actions && GivenBack(k1, k2, previous, spared, report)
    requires forall i <- k1.delivered :: i in k0.delivered || !i.held
    ensures LetThrough(k0, report.before, k2, report.masked, Loose(report, previous))
    ensures Refused(k0, k2, report.refused + report.unrestored)
    ensures Undrained(k1, k2) ==> Undrained(k0, k2)
    ensures !report.masked ==> FailedSince(k0, k2, MaskQuery) || FailedSince(k0, k2, MaskChange)
    ensures forall e :: RestoreFailed(k1, k2, e, report) ==> RestoreFailed(k0, k2, e, report)
    ensures FailedSince(k1, k2, ActionChange(SIGCHLD)) ==> FailedSince(k0, k2, ActionChange(SIGCHLD))
  {
    hide Undrained;
    LetThroughEarlier(k0, k1, report.before, k2, report.masked, Loose(report, previous));
    RefusedEarlier(k0, k1, k2, report.refused + report.unrestored);
    UndrainedWithin(k0, k1, k2, k2);
    MaskFailedEarlier(k0, k1, k2);
    if FailedSince(k1, k2, ActionChange(SIGCHLD)) {
      FailedWithin(k0, k1, k2, k2, ActionChange(SIGCHLD));
    }
  }

  /** What a run comes to that no call fails under: `prepares` if the child could be prepared and
      spawned, `outcome` what supervising it gave. */
  function Undisturbed(prepares: bool, outcome: Option<int>): Result<int, Failure> {
    if !prepares then Err(Prepare) else match outcome case Some(code) => Ok(code) case None => Err(Supervise)
  }

  /** One run, from the caller's state back to it. `LetThrough` says exactly which of the signals that
      arrived while blocked take effect on the caller; a run whose signalfd could not be opened
      unblocks at once, and then `Released` does, `failed` being the state at that moment. */
  method RunImpl(p: Process, tasks: Tasks, prepares: bool, outcome: Option<int>)
    returns (r: Result<int, Failure>, ghost report: Report, ghost failed: Kernel)
    requires p.Valid()
    modifies p
    ensures p.Valid() && Follows(old(p.k), p.k) && KeepsBacklog(old(p.k), p.k)
    ensures p.k.mask ==
      if report.masked then old(p.k.mask) + report.left else SupervisorMask(p.k.host, old(p.k.mask))
    ensures report.left <= report.refused <= Owned(SupervisorMask(p.k.host, old(p.k.mask)), old(p.k.mask))
    ensures Restored(old(p.k), p.k, report.unrestored)
    ensures Refused(old(p.k), p.k, report.refused + report.unrestored)
    ensures report.left != {} ==> Undrained(old(p.k), p.k)
    ensures r != Err(OpenSignalFd) ==>
      LetThrough(old(p.k), report.before, p.k, report.masked, Loose(report, old(p.k.mask)))
    ensures r == Err(OpenSignalFd) ==>
      failed.mask == SupervisorMask(p.k.host, old(p.k.mask)) && Released(old(p.k), failed, p.k)
    ensures !OneThread(tasks) ==> r.Err? && r.error in {ProcfsUnreadable, Multithreaded}
    ensures r.Ok? ==>
      && report.masked && report.left == {} && report.unrestored == {}
      && r == Undisturbed(prepares, outcome)
    ensures r.Err? && OneThread(tasks) ==> RunFailed(old(p.k), p.k, r.error, report, Undisturbed(prepares, outcome))
    ensures !report.masked ==> FailedSince(old(p.k), p.k, MaskQuery) || FailedSince(old(p.k), p.k, MaskChange)
    ensures OneThread(tasks) && NothingFailed(old(p.k), p.k) ==>
      r == Undisturbed(prepares, outcome) && report.masked && report.refused == {} && report.unrestored == {}
  {
    hide FailedSince, Released, Undrained;
    ghost var k0 := p.k;
    var setup;
    ghost var queried;
    setup, queried, failed := SetupSignalDelivery(p, tasks);
    if setup.Err? {
      return Err(setup.error), Report(p.k.mask == k0.mask, {}, {}, {}, p.k), failed;
    }
    var (previous, fd) := setup.value;
    ghost var spared := Backlog(previous, PendingSignals(queried));
    MasksFit(p.k.host, previous, PendingSignals(queried));
    ghost var k1 := p.k;
    r, report := RunSupervised(p, previous, fd, prepares, outcome, spared);
    FollowsTwice(k0, k1, p.k);
    BacklogKept(k0, queried, k1, p.k);
    RunBehind(k0, k1, p.k, previous, spared, report);
    if NothingFailed(k0, p.k) {
      AllGivenBack(k1, p.k, previous, spared, report);
    }
  }

  /** What an error of a run reports: a call of the setup or of the restoration that failed, or that
      the child could not be prepared or supervised. */
  ghost predicate RunFailed(k0: Kernel, k1: Kernel, e: Failure, report: Report, undisturbed: Result<int, Failure>) {
    || (SetupCall(e).Some? && FailedSince(k0, k1, SetupCall(e).value))
    || (e == ResetChildAction && FailedSince(k0, k1, ActionChange(SIGCHLD)))
    || undisturbed == Err(e)
    || RestoreFailed(k0, k1, e, report)
  }

  /** The part of the run that owns the signals. */
  method RunSupervised(p: Process, previous: set<int>, fd: SignalFd, prepares: bool, outcome: Option<int>,
      ghost spared: set<int>)
    returns (r: Result<int, Failure>, ghost report: Report)
    requires p.Valid() && previous <= p.k.mask && spared <= previous - {SIGCHLD} && spared !! fd.signals
    modifies p
    ensures p.Valid() && GivenBack(old(p.k), p.k, previous, spared, report)
    ensures report.left != {} ==> Undrained(old(p.k), p.k)
    ensures Restored(old(p.k), p.k, report.unrestored)
    ensures r.Ok? ==>
      && report.masked && report.left == {} && report.unrestored == {}
      && r == Undisturbed(prepares, outcome)
    ensures r.Err? ==>
      || (r.error == ResetChildAction && FailedSince(old(p.k), p.k, ActionChange(SIGCHLD)))
      || r == Undisturbed(prepares, outcome)
      || RestoreFailed(old(p.k), p.k, r.error, report)
    ensures NothingFailed(old(p.k), p.k) ==> r == Undisturbed(prepares, outcome)
  {
    hide LetThrough, Undrained;
    ghost var k0 := p.k;
    var enabled := ChildReapingRestore.Enable(p, spared);
    ghost var k1 := p.k;
    if enabled.Err? {
      var logged;
      logged, report := RestoreSignalDelivery(p, previous);
      GivenBackBehind(k0, k1, p.k, previous, previous * k1.mask, report, spared);
      return Err(enabled.error), report;
    }
    var result: Result<int, Failure> := Err(Prepare);
    if prepares {
      result := SuperviseChild(p, fd, outcome, spared);
    }
    SteadyTwice(k0, k1, p.k, spared);
    k1 := p.k;
    r, report := GiveBack(p, enabled.value, previous, result, spared);
    GivenBackBehind(k0, k1, p.k, previous, spared, report, spared);
  }
}
