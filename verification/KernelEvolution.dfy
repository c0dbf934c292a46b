/**
 What no trap changes about threads and channels: a thread keeps its handle and process, an EXITED thread stays EXITED,
 a pending status changes only when a system call of its thread returns; a channel keeps handle, client and endpoint.
 */
module KernelEvolution {
  import opened Words
  import opened Status
  import opened Search
  import opened AddressSpaces
  import opened UserCopy
  import opened KernelModel
  import opened KernelBoot
  import opened KernelInvariant
  import opened KernelEffects
  import opened KernelRuns
  import opened KernelTransparency

  predicate Kept(t: ThreadRecord, t': ThreadRecord, touched: bool) {
    && t'.handle == t.handle && t'.process == t.process && (t.state == Exited ==> t'.state == Exited)
    && (!touched ==> t'.pendingStatus == t.pendingStatus)
  }

  /** Every thread is kept, the touched one but for its pending status. */
  ghost predicate ThreadsKept(s: KernelState, s': KernelState, touched: Option<nat>) {
    && |s'.threads| == |s.threads|
    && forall t: nat :: t < |s.threads| ==> Kept(s.threads[t], s'.threads[t], touched == Some(t))
  }

  predicate SameChannel(c: Option<ChannelRecord>, c': Option<ChannelRecord>) {
    && (c.Some? <==> c'.Some?)
    && (c.Some? ==> c'.value.handle == c.value.handle && c'.value.clientProcess == c.value.clientProcess
                    && c'.value.endpoint == c.value.endpoint)
  }

  ghost predicate ChannelsKept(s: KernelState, s': KernelState) {
    |s'.channels| == |s.channels| && forall k :: 0 <= k < |s.channels| ==> SameChannel(s.channels[k], s'.channels[k])
  }

  ghost predicate Kin(s: KernelState, s': KernelState, touched: Option<nat>) {
    ThreadsKept(s, s', touched) && ChannelsKept(s, s')
  }

  lemma KinThen(s: KernelState, s1: KernelState, s2: KernelState, touched: Option<nat>)
    requires Kin(s, s1, touched) && Kin(s1, s2, touched)
    ensures Kin(s, s2, touched)
  {
  }

  lemma KinSame(s: KernelState, s': KernelState, touched: Option<nat>)
    requires s'.threads == s.threads && s'.channels == s.channels
    ensures Kin(s, s', touched)
  {
  }

  lemma PutThreadKin(s: KernelState, i: nat, t: ThreadRecord, touched: Option<nat>)
    requires Shape(s) && i < |s.threads| && ThreadShape(t, |s.processes|)
    requires Kept(s.threads[i], t, touched == Some(i))
    ensures Kin(s, PutThread(s, i, t), touched)
  {
    hide Shape;
  }

  lemma SwitchKin(s: KernelState, next: Option<nat>, touched: Option<nat>)
    requires Shape(s) && SlotInRange(next, |s.threads|)
    ensures Kin(s, SetCurrent(s, next), touched)
  {
    SetCurrentExact(s, next);
    hide Shape, SetCurrent;
  }

  lemma CancelKin(s: KernelState, k: nat, touched: Option<nat>)
    requires Shape(s) && Live(s, k)
    ensures Kin(s, CancelCall(s, k), touched)
  {
    hide Shape;
  }

  lemma WakeKin(s: KernelState, client: nat, status: i32)
    requires Shape(s) && client < |s.threads| && s.threads[client].state != Exited
    ensures Kin(s, WakeClient(s, client, status), Some(client))
  {
    assert ThreadShape(s.threads[client], |s.processes|);
    hide Shape;
  }

  // ----- The system calls -----

  lemma CompleteKin(s: KernelState, server: nat, status: i32, k: nat)
    requires Executing(s, server) && PendingByServer(s, server) == Some(k)
    ensures Kin(s, CompleteCall(s, server, status).state, Woken(s.channels[k].value))
  {
    PendingByServerFinds(s, server);
    PendingIn(s, k);
    var c := s.channels[k].value;
    var woken := Woken(c);
    CompleteCases(s, server, status, k);
    assert ThreadShape(s.threads[server], |s.processes|);
    var s1 := PutThread(s, server, Restored(s.threads[server], c));
    PutThreadKin(s, server, Restored(s.threads[server], c), woken);
    CancelKin(s1, k, woken);
    var s2 := CancelCall(s1, k);
    KinThen(s, s1, s2, woken);
    WaitingIsBlocked(s);
    hide Rpc, Handles, Shape, PendingByServer, CompleteCall, CancelCall, Restored, Kin, PutThread;
    if woken.Some? {
      assert s2.threads[woken.value].state == Blocked;
      WakeKin(s2, woken.value, status);
      var s3 := WakeClient(s2, woken.value, status);
      SwitchKin(s3, woken, woken);
      hide SetCurrent, WakeClient;
      KinThen(s, s2, s3, woken);
      KinThen(s, s3, SetCurrent(s3, woken), woken);
    }
  }

  /** The thread a call's end wakes, if the system call ends one. */
  ghost function WokenBy(s: KernelState, active: nat, number: u64): Option<nat> {
    if number in {SYSCALL_RPC_COMPLETE, SYSCALL_THREAD_EXIT} && PendingByServer(s, active).Some?
    then Woken(s.channels[PendingByServer(s, active).value].value) else None
  }

  lemma FailKin(s: KernelState, server: nat, status: i32)
    requires Executing(s, server)
    ensures Kin(s, FailPendingCall(s, server, status), WokenBy(s, server, SYSCALL_THREAD_EXIT))
  {
    PendingByServerFinds(s, server);
    var woken := WokenBy(s, server, SYSCALL_THREAD_EXIT);
    match PendingByServer(s, server)
    case None => KinSame(s, s, woken);
    case Some(k) =>
      PendingIn(s, k);
      WaitingIsBlocked(s);
      CancelKin(s, k, woken);
      var s1 := CancelCall(s, k);
      assert s1.threads == s.threads;
      hide Rpc, Handles, Shape, PendingByServer, CancelCall, Kin;
      if woken.Some? {
        WakeKin(s1, woken.value, status);
        KinThen(s, s1, WakeClient(s1, woken.value, status), woken);
      }
  }

  lemma TerminateKin(s: KernelState, active: nat, exitStatus: u64, status: i32)
    requires Executing(s, active)
    ensures Kin(s, TerminateCurrent(s, exitStatus, status), WokenBy(s, active, SYSCALL_THREAD_EXIT))
  {
    var woken := WokenBy(s, active, SYSCALL_THREAD_EXIT);
    FailKin(s, active, status);
    FailEffect(s, active, status);
    hide Rpc, Handles, PendingByServer, FailPendingCall, Slots, Kin, WokenBy, ScheduleNext;
    var s1 := FailPendingCall(s, active, status);
    var s2 := HandleThreadExit(s, active, status);
    KinSame(s1, s2, woken);
    KinThen(s, s1, s2, woken);
    assert ThreadShape(s2.threads[active], |s.processes|);
    PutThreadKin(s2, active, s2.threads[active].(state := Exited, exitStatus := exitStatus), woken);
    var s3 := PutThread(s2, active, s2.threads[active].(state := Exited, exitStatus := exitStatus));
    KinThen(s, s2, s3, woken);
    hide Shape, HandleThreadExit, PutThread;
    ScheduleKin(s3, woken);
    KinThen(s, s3, ScheduleNext(s3), woken);
  }

  lemma ScheduleKin(s: KernelState, touched: Option<nat>)
    requires Shape(s)
    ensures Kin(s, ScheduleNext(s), touched)
  {
    var next := NextReady(s.threads, s.current);
    hide Kin, NextReady, SetCurrent;
    if next.None? {
      KinSame(s, s.(current := None), touched);
    } else {
      SwitchKin(s, next, touched);
    }
  }

  /** What a registration does: one that yields touches the caller. */
  ghost predicate Registered(s: KernelState, s': KernelState, active: nat) {
    && Kin(s, s', Some(active)) && active < |s'.threads|
    && (s'.current == Some(active) ==> Kin(s, s', None))
    && (s'.current != Some(active) ==> s'.threads[active].pendingStatus == STATUS_OK)
  }

  lemma NothingRegistered(s: KernelState, active: nat)
    requires active < |s.threads| && s.current == Some(active)
    ensures Registered(s, s, active)
  {
  }

  lemma RegisterKin(s: KernelState, active: nat, call: SyscallContext)
    requires Shape(s) && Is(s, active, Running) && s.current == Some(active)
    ensures Registered(s, Register(s, active, call).state, active)
  {
    assert ThreadShape(s.threads[active], |s.processes|);
    hide Shape, UserString, Backed, RegisterNamed, Registered;
    NothingRegistered(s, active);
    var name := UserString(s.memory, s.processes[s.threads[active].process].mappings, call.argument0, NAME_BUFFER_SIZE);
    RegisterNamedKin(s, active, name.bytes, call.argument1, call.argument2);
  }

  lemma RegisterNamedKin(s: KernelState, active: nat, name: seq<u8>, callback: u64, completion: u64)
    requires Shape(s) && Is(s, active, Running) && s.current == Some(active)
    ensures Registered(s, RegisterNamed(s, active, name, callback, completion).state, active)
  {
    hide Shape, FirstIn, Install, Registered;
    NothingRegistered(s, active);
    if FreeEndpoint(s).Some? {
      InstallKin(s, FreeEndpoint(s).value, active, name, callback, completion);
    }
  }

  lemma InstallKin(s: KernelState, e: nat, active: nat, name: seq<u8>, callback: u64, completion: u64)
    requires Shape(s) && e < |s.endpoints| && Is(s, active, Running) && s.current == Some(active)
    ensures Registered(s, Install(s, e, active, name, callback, completion).state, active)
  {
    assert ThreadShape(s.threads[active], |s.processes|);
    var s1 := PutEndpoint(s, e, EndpointRecord(true, false, name, Some(s.threads[active].process), Some(active),
                                               callback, completion));
    var next := NextReady(s1.threads, Some(active));
    var t := PrepareSyscallResume(s1.threads[active], STATUS_OK);
    hide Kin, NextReady, SetCurrent, PendingByServer;
    KinSame(s, s1, None);
    KinSame(s, s1, Some(active));
    if next.Some? && PendingByServer(s1, active).None? {
      PutThreadKin(s1, active, t, Some(active));
      var s2 := PutThread(s1, active, t);
      SwitchKin(s2, next, Some(active));
      SetCurrentExact(s2, next);
      hide Shape;
      KinThen(s, s1, s2, Some(active));
      KinThen(s, s2, SetCurrent(s2, next), Some(active));
    }
  }

  lemma CallKin(s: KernelState, active: nat, call: SyscallContext)
    requires Executing(s, active)
    ensures Kin(s, Call(s, active, call).state, None)
  {
    var k, server := CallEffect(s, active, call);
    hide Rpc, Handles, Shape, Call, PrepareServer;
    if Call(s, active, call).status == STATUS_OK {
      var c := s.channels[k].value;
      var p := PrepareServer(s, c.endpoint, server, c.clientProcess, call.argument1, call.argument2);
      StartedKin(s, Call(s, active, call).state, k, active, server, p.state.threads[server]);
    } else {
      KinSame(s, Call(s, active, call).state, None);
    }
  }

  lemma StartedKin(s: KernelState, s': KernelState, k: nat, active: nat, server: nat, t: ThreadRecord)
    requires Started(s, s', k, active, server, t) && Is(s, active, Running)
    requires t == s.threads[server].(resume := t.resume)
    ensures Kin(s, s', None)
  {
    hide Pends;
  }

  lemma CloseThreads(s: KernelState, active: nat, call: SyscallContext)
    requires Shape(s) && active < |s.threads|
    ensures Close(s, active, call).state.threads == s.threads
  {
    hide Shape, ObjectExists, FirstIn;
  }

  /** The thread whose pending status a system call may touch besides its own return. */
  ghost function Touched(s: KernelState, s': KernelState, active: nat, number: u64): Option<nat> {
    if number == SYSCALL_RPC_REGISTER then (if s'.current == Some(active) then None else Some(active))
    else WokenBy(s, active, number)
  }

  lemma ServeKin(s: KernelState, active: nat, call: SyscallContext)
    requires Executing(s, active) && s.nextHandle < U64_MAX
    ensures var s' := Serve(s, active, call).state;
            && ThreadsKept(s, s', Touched(s, s', active, call.number))
            && (call.number !in {SYSCALL_RPC_OPEN, SYSCALL_RPC_CLOSE} ==> ChannelsKept(s, s'))
            && (call.number == SYSCALL_RPC_REGISTER && s'.current != Some(active) ==>
                  active < |s'.threads| && s'.threads[active].pendingStatus == STATUS_OK)
  {
    hide Rpc, Handles, Shape, Register, Open, Call, Close, CompleteCall, TerminateCurrent, PendingByServer, DebugLog,
      ThreadsKept, ChannelsKept;
    var s' := Serve(s, active, call).state;
    if call.number == SYSCALL_THREAD_EXIT { TerminateKin(s, active, call.argument0, STATUS_PEER_CLOSED); }
    else if call.number == SYSCALL_RPC_CALL { CallKin(s, active, call); }
    else if call.number == SYSCALL_RPC_COMPLETE {
      if PendingByServer(s, active).Some? {
        CompleteKin(s, active, ToSigned32(call.argument0), PendingByServer(s, active).value);
      } else {
        NothingToComplete(s, active, ToSigned32(call.argument0));
        KinSame(s, s, None);
      }
    }
    else if call.number == SYSCALL_RPC_REGISTER { RegisterKin(s, active, call); }
    else if call.number == SYSCALL_RPC_OPEN {
      OpenAside(s, active, call);
      SameThreadsKept(s, s');
    } else if call.number == SYSCALL_RPC_CLOSE {
      CloseThreads(s, active, call);
      SameThreadsKept(s, s');
    } else {
      KinSame(s, s, None);
    }
  }

  lemma NothingToComplete(s: KernelState, server: nat, status: i32)
    requires Shape(s) && server < |s.threads| && PendingByServer(s, server).None?
    ensures CompleteCall(s, server, status).state == s
  {
    hide Shape, PendingByServer;
  }

  lemma SameThreadsKept(s: KernelState, s': KernelState)
    requires s'.threads == s.threads
    ensures ThreadsKept(s, s', None)
  {
  }

  // ----- One trap -----

  /** The status with which a system call of thread t returns in a trap, if one does: the trap's own when t goes on, OK
      when t registers and yields, and the callback's status, or PEER_CLOSED, when the call t was blocked in ends. */
  ghost function Answer(s: KernelState, f: Frame, r: TrapResult, t: nat): Option<i32> {
    if s.current == Some(t) then
      if r.state.current == Some(t) && Runnable(r.state) then Some(r.status)
      else if f.rax == SYSCALL_RPC_REGISTER && r.state.current != Some(t) then Some(STATUS_OK)
      else None
    else if Is(s, t, Blocked) && !Is(r.state, t, Blocked) then
      Some(if f.rax == SYSCALL_RPC_COMPLETE then ToSigned32(f.rdi) else STATUS_PEER_CLOSED)
    else None
  }

  function OrElse(answer: Option<i32>, status: i32): i32 {
    match answer
    case Some(v) => v
    case None => status
  }

  lemma BlockedStays(s: KernelState, s': KernelState, started: Option<nat>, ended: Option<nat>, t: nat)
    requires Inv(s) && Inv(s') && Slots(s, s', started, ended) && Is(s, t, Blocked)
    requires ended.Some? ==> Woken(s.channels[ended.value].value) != Some(t)
    ensures Is(s', t, Blocked)
  {
    hide Shape, Handles, SavedReady;
    WaitingIsBlocked(s);
    WaitingIsBlocked(s');
    var k :| CrossClient(s, k, t);
    StillWaits(s, s', started, ended, k, t);
  }

  lemma EnteredKept(s: KernelState, f: Frame)
    requires Inv(s) && Runnable(s) && FrameShape(f)
    ensures Kin(s, Enter(s, f), None)
  {
    EnterKeeps(s, f);
    hide Inv, Shape, Enter, PendingByServer;
  }

  /** One thread across a trap, as the served system call and the return leave it. */
  ghost predicate Crosses(s: KernelState, f: Frame, r: TrapResult, t: nat) {
    && t < |s.threads| == |r.state.threads|
    && Kept(s.threads[t], r.state.threads[t], true)
    && r.state.threads[t].pendingStatus == OrElse(Answer(s, f, r, t), s.threads[t].pendingStatus)
  }

  lemma CallerKept(s: KernelState, f: Frame)
    requires Inv(s) && Runnable(s) && FrameShape(f) && s.nextHandle < U64_MAX
    ensures var active, after := s.current.value, Served(s, f).state;
            && active < |after.threads| && Kept(s.threads[active], after.threads[active], true)
            && (f.rax == SYSCALL_RPC_REGISTER && after.current != Some(active) ==>
                  after.threads[active].pendingStatus == STATUS_OK)
            && (f.rax != SYSCALL_RPC_REGISTER || after.current == Some(active) ==>
                  Kept(s.threads[active], after.threads[active], false))
  {
    var active := s.current.value;
    hide Shape, Entered, Serve, PendingByServer, ChannelsKept, Rpc, Handles;
    EnterKeeps(s, f);
    EnteredKept(s, f);
    ServeKin(Enter(s, f), active, CallOf(f));
    PendingByServerFinds(Enter(s, f), active);
    hide Inv, Enter;
  }

  lemma CallerCrosses(s: KernelState, f: Frame)
    requires Inv(s) && Runnable(s) && FrameShape(f) && s.nextHandle < U64_MAX
    ensures Crosses(s, f, HandleTrap(s, f), s.current.value)
  {
    CallerKept(s, f);
    TrapIs(s, f);
    hide Inv, Shape, Served, HandleTrap, LoadFrame;
  }

  lemma WokenCrosses(s: KernelState, f: Frame, r: TrapResult, k: nat, t: nat)
    requires s.current.Some? && TrapEnded(s, f, r, k) && Woken(s.channels[k].value) == Some(t)
    requires Is(s, t, Blocked) && s.current != Some(t)
    ensures Crosses(s, f, r, t)
  {
    hide Restored;
  }

  lemma UntouchedCrosses(s: KernelState, f: Frame, r: TrapResult, t: nat)
    requires t < |s.threads| == |r.state.threads| && s.current != Some(t)
    requires Kept(s.threads[t], r.state.threads[t], false) && (Is(s, t, Blocked) ==> Is(r.state, t, Blocked))
    ensures Crosses(s, f, r, t)
  {
  }

  /** A thread that is neither the caller nor woken goes through the trap untouched. */
  lemma OtherKept(s: KernelState, f: Frame, t: nat)
    requires Inv(s) && Runnable(s) && FrameShape(f) && s.nextHandle < U64_MAX && t < |s.threads| && s.current != Some(t)
    requires WokenBy(s, s.current.value, f.rax) != Some(t)
    ensures var r := HandleTrap(s, f); t < |r.state.threads| && Kept(s.threads[t], r.state.threads[t], false)
  {
    var active := s.current.value;
    EnterKeeps(s, f);
    EnteredKept(s, f);
    TrapIs(s, f);
    ServeKin(Enter(s, f), active, CallOf(f));
    var s1, after := Enter(s, f), Served(s, f);
    hide Inv, Shape, Rpc, Enter, Entered, HandleTrap, Serve, PendingByServer, ChannelsKept, LoadFrame, Runnable;
    assert Touched(s1, after.state, active, f.rax) != Some(t);
  }

  lemma OtherCrosses(s: KernelState, f: Frame, t: nat)
    requires Inv(s) && Runnable(s) && FrameShape(f) && s.nextHandle < U64_MAX
    requires t < |s.threads| && s.current != Some(t)
    ensures Crosses(s, f, HandleTrap(s, f), t)
  {
    var r := HandleTrap(s, f);
    TrapKeeps(s, f);
    var started, server, ended := TrapEffect(s, f);
    hide Shape, Handles, SavedReady, HandleTrap, PendingByServer, Slots, ClientKept, TrapStarted, TrapEnded, Crosses, Kept;
    if ended.Some? && Woken(s.channels[ended.value].value) == Some(t) {
      PendsWoken(s, ended.value, t);
      WokenCrosses(s, f, r, ended.value, t);
    } else {
      hide Rpc;
      OtherKept(s, f, t);
      if Is(s, t, Blocked) {
        BlockedStays(s, r.state, started, ended, t);
      }
      UntouchedCrosses(s, f, r, t);
    }
  }

  lemma PendsWoken(s: KernelState, k: nat, t: nat)
    requires Inv(s) && Pends(s, k) && Woken(s.channels[k].value) == Some(t)
    ensures Is(s, t, Blocked)
  {
    hide Shape, Handles;
    PendingIn(s, k);
    WaitingIsBlocked(s);
  }

  /** One trap, thread by thread: handles and processes stay, EXITED threads stay EXITED, and a pending status changes
      exactly to the status that a returning system call returns with. */
  lemma TrapCrosses(s: KernelState, f: Frame)
    requires Inv(s) && Runnable(s) && FrameShape(f) && s.nextHandle < U64_MAX
    ensures forall t: nat :: t < |s.threads| ==> Crosses(s, f, HandleTrap(s, f), t)
  {
    hide Rpc, Handles, Shape, HandleTrap, Crosses;
    forall t: nat | t < |s.threads| ensures Crosses(s, f, HandleTrap(s, f), t) {
      if s.current == Some(t) {
        CallerCrosses(s, f);
      } else {
        OtherCrosses(s, f, t);
      }
    }
  }

  // ----- Runs -----

  lemma RunCrosses(states: seq<KernelState>, traps: seq<Trap>, i: nat)
    requires Run(states, traps) && i < |traps|
    ensures forall t: nat :: t < |states[i].threads| ==> Crosses(states[i], traps[i].frame, ResultAt(states, traps, i), t)
  {
    hide Inv, Next, StepAt, Booted, HandleTrap, Crosses;
    RunInv(states, traps, i);
    StepOf(states, traps, i);
    NextIs(states[i], traps[i]);
    var s := MemoryInv(states[i], traps[i]);
    TrapCrosses(s, traps[i].frame);
    forall t: nat | t < |states[i].threads|
      ensures Crosses(states[i], traps[i].frame, ResultAt(states, traps, i), t)
    {
      MemoryAsideCrosses(states[i], s, traps[i].frame, ResultAt(states, traps, i), t);
    }
  }

  lemma MemoryAsideCrosses(s: KernelState, m: KernelState, f: Frame, r: TrapResult, t: nat)
    requires m.threads == s.threads && m.current == s.current && Crosses(m, f, r, t)
    ensures Crosses(s, f, r, t)
  {
  }

  /** An EXITED thread stays EXITED for the rest of the run. */
  lemma {:induction false} ExitedForever(states: seq<KernelState>, traps: seq<Trap>, i: nat, m: nat, t: nat)
    requires Run(states, traps) && i <= m <= |traps| && Is(states[i], t, Exited)
    ensures Is(states[m], t, Exited)
  {
    if i < m {
      ExitedForever(states, traps, i, m - 1, t);
      RunCrosses(states, traps, m - 1);
      hide Run, Answer;
      assert Crosses(states[m - 1], traps[m - 1].frame, ResultAt(states, traps, m - 1), t);
    }
  }

  /** The status of the last system call of thread t that returned in the steps from i to m, if one did. */
  ghost function LastAnswer(states: seq<KernelState>, traps: seq<Trap>, i: nat, m: nat, t: nat): Option<i32>
    requires i <= m <= |traps| < |states|
    decreases m
  {
    if i == m then None
    else
      match Answer(states[m - 1], traps[m - 1].frame, ResultAt(states, traps, m - 1), t)
      case Some(status) => Some(status)
      case None => LastAnswer(states, traps, i, m - 1, t)
  }

  /** A thread's pending status is that of its last system call to return. */
  lemma {:induction false} PendingStatusIsLastAnswer(states: seq<KernelState>, traps: seq<Trap>, i: nat, m: nat, t: nat)
    requires Run(states, traps) && i <= m <= |traps| && t < |states[i].threads|
    ensures t < |states[m].threads|
    ensures states[m].threads[t].pendingStatus
         == OrElse(LastAnswer(states, traps, i, m, t), states[i].threads[t].pendingStatus)
  {
    if i < m {
      PendingStatusIsLastAnswer(states, traps, i, m - 1, t);
      RunCrosses(states, traps, m - 1);
      hide Run, Answer;
      assert Crosses(states[m - 1], traps[m - 1].frame, ResultAt(states, traps, m - 1), t);
    }
  }
}
