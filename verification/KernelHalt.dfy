/**
 When the machine stops: a trap returns to no thread (kernel/user_runtime.cpp, has_runnable_thread) exactly when it is an
 exit that leaves no thread READY, or an accepted call of a thread that is itself BLOCKED.
 */
module KernelHalt {
  import opened Words
  import opened Status
  import opened Search
  import opened AddressSpaces
  import opened UserCopy
  import opened KernelModel
  import opened KernelInvariant
  import opened KernelEffects
  import opened KernelRuns
  import opened KernelTransparency
  import opened KernelEvolution
  import opened KernelExit

  /** Channel k leads to an endpoint of thread t. */
  ghost predicate LeadsTo(s: KernelState, k: nat, t: nat) {
    && Live(s, k) && s.channels[k].value.endpoint < |s.endpoints|
    && s.endpoints[s.channels[k].value.endpoint].ownerThread == Some(t)
  }

  /** The handle's channel leads to a BLOCKED thread. */
  ghost predicate CalleeBlocked(s: KernelState, handle: u64) {
    exists k: nat, t: nat :: LeadsTo(s, k, t) && s.channels[k].value.handle == handle && Is(s, t, Blocked)
  }

  /** No thread is READY, and the exit of `active` releases no client. */
  ghost predicate NoneLeft(s: KernelState, active: nat) {
    && (forall t :: !Is(s, t, Ready))
    && forall k: nat, client: nat :: WaitsFor(s, k, client, active) ==> exists j: nat :: j < k && IsServer(s, j, active)
  }

  /** What stops the machine, told from the state before the trap and the status of the call. */
  ghost predicate Stops(s: KernelState, f: Frame, status: i32)
    requires s.current.Some?
  {
    || (f.rax == SYSCALL_THREAD_EXIT && NoneLeft(s, s.current.value))
    || (f.rax == SYSCALL_RPC_CALL && status == STATUS_OK && CalleeBlocked(s, f.rdi))
  }

  // ----- Exits -----

  /** The thread that an exit of `active` wakes. */
  ghost function Released(s: KernelState, active: nat): Option<nat> {
    match PendingByServer(s, active)
    case None => None
    case Some(k) => if k < |s.channels| && s.channels[k].Some? then Woken(s.channels[k].value) else None
  }

  lemma NoneReleased(s: KernelState, active: nat)
    requires Executing(s, active)
    ensures Released(s, active).None? <==>
            forall k: nat, client: nat :: WaitsFor(s, k, client, active) ==> exists j: nat :: j < k && IsServer(s, j, active)
  {
    PendingByServerFinds(s, active);
    hide PendingByServer, Rpc, Handles, Shape, SavedReady;
    if Released(s, active).Some? {
      var k := PendingByServer(s, active).value;
      PendingIn(s, k);
      assert WaitsFor(s, k, Released(s, active).value, active);
    }
  }

  lemma ScheduleStops(s: KernelState, active: nat)
    requires Shape(s) && s.current == Some(active) && Is(s, active, Exited)
    ensures Runnable(ScheduleNext(s)) <==> exists t :: Is(s, t, Ready)
  {
    var next := NextReady(s.threads, s.current);
    if next.Some? {
      SetCurrentExact(s, next);
      assert Is(s, next.value, Ready);
    }
    hide Shape, SetCurrent, NextReady;
  }

  lemma ExitStops(s: KernelState, active: nat, exitStatus: u64)
    requires Executing(s, active)
    ensures Runnable(TerminateCurrent(s, exitStatus, STATUS_PEER_CLOSED)) <==> !NoneLeft(s, active)
  {
    hide Rpc, Handles, PendingByServer, FailPendingCall, Slots, ScheduleNext, WaitsFor, IsServer;
    FailEffect(s, active, STATUS_PEER_CLOSED);
    PendingByServerFinds(s, active);
    NoneReleased(s, active);
    var s1 := FailPendingCall(s, active, STATUS_PEER_CLOSED);
    var s2 := PutThread(s1.(endpoints := ClearedEndpoints(s1.endpoints, active)), active,
                        s1.threads[active].(state := Exited, exitStatus := exitStatus));
    assert TerminateCurrent(s, exitStatus, STATUS_PEER_CLOSED) == ScheduleNext(s2);
    hide TerminateCurrent, ClearedEndpoints;
    ScheduleStops(s2, active);
    ReadyAfter(s, s1, s2, active);
  }

  /** Who is READY once `active` has left. */
  lemma ReadyAfter(s: KernelState, s1: KernelState, s2: KernelState, active: nat)
    requires Is(s, active, Running) && |s1.threads| == |s.threads| == |s2.threads|
    requires var woken := Released(s, active);
             && (woken.None? ==> s1.threads == s.threads)
             && (woken.Some? ==> woken.value < |s.threads| && woken.value != active
                                 && s1.threads == s.threads[woken.value := s1.threads[woken.value]]
                                 && Is(s1, woken.value, Ready))
    requires s2.threads == s1.threads[active := s2.threads[active]] && Is(s2, active, Exited)
    ensures (exists t :: Is(s2, t, Ready)) <==> (exists t :: Is(s, t, Ready)) || Released(s, active).Some?
  {
    hide Released;
    if t :| Is(s, t, Ready) {
      assert Is(s2, t, Ready);
    }
    if Released(s, active).Some? {
      assert Is(s2, Released(s, active).value, Ready);
    }
    if t :| Is(s2, t, Ready) {
      assert Released(s, active) == Some(t) || Is(s, t, Ready);
    }
  }

  // ----- Calls -----

  lemma CallStops(s: KernelState, active: nat, call: SyscallContext)
    requires Executing(s, active)
    ensures var r := Call(s, active, call);
            Runnable(r.state) <==> !(r.status == STATUS_OK && CalleeBlocked(s, call.argument0))
  {
    var k, server := CallEffect(s, active, call);
    hide Handles, Shape, Call, PrepareServer, CalleeBlocked;
    var r := Call(s, active, call);
    if r.status == STATUS_OK {
      CalleeIs(s, call.argument0, k, server);
      var c := s.channels[k].value;
      var p := PrepareServer(s, c.endpoint, server, c.clientProcess, call.argument1, call.argument2);
      StartedStops(s, r.state, k, active, server, p.state.threads[server]);
    }
  }

  lemma CalleeIs(s: KernelState, handle: u64, k: nat, server: nat)
    requires Handles(s) && LeadsTo(s, k, server) && s.channels[k].value.handle == handle
    ensures CalleeBlocked(s, handle) <==> Is(s, server, Blocked)
  {
    hide ObjectExists;
  }

  lemma StartedStops(s: KernelState, s': KernelState, k: nat, active: nat, server: nat, t: ThreadRecord)
    requires Is(s, active, Running) && !Is(s, server, Exited) && Started(s, s', k, active, server, t)
    requires t == s.threads[server].(resume := t.resume)
    ensures Runnable(s') <==> !Is(s, server, Blocked)
  {
    hide Pends;
  }

  // ----- The other system calls -----

  lemma CompleteGoesOn(s: KernelState, server: nat, status: i32)
    requires Executing(s, server)
    ensures Runnable(CompleteCall(s, server, status).state)
  {
    hide Rpc, Handles, Shape, CompleteCall, PendingByServer, SavedReady;
    PendingByServerFinds(s, server);
    if PendingByServer(s, server).Some? {
      var k := PendingByServer(s, server).value;
      CompleteEffect(s, server, status, k);
      if Woken(s.channels[k].value).None? {
        SelfSaved(s, k, server);
      }
    } else {
      NothingToComplete(s, server, status);
    }
  }

  lemma SelfSaved(s: KernelState, k: nat, server: nat)
    requires Rpc(s) && IsServer(s, k, server) && Woken(s.channels[k].value).None?
    ensures s.channels[k].value.savedState == Running
  {
  }

  lemma RegisterGoesOn(s: KernelState, active: nat, call: SyscallContext)
    requires Shape(s) && Is(s, active, Running) && s.current == Some(active)
    ensures Runnable(Register(s, active, call).state)
  {
    assert ThreadShape(s.threads[active], |s.processes|);
    hide Shape, UserString, Backed, Install, FirstIn;
    if FreeEndpoint(s).Some? {
      var name := UserString(s.memory, s.processes[s.threads[active].process].mappings, call.argument0, NAME_BUFFER_SIZE);
      InstallGoesOn(s, FreeEndpoint(s).value, active, name.bytes, call.argument1, call.argument2);
    }
  }

  lemma InstallGoesOn(s: KernelState, e: nat, active: nat, name: seq<u8>, callback: u64, completion: u64)
    requires Shape(s) && e < |s.endpoints| && Is(s, active, Running) && s.current == Some(active)
    ensures Runnable(Install(s, e, active, name, callback, completion).state)
  {
    assert ThreadShape(s.threads[active], |s.processes|);
    var s1 := PutEndpoint(s, e, EndpointRecord(true, false, name, Some(s.threads[active].process), Some(active),
                                               callback, completion));
    var next := NextReady(s1.threads, Some(active));
    hide NextReady, SetCurrent, PendingByServer;
    if next.Some? && PendingByServer(s1, active).None? {
      SetCurrentExact(PutThread(s1, active, PrepareSyscallResume(s1.threads[active], STATUS_OK)), next);
      hide Shape;
    }
  }

  lemma OpenGoesOn(s: KernelState, active: nat, call: SyscallContext)
    requires Executing(s, active) && s.nextHandle < U64_MAX
    ensures Runnable(Open(s, active, call).state)
  {
    OpenAside(s, active, call);
    OpenStays(s, active, call);
    hide Rpc, Handles, Shape, Open;
  }

  lemma OpenStays(s: KernelState, active: nat, call: SyscallContext)
    requires Shape(s) && active < |s.threads|
    ensures Open(s, active, call).state.current == s.current
  {
    assert ThreadShape(s.threads[active], |s.processes|);
    hide Shape, UserString, FirstIn, WriteUser, LittleEndian, NewChannel;
  }

  lemma CloseGoesOn(s: KernelState, active: nat, call: SyscallContext)
    requires Shape(s) && Is(s, active, Running) && s.current == Some(active)
    ensures Runnable(Close(s, active, call).state)
  {
    hide Shape, ObjectExists, FirstIn;
  }

  // ----- Traps and runs -----

  lemma ServeStops(s: KernelState, active: nat, call: SyscallContext)
    requires Executing(s, active) && s.nextHandle < U64_MAX
    ensures var r := Serve(s, active, call);
            Runnable(r.state) <==>
              && !(call.number == SYSCALL_THREAD_EXIT && NoneLeft(s, active))
              && !(call.number == SYSCALL_RPC_CALL && r.status == STATUS_OK && CalleeBlocked(s, call.argument0))
  {
    hide Rpc, Handles, Shape, Register, Open, Call, Close, CompleteCall, TerminateCurrent, DebugLog, NoneLeft,
      CalleeBlocked;
    if call.number == SYSCALL_THREAD_EXIT { ExitStops(s, active, call.argument0); }
    else if call.number == SYSCALL_RPC_CALL { CallStops(s, active, call); }
    else if call.number == SYSCALL_RPC_COMPLETE { CompleteGoesOn(s, active, ToSigned32(call.argument0)); }
    else if call.number == SYSCALL_RPC_REGISTER { RegisterGoesOn(s, active, call); }
    else if call.number == SYSCALL_RPC_OPEN { OpenGoesOn(s, active, call); }
    else if call.number == SYSCALL_RPC_CLOSE { CloseGoesOn(s, active, call); }
  }

  /** Stops looks at thread states, endpoint owners and channels only. */
  lemma StopsFrom(s: KernelState, s': KernelState, f: Frame, status: i32)
    requires s.current.Some? && s'.current == s.current && s'.endpoints == s.endpoints && s'.channels == s.channels
    requires |s'.threads| == |s.threads| && forall t :: 0 <= t < |s.threads| ==> s'.threads[t].state == s.threads[t].state
    ensures Stops(s', f, status) <==> Stops(s, f, status)
  {
    assert forall t, state :: Is(s', t, state) == Is(s, t, state);
    assert forall k, t :: IsServer(s', k, t) == IsServer(s, k, t) && CrossClient(s', k, t) == CrossClient(s, k, t);
    assert forall k, t :: LeadsTo(s', k, t) == LeadsTo(s, k, t);
    assert forall k, c, t :: WaitsFor(s', k, c, t) == WaitsFor(s, k, c, t);
    hide WaitsFor, IsServer, Is, LeadsTo;
  }

  lemma TrapStops(s: KernelState, f: Frame)
    requires Inv(s) && Runnable(s) && FrameShape(f) && s.nextHandle < U64_MAX
    ensures HandleTrap(s, f).frame.None? <==> Stops(s, f, HandleTrap(s, f).status)
  {
    hide Rpc, Handles, Shape, HandleTrap, Serve, Stops, NoneLeft, CalleeBlocked, PendingByServer;
    EnterKeeps(s, f);
    TrapIs(s, f);
    ServeStops(Enter(s, f), s.current.value, CallOf(f));
    StopsFrom(s, Enter(s, f), f, HandleTrap(s, f).status);
    hide Inv, Enter;
    StopsIs(Enter(s, f), f, HandleTrap(s, f).status);
  }

  lemma StopsIs(s: KernelState, f: Frame, status: i32)
    requires s.current.Some?
    ensures Stops(s, f, status) <==>
            || (f.rax == SYSCALL_THREAD_EXIT && NoneLeft(s, s.current.value))
            || (f.rax == SYSCALL_RPC_CALL && status == STATUS_OK && CalleeBlocked(s, f.rdi))
  {
    hide NoneLeft, CalleeBlocked;
  }

  /** A trap of a run ends it, loading no frame, iff it is the exit of a thread that leaves no thread READY, or an
      accepted call of a BLOCKED thread. */
  lemma RunStops(states: seq<KernelState>, traps: seq<Trap>, i: nat)
    requires Run(states, traps) && i < |traps|
    ensures states[i].current.Some?
    ensures traps[i].loaded.None? <==> Stops(states[i], traps[i].frame, traps[i].status)
  {
    hide Next, StepAt, HandleTrap, Stops;
    RunInv(states, traps, i);
    StepOf(states, traps, i);
    NextIs(states[i], traps[i]);
    hide Run, Inv;
    var s := MemoryInv(states[i], traps[i]);
    TrapStops(s, traps[i].frame);
    StopsFrom(states[i], s, traps[i].frame, traps[i].status);
  }
}
