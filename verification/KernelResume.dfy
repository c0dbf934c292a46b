/**
 The one thing a call does not hide from the thread it interrupts: the pending system call status is not part of the
 snapshot. This is when the server's resume record survives, exactly.
 */
module KernelResume {
  import opened Words
  import opened Status
  import opened Search
  import opened AddressSpaces
  import opened UserCopy
  import opened KernelModel
  import opened KernelBoot
  import opened KernelInvariant
  import opened KernelEffects
  import opened KernelRuns
  import opened KernelTransparency
  import opened KernelEvolution

  /** READY threads resume from a system call with their pending status. */
  ghost predicate ReadySynced(s: KernelState) {
    forall t :: Is(s, t, Ready) ==> Synced(s.threads[t])
  }

  lemma SwitchSynced(s: KernelState, next: Option<nat>)
    requires Shape(s) && ReadySynced(s) && SlotInRange(next, |s.threads|)
    requires s.current.Some? && next != s.current && s.threads[s.current.value].state == Running ==>
               Synced(s.threads[s.current.value])
    ensures ReadySynced(SetCurrent(s, next))
  {
    SetCurrentExact(s, next);
    hide Shape, SetCurrent;
  }

  lemma InstallSynced(s: KernelState, e: nat, active: nat, name: seq<u8>, callback: u64, completion: u64)
    requires Executing(s, active) && e < |s.endpoints| && ReadySynced(s)
    ensures ReadySynced(Install(s, e, active, name, callback, completion).state)
  {
    assert ThreadShape(s.threads[active], |s.processes|);
    var s1 := PutEndpoint(s, e, EndpointRecord(true, false, name, Some(s.threads[active].process), Some(active),
                                               callback, completion));
    var next := NextReady(s1.threads, Some(active));
    hide Rpc, Handles, Shape, PendingByServer, NextReady, SetCurrent;
    if next.Some? && PendingByServer(s1, active).None? {
      SwitchSynced(PutThread(s1, active, PrepareSyscallResume(s1.threads[active], STATUS_OK)), next);
    }
  }

  lemma RegisterSynced(s: KernelState, active: nat, call: SyscallContext)
    requires Executing(s, active) && ReadySynced(s)
    ensures ReadySynced(Register(s, active, call).state)
  {
    assert ThreadShape(s.threads[active], |s.processes|);
    hide Rpc, Handles, Shape, UserString, FirstIn, EndpointByName, Backed, Install;
    var mappings := s.processes[s.threads[active].process].mappings;
    if call.argument0 != 0 && call.argument1 != 0 && call.argument2 != 0
       && Backed(mappings, call.argument1) && Backed(mappings, call.argument2) {
      var name := UserString(s.memory, mappings, call.argument0, NAME_BUFFER_SIZE);
      if name.status == STATUS_OK && EndpointByName(s, name.bytes).None? && FreeEndpoint(s).Some? {
        InstallSynced(s, FreeEndpoint(s).value, active, name.bytes, call.argument1, call.argument2);
      }
    }
  }

  lemma CallSynced(s: KernelState, active: nat, call: SyscallContext)
    requires Executing(s, active) && ReadySynced(s)
    ensures ReadySynced(Call(s, active, call).state)
  {
    hide Rpc, Handles, Shape, Call, PrepareServer, Synced;
    var k, server := CallEffect(s, active, call);
  }

  lemma WakeSynced(s: KernelState, client: nat, status: i32)
    requires Shape(s) && ReadySynced(s) && client < |s.threads|
    requires s.current.Some? ==> s.threads[s.current.value].state != Running
    ensures ReadySynced(SetCurrent(WakeClient(s, client, status), Some(client)))
  {
    var s1 := WakeClient(s, client, status);
    hide Shape, SetCurrent;
    assert s1.threads == s.threads[client := s1.threads[client]] && Synced(s1.threads[client]);
    SwitchSynced(s1, Some(client));
  }

  lemma CompleteSynced(s: KernelState, server: nat, status: i32)
    requires Executing(s, server) && ReadySynced(s)
    ensures ReadySynced(CompleteCall(s, server, status).state)
  {
    hide Handles, PendingByServer, Slots, CrossClient;
    PendingByServerFinds(s, server);
    match PendingByServer(s, server)
    case None => hide Rpc, Shape;
    case Some(k) =>
      PendingIn(s, k);
      FinishKeeps(s, k, server);
      var c := s.channels[k].value;
      var s1 := PutThread(s, server, Restored(s.threads[server], c));
      CancelExact(s1, k);
      var s2 := CancelCall(s1, k);
      CompleteCases(s, server, status, k);
      hide Rpc, Shape, CancelCall, CompleteCall, SetCurrent, WakeClient;
      assert ReadySynced(s2);
      if Woken(c).Some? {
        assert c.savedState == Ready;
        WakeSynced(s2, Woken(c).value, status);
      }
  }

  lemma ExitSynced(s: KernelState, active: nat, exitStatus: u64, status: i32)
    requires Executing(s, active) && ReadySynced(s)
    ensures ReadySynced(TerminateCurrent(s, exitStatus, status))
  {
    hide Rpc, Handles, PendingByServer, FailPendingCall, Slots, ScheduleNext, CrossClient;
    FailEffect(s, active, status);
    var s1 := FailPendingCall(s, active, status);
    var s2 := PutThread(s1.(endpoints := ClearedEndpoints(s1.endpoints, active)), active,
                        s1.threads[active].(state := Exited, exitStatus := exitStatus));
    assert TerminateCurrent(s, exitStatus, status) == ScheduleNext(s2);
    ScheduleExact(s2, active);
    hide Shape, TerminateCurrent, ClearedEndpoints, Woken;
    assert ReadySynced(s1);
  }

  lemma ServeSynced(s: KernelState, active: nat, call: SyscallContext)
    requires Executing(s, active) && ReadySynced(s) && s.nextHandle < U64_MAX
    ensures ReadySynced(Serve(s, active, call).state)
  {
    hide Rpc, Handles, Shape, Register, Open, Call, Close, CompleteCall, TerminateCurrent, DebugLog;
    if call.number == SYSCALL_THREAD_EXIT { ExitSynced(s, active, call.argument0, STATUS_PEER_CLOSED); }
    else if call.number == SYSCALL_RPC_CALL { CallSynced(s, active, call); }
    else if call.number == SYSCALL_RPC_COMPLETE { CompleteSynced(s, active, ToSigned32(call.argument0)); }
    else if call.number == SYSCALL_RPC_REGISTER { RegisterSynced(s, active, call); }
    else if call.number == SYSCALL_RPC_OPEN { OpenAside(s, active, call); }
    else if call.number == SYSCALL_RPC_CLOSE { CloseAside(s, active, call); }
  }

  lemma TrapSynced(s: KernelState, f: Frame)
    requires Inv(s) && Runnable(s) && FrameShape(f) && s.nextHandle < U64_MAX && ReadySynced(s)
    ensures ReadySynced(HandleTrap(s, f).state)
  {
    EnterKeeps(s, f);
    TrapAround(s, f);
    var active := s.current.value;
    var s1 := Enter(s, f);
    hide Inv, Rpc, Shape, Serve, HandleTrap, Enter, Runnable, Entered;
    assert ReadySynced(s1);
    ServeSynced(s1, active, CallOf(f));
    var after := Served(s, f);
    hide Served;
    assert Synced(PrepareSyscallResume(after.state.threads[active], after.status));
  }

  lemma StepSynced(s: KernelState, t: Trap)
    requires Inv(s) && Enabled(s, t) && s.nextHandle < U64_MAX && ReadySynced(s)
    ensures ReadySynced(Next(s, t).state)
  {
    hide Rpc, Handles, Shape, HandleTrap;
    var e := MemoryInv(s, t);
    TrapSynced(e, t.frame);
  }

  lemma {:induction false} RunSynced(states: seq<KernelState>, traps: seq<Trap>, i: nat)
    requires Run(states, traps) && i <= |traps|
    ensures ReadySynced(states[i])
  {
    hide Inv, Enabled, Next;
    if i > 0 {
      RunSynced(states, traps, i - 1);
      RunInv(states, traps, i - 1);
      StepOf(states, traps, i - 1);
      hide ReadySynced;
      StepSynced(states[i - 1], traps[i - 1]);
    }
  }

  /** A thread interrupted by a call was READY: the run went on with it. */
  lemma InterruptedWasReady(states: seq<KernelState>, traps: seq<Trap>, i: nat, j: nat, k: nat, client: nat, server: nat)
    requires CallSpan(states, traps, i, j, k, client, server)
    ensures Is(states[i], server, Ready) && Synced(states[i].threads[server])
  {
    SpanStarts(states, traps, i, j, k, client, server);
    RunInv(states, traps, i + 1);
    RunSynced(states, traps, i);
    StepOf(states, traps, i + 1);
    hide Run, Shape, Rpc, Handles;
    assert CrossClient(states[i + 1], k, client);
  }

  lemma ResumeFollowsPending(states: seq<KernelState>, traps: seq<Trap>, i: nat, j: nat, k: nat, client: nat, server: nat)
    requires CallSpan(states, traps, i, j, k, client, server) && traps[j].frame.rax == SYSCALL_RPC_COMPLETE
    ensures server < |states[i].threads| && server < |states[j].threads| && server < |states[j + 1].threads|
    ensures server < |states[i + 1].threads|
    ensures states[i + 1].threads[server].pendingStatus == states[i].threads[server].pendingStatus
    ensures states[j + 1].threads[server].resume == states[i].threads[server].resume
       <==> states[j].threads[server].pendingStatus == states[i].threads[server].pendingStatus
  {
    SpanStarts(states, traps, i, j, k, client, server);
    SpanEnds(states, traps, i, j, k, client, server);
    InterruptedWasReady(states, traps, i, j, k, client, server);
    hide CallSpan;
  }

  /** After its callback's RPC_COMPLETE the server resumes exactly as it would have without the call iff the callback let
      no system call return, or the last one to return before RPC_COMPLETE returned the very status that the interrupted
      server was waiting to see. */
  lemma ServerResumeSurvives(states: seq<KernelState>, traps: seq<Trap>, i: nat, j: nat, k: nat, client: nat, server: nat)
    requires CallSpan(states, traps, i, j, k, client, server) && traps[j].frame.rax == SYSCALL_RPC_COMPLETE
    ensures server < |states[i].threads| && server < |states[j + 1].threads|
    ensures var last := LastAnswer(states, traps, i + 1, j, server);
            (states[j + 1].threads[server].resume == states[i].threads[server].resume
             <==> last.None? || last.value == states[i].threads[server].pendingStatus)
  {
    ResumeFollowsPending(states, traps, i, j, k, client, server);
    PendingStatusIsLastAnswer(states, traps, i + 1, j, server);
    hide Run, LastAnswer;
  }

  /** A callback that makes no system call before RPC_COMPLETE hides the call completely. */
  lemma SilentCallbackHides(states: seq<KernelState>, traps: seq<Trap>, i: nat, k: nat, client: nat, server: nat)
    requires CallSpan(states, traps, i, i + 1, k, client, server) && traps[i + 1].frame.rax == SYSCALL_RPC_COMPLETE
    ensures server < |states[i].threads| && server < |states[i + 2].threads|
    ensures states[i + 2].threads[server].resume == states[i].threads[server].resume
  {
    ServerResumeSurvives(states, traps, i, i + 1, k, client, server);
    SpanStarts(states, traps, i, i + 1, k, client, server);
    hide CallSpan;
  }

  /** The status is not hidden in general: a callback whose last system call is refused (here, number 0 is unknown)
      makes the interrupted server, waiting to see OK, see NOT_SUPPORTED instead. */
  lemma UnknownCallLeaks(states: seq<KernelState>, traps: seq<Trap>, i: nat, k: nat, client: nat, server: nat)
    requires CallSpan(states, traps, i, i + 2, k, client, server) && traps[i + 2].frame.rax == SYSCALL_RPC_COMPLETE
    requires traps[i + 1].frame.rax == 0
    requires server < |states[i].threads| && states[i].threads[server].pendingStatus == STATUS_OK
    ensures server < |states[i + 3].threads|
    ensures states[i].threads[server].resume.status == STATUS_OK
    ensures states[i + 3].threads[server].resume.status == STATUS_NOT_SUPPORTED
  {
    ResumeFollowsPending(states, traps, i, i + 2, k, client, server);
    SpanStarts(states, traps, i, i + 2, k, client, server);
    SpanEnds(states, traps, i, i + 2, k, client, server);
    InterruptedWasReady(states, traps, i, i + 2, k, client, server);
    StepOf(states, traps, i + 1);
    StepOf(states, traps, i + 2);
    hide CallSpan;
    UnknownCall(states[i + 1], traps[i + 1]);
    hide Next;
  }

  lemma UnknownCall(s: KernelState, t: Trap)
    requires Enabled(s, t) && t.frame.rax == 0 && Runnable(Next(s, t).state)
    ensures Next(s, t).state.current == s.current && s.current.value < |Next(s, t).state.threads|
    ensures Next(s, t).state.threads[s.current.value].pendingStatus == STATUS_NOT_SUPPORTED
  {
    TrapIs(PutMemory(s, t.memory), t.frame);
    hide HandleTrap, Shape;
  }
}
