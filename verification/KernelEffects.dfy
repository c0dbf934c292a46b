/**
 What one trap does to the calls in flight: every operation leaves other threads' calls alone, a new call holds a
 snapshot of its server, and only its own server ends it.
 */
module KernelEffects {
  import opened Words
  import opened Status
  import opened Search
  import opened AddressSpaces
  import opened UserCopy
  import opened KernelModel
  import opened KernelInvariant

  /** Channel k carries a call. */
  ghost predicate Pends(s: KernelState, k: int) {
    Live(s, k) && ChannelBusy(s.channels[k].value)
  }

  /** What a waiting client keeps: everything its frame is rebuilt from but the resume record. */
  predicate ThreadKept(t: ThreadRecord, t': ThreadRecord) {
    && t'.context == t.context && t'.registers == t.registers && t'.simd == t.simd
    && t'.pendingStatus == t.pendingStatus && t'.process == t.process
  }

  ghost predicate ClientKept(s: KernelState, s': KernelState, c: nat) {
    && c < |s.threads| && c < |s'.threads| && ThreadKept(s.threads[c], s'.threads[c])
    && (Runnable(s') ==> s'.threads[c] == s.threads[c])
  }

  /** No call starts but `started`, none ends but `ended`, and no pending channel is erased. */
  ghost predicate Slots(s: KernelState, s': KernelState, started: Option<nat>, ended: Option<nat>) {
    && |s'.channels| == |s.channels|
    && (forall k :: Pends(s', k) && started != Some(k) ==> Pends(s, k))
    && (forall k :: Pends(s, k) && ended != Some(k) ==> 0 <= k < |s'.channels| && s'.channels[k] == s.channels[k])
    && (ended.Some? ==>
          && Pends(s, ended.value) && Live(s', ended.value) && !Pends(s', ended.value)
          && s'.channels[ended.value].value.handle == s.channels[ended.value].value.handle)
    && (started.Some? ==> !Pends(s, started.value) && Pends(s', started.value))
  }

  /** BLOCKED threads stay as they are, but for the woken one. */
  ghost predicate Bystanders(s: KernelState, s': KernelState, woken: Option<nat>) {
    && |s'.threads| == |s.threads|
    && forall t :: 0 <= t < |s.threads| && s.threads[t].state == Blocked && woken != Some(t) ==>
                     s'.threads[t] == s.threads[t]
  }

  /** Slots, and every client still waiting is left alone. */
  ghost predicate CallsKept(s: KernelState, s': KernelState, started: Option<nat>, ended: Option<nat>) {
    && Slots(s, s', started, ended)
    && (forall k, c :: CrossClient(s, k, c) && ended != Some(k) ==> ClientKept(s, s', c))
  }

  /** Only slots that carry no call, before and after, change, and no BLOCKED thread does. */
  ghost predicate Aside(s: KernelState, s': KernelState) {
    Slots(s, s', None, None) && Bystanders(s, s', None)
  }

  lemma AssembleCallsKept(s: KernelState, s': KernelState, ended: Option<nat>, woken: Option<nat>)
    requires Rpc(s) && Slots(s, s', None, ended) && Bystanders(s, s', woken)
    requires woken.Some? ==> ended.Some? && CrossClient(s, ended.value, woken.value)
    ensures CallsKept(s, s', None, ended)
  {
    hide Slots;
    forall k, c: nat | CrossClient(s, k, c) && ended != Some(k) ensures ClientKept(s, s', c) {
      assert Is(s, c, Blocked) && woken != Some(c);
    }
  }

  lemma SameSlots(s: KernelState, s': KernelState)
    requires s'.channels == s.channels
    ensures Slots(s, s', None, None)
  {
  }

  /** A slot that carries no call, before and after, may change. */
  lemma IdleSlot(s: KernelState, s': KernelState, k: nat)
    requires k < |s.channels| == |s'.channels| && s'.channels == s.channels[k := s'.channels[k]]
    requires !Pends(s, k) && !Pends(s', k)
    ensures Slots(s, s', None, None)
  {
  }

  /** set_current_thread, thread by thread. */
  lemma SetCurrentExact(s: KernelState, next: Option<nat>)
    requires Shape(s) && SlotInRange(next, |s.threads|)
    ensures var s' := SetCurrent(s, next);
            && s'.channels == s.channels && s'.endpoints == s.endpoints && s'.memory == s.memory && s'.current == next
            && |s'.threads| == |s.threads|
            && forall t :: 0 <= t < |s.threads| ==>
                 s'.threads[t] == if next == Some(t) && s.threads[t].state == Ready
                                  then s.threads[t].(state := Running)
                                  else if next != Some(t) && s.current == Some(t) && s.threads[t].state == Running
                                  then s.threads[t].(state := Ready)
                                  else s.threads[t]
  {
  }

  /** A change of the running thread's record, then a scheduling decision. */
  lemma SwitchBystanders(s: KernelState, active: nat, t: ThreadRecord, next: Option<nat>)
    requires Shape(s) && Is(s, active, Running) && ThreadShape(t, |s.processes|) && t.state == Running
    requires SlotInRange(next, |s.threads|)
    ensures var s' := SetCurrent(PutThread(s, active, t), next);
            s'.channels == s.channels && Bystanders(s, s', None)
  {
    SetCurrentExact(PutThread(s, active, t), next);
    hide Shape, SetCurrent;
  }

  lemma InstallAside(s: KernelState, e: nat, active: nat, name: seq<u8>, callback: u64, completion: u64)
    requires Shape(s) && e < |s.endpoints| && Is(s, active, Running)
    ensures Aside(s, Install(s, e, active, name, callback, completion).state)
  {
    assert ThreadShape(s.threads[active], |s.processes|);
    var s1 := PutEndpoint(s, e, EndpointRecord(true, false, name, Some(s.threads[active].process), Some(active),
                                               callback, completion));
    var next := NextReady(s1.threads, Some(active));
    hide Shape, PendingByServer, NextReady, SetCurrent, Slots, Bystanders;
    BystandersSame(s, s1);
    if next.Some? && PendingByServer(s1, active).None? {
      SwitchBystanders(s1, active, PrepareSyscallResume(s1.threads[active], STATUS_OK), next);
      var s2 := Install(s, e, active, name, callback, completion).state;
      assert Bystanders(s, s2, None) by { BystandersFrom(s, s1, s2); }
    }
    SameSlots(s, Install(s, e, active, name, callback, completion).state);
  }

  lemma BystandersFrom(s: KernelState, s1: KernelState, s2: KernelState)
    requires s1.threads == s.threads && Bystanders(s1, s2, None)
    ensures Bystanders(s, s2, None)
  {
  }

  lemma RegisterAside(s: KernelState, active: nat, call: SyscallContext)
    requires Shape(s) && Is(s, active, Running)
    ensures Aside(s, Register(s, active, call).state)
  {
    assert ThreadShape(s.threads[active], |s.processes|);
    hide Shape, UserString, FirstIn, EndpointByName, Backed, Install, Slots, Bystanders;
    SameSlots(s, s);
    BystandersSame(s, s);
    var mappings := s.processes[s.threads[active].process].mappings;
    if call.argument0 != 0 && call.argument1 != 0 && call.argument2 != 0
       && Backed(mappings, call.argument1) && Backed(mappings, call.argument2) {
      var name := UserString(s.memory, mappings, call.argument0, NAME_BUFFER_SIZE);
      if name.status == STATUS_OK && EndpointByName(s, name.bytes).None? && FreeEndpoint(s).Some? {
        InstallAside(s, FreeEndpoint(s).value, active, name.bytes, call.argument1, call.argument2);
      }
    }
  }

  lemma CloseAside(s: KernelState, active: nat, call: SyscallContext)
    requires Executing(s, active)
    ensures Aside(s, Close(s, active, call).state) && Close(s, active, call).state.threads == s.threads
  {
    hide Rpc, Handles, Shape, Slots;
    SameSlots(s, s);
    if call.argument0 != 0 {
      match LookupChannel(s, s.threads[active].process, call.argument0)
      case Refused(_) =>
      case Found(k) =>
        if !ChannelBusy(s.channels[k].value) {
          EraseKeeps(s, active, k);
          IdleSlot(s, PutChannel(s, k, None), k);
        }
    }
  }

  lemma OpenNamedAside(s: KernelState, active: nat, owner: nat, name: seq<u8>, target: u64)
    requires Executing(s, active) && s.nextHandle < U64_MAX && owner < |s.processes|
    ensures Aside(s, OpenNamed(s, owner, name, target).state)
    ensures OpenNamed(s, owner, name, target).state.threads == s.threads
  {
    hide Rpc, Handles, Shape, Slots, Bystanders, Issue, FirstIn;
    SameSlots(s, s);
    BystandersSame(s, s);
    if EndpointByName(s, name).Some? && FreeChannel(s).Some? {
      var e := EndpointByName(s, name).value;
      IssueAside(s, active, FreeChannel(s).value, owner, e, target);
    }
  }

  lemma OpenAside(s: KernelState, active: nat, call: SyscallContext)
    requires Executing(s, active) && s.nextHandle < U64_MAX
    ensures Aside(s, Open(s, active, call).state) && Open(s, active, call).state.threads == s.threads
  {
    assert ThreadShape(s.threads[active], |s.processes|);
    hide Rpc, Handles, Shape, Slots, Bystanders, UserString, OpenNamed;
    SameSlots(s, s);
    BystandersSame(s, s);
    var owner := s.threads[active].process;
    var name := UserString(s.memory, s.processes[owner].mappings, call.argument0, NAME_BUFFER_SIZE);
    OpenNamedAside(s, active, owner, name.bytes, call.argument1);
  }

  lemma BystandersSame(s: KernelState, s': KernelState)
    requires s'.threads == s.threads
    ensures Bystanders(s, s', None)
  {
  }

  lemma IssueAside(s: KernelState, active: nat, k: nat, owner: nat, e: nat, target: u64)
    requires Executing(s, active) && s.nextHandle < U64_MAX
    requires k < |s.channels| && s.channels[k].None? && owner < |s.processes| && e < |s.endpoints|
    ensures Aside(s, Issue(s, k, owner, e, target).state) && Issue(s, k, owner, e, target).state.threads == s.threads
  {
    IssueKeeps(s, active, k, owner, e, target);
    hide Rpc, Handles, Slots, Bystanders, Shape, Issue;
    var s' := Issue(s, k, owner, e, target).state;
    IdleSlot(s, s', k);
    BystandersSame(s, s');
  }

  // ----- Ending a call -----

  /** The client's record after its call ended with `status`. */
  function Awake(t: ThreadRecord, state: ThreadState, status: i32): ThreadRecord {
    PrepareSyscallResume(t.(state := state), status)
  }

  /** The thread woken when channel k's call ends: its client, if another thread. */
  function Woken(c: ChannelRecord): Option<nat> {
    if c.pendingClient == c.pendingServer then None else c.pendingClient
  }

  lemma CancelExact(s: KernelState, k: nat)
    requires Shape(s) && Pends(s, k)
    ensures var s' := CancelCall(s, k);
            && s'.threads == s.threads && s'.current == s.current && Slots(s, s', None, Some(k))
  {
    hide Shape;
  }

  /** Waking a thread and switching to it changes that thread, and at most demotes the one that was RUNNING. */
  lemma WakeExact(s: KernelState, client: nat, status: i32)
    requires Shape(s) && client < |s.threads|
    ensures var s' := SetCurrent(WakeClient(s, client, status), Some(client));
            && s'.channels == s.channels && s'.current == Some(client) && |s'.threads| == |s.threads|
            && s'.threads[client] == Awake(s.threads[client], Running, status)
            && forall t :: 0 <= t < |s.threads| && t != client && s.threads[t].state != Running ==>
                             s'.threads[t] == s.threads[t]
  {
    SetCurrentExact(WakeClient(s, client, status), Some(client));
    hide Shape, SetCurrent;
  }

  lemma CompleteCases(s: KernelState, server: nat, status: i32, k: nat)
    requires Shape(s) && server < |s.threads| && PendingByServer(s, server) == Some(k)
    requires IsServer(s, k, server) && s.channels[k].value.pendingClient.Some?
    ensures var c := s.channels[k].value;
            var s2 := CancelCall(PutThread(s, server, Restored(s.threads[server], c)), k);
            CompleteCall(s, server, status)
            == if c.pendingClient == Some(server) then Outcome(s2, status)
               else Outcome(SetCurrent(WakeClient(s2, c.pendingClient.value, status), c.pendingClient), STATUS_OK)
  {
    hide PendingByServer, CancelCall, SetCurrent, WakeClient, Shape;
  }

  lemma CompleteSlots(s: KernelState, server: nat, status: i32, k: nat)
    requires Executing(s, server) && PendingByServer(s, server) == Some(k)
    ensures Slots(s, CompleteCall(s, server, status).state, None, Some(k))
  {
    PendingByServerFinds(s, server);
    PendingIn(s, k);
    var c := s.channels[k].value;
    var s1 := PutThread(s, server, Restored(s.threads[server], c));
    var s2 := CancelCall(s1, k);
    var s' := CompleteCall(s, server, status).state;
    CompleteCases(s, server, status, k);
    hide Rpc, Handles, Shape, PendingByServer, CompleteCall, CrossClient;
    CancelExact(s1, k);
    if Woken(c).Some? {
      WakeExact(s2, Woken(c).value, status);
    }
    hide CancelCall, Slots, Pends, Restored, SetCurrent, WakeClient;
    SlotsFrom(s, s1, s2, Some(k));
    SlotsOfSameChannels(s, s2, s', Some(k));
  }

  lemma WakeBystanders(s: KernelState, s2: KernelState, server: nat, client: nat, status: i32)
    requires Is(s, server, Running) && Shape(s2) && client < |s2.threads|
    requires |s2.threads| == |s.threads| && s2.threads == s.threads[server := s2.threads[server]]
    ensures Bystanders(s, SetCurrent(WakeClient(s2, client, status), Some(client)), Some(client))
  {
    WakeExact(s2, client, status);
    hide Shape, SetCurrent, WakeClient, Awake;
  }

  lemma CompleteBystanders(s: KernelState, server: nat, status: i32, k: nat)
    requires Executing(s, server) && PendingByServer(s, server) == Some(k)
    ensures Bystanders(s, CompleteCall(s, server, status).state, Woken(s.channels[k].value))
  {
    PendingByServerFinds(s, server);
    PendingIn(s, k);
    var c := s.channels[k].value;
    var s1 := PutThread(s, server, Restored(s.threads[server], c));
    CancelExact(s1, k);
    var s2 := CancelCall(s1, k);
    CompleteCases(s, server, status, k);
    hide Rpc, Handles, Shape, PendingByServer, CancelCall, Slots, CompleteCall, CrossClient, SavedReady, Restored;
    assert s2.threads == s.threads[server := s1.threads[server]];
    if Woken(c).Some? {
      WakeBystanders(s, s2, server, Woken(c).value, status);
      hide Bystanders;
    }
  }

  /** RPC_COMPLETE hands the status to the client of the lowest channel the server is pending on, makes the client
      current, and restores the server. */
  lemma CompleteEffect(s: KernelState, server: nat, status: i32, k: nat)
    requires Executing(s, server) && PendingByServer(s, server) == Some(k)
    ensures var c := s.channels[k].value;
            var r := CompleteCall(s, server, status);
            && r.state.threads[server] == Restored(s.threads[server], c)
            && (Woken(c).Some? ==>
                  && CrossClient(s, k, Woken(c).value) && Woken(c).value < |s.threads| && Woken(c).value != server
                  && r.status == STATUS_OK && r.state.current == Woken(c)
                  && r.state.threads[Woken(c).value] == Awake(s.threads[Woken(c).value], Running, status))
            && (Woken(c).None? ==> r.status == status && r.state.current == Some(server))
  {
    PendingByServerFinds(s, server);
    PendingIn(s, k);
    FinishKeeps(s, k, server);
    var c := s.channels[k].value;
    var s1 := PutThread(s, server, Restored(s.threads[server], c));
    CancelExact(s1, k);
    var s2 := CancelCall(s1, k);
    CompleteCases(s, server, status, k);
    hide Rpc, Handles, Shape, PendingByServer, CancelCall, Slots, CompleteCall, CrossClient;
    if Woken(c).Some? {
      assert c.savedState == Ready;
      WakeExact(s2, Woken(c).value, status);
      hide SetCurrent, WakeClient, Awake;
    }
  }

  lemma SlotsFrom(s: KernelState, s1: KernelState, s2: KernelState, ended: Option<nat>)
    requires s1.channels == s.channels && Slots(s1, s2, None, ended)
    ensures Slots(s, s2, None, ended)
  {
    assert forall k :: Pends(s1, k) == Pends(s, k);
  }

  lemma WaitingIsBlocked(s: KernelState)
    requires Rpc(s)
    ensures forall k, c: nat :: CrossClient(s, k, c) ==> Is(s, c, Blocked) && Pends(s, k)
  {
  }

  lemma FailEffect(s: KernelState, server: nat, status: i32)
    requires Executing(s, server)
    ensures var ended := PendingByServer(s, server);
            var woken := if ended.Some? then Woken(s.channels[ended.value].value) else None;
            var s' := FailPendingCall(s, server, status);
            && Slots(s, s', None, ended) && s'.current == s.current
            && (woken.None? ==> s'.threads == s.threads)
            && (woken.Some? ==>
                  && woken.value < |s.threads| && woken.value != server && CrossClient(s, ended.value, woken.value)
                  && s'.threads == s.threads[woken.value := Awake(s.threads[woken.value], Ready, status)])
  {
    PendingByServerFinds(s, server);
    match PendingByServer(s, server)
    case None => SameSlots(s, s);
    case Some(k) =>
      PendingIn(s, k);
      CancelExact(s, k);
      hide Rpc, Handles, Shape, PendingByServer, CancelCall, Slots, SavedReady;
      var s2 := CancelCall(s, k);
      var woken := Woken(s.channels[k].value);
      if woken.Some? {
        assert FailPendingCall(s, server, status) == WakeClient(s2, woken.value, status);
        SlotsOfSameChannels(s, s2, WakeClient(s2, woken.value, status), Some(k));
      }
  }

  lemma SlotsOfSameChannels(s: KernelState, s1: KernelState, s2: KernelState, ended: Option<nat>)
    requires Slots(s, s1, None, ended) && s2.channels == s1.channels
    ensures Slots(s, s2, None, ended)
  {
    assert forall k :: Pends(s2, k) == Pends(s1, k) && Live(s2, k) == Live(s1, k);
  }

  /** Scheduling after an exit only makes one READY thread RUNNING. */
  lemma ScheduleExact(s: KernelState, active: nat)
    requires Shape(s) && s.current == Some(active) && Is(s, active, Exited)
    ensures var s' := ScheduleNext(s);
            && s'.channels == s.channels && |s'.threads| == |s.threads|
            && forall t :: 0 <= t < |s.threads| ==>
                             || s'.threads[t] == s.threads[t]
                             || (s.threads[t].state == Ready && s'.threads[t] == s.threads[t].(state := Running))
  {
    var next := NextReady(s.threads, s.current);
    if next.Some? {
      SetCurrentExact(s, next);
    }
    hide Shape, SetCurrent;
  }

  /** When a thread exits, the call it serves in the lowest slot fails with the given status; any other call it
      serves stays pending. */
  lemma TerminateEffect(s: KernelState, active: nat, exitStatus: u64, status: i32)
    requires Executing(s, active)
    ensures var s' := TerminateCurrent(s, exitStatus, status);
            var ended := PendingByServer(s, active);
            var woken := if ended.Some? then Woken(s.channels[ended.value].value) else None;
            && Slots(s, s', None, ended) && Bystanders(s, s', woken)
            && Is(s', active, Exited)
            && (woken.Some? ==>
                  && woken.value < |s.threads| && woken.value != active && CrossClient(s, ended.value, woken.value)
                  && (s'.threads[woken.value] == Awake(s.threads[woken.value], Ready, status)
                      || s'.threads[woken.value] == Awake(s.threads[woken.value], Running, status)))
  {
    PendingByServerFinds(s, active);
    hide Rpc, Handles, PendingByServer, FailPendingCall, Slots, ScheduleNext, CrossClient;
    FailEffect(s, active, status);
    var ended := PendingByServer(s, active);
    var woken := if ended.Some? then Woken(s.channels[ended.value].value) else None;
    var s1 := FailPendingCall(s, active, status);
    var s2 := PutThread(s1.(endpoints := ClearedEndpoints(s1.endpoints, active)), active,
                        s1.threads[active].(state := Exited, exitStatus := exitStatus));
    var s' := TerminateCurrent(s, exitStatus, status);
    assert s' == ScheduleNext(s2);
    LeaveBystanders(s, s2, active, woken);
    ScheduleExact(s2, active);
    hide Shape, TerminateCurrent, Bystanders, ClearedEndpoints;
    SlotsOfSameChannels(s, s1, s', ended);
  }

  lemma LeaveBystanders(s: KernelState, s2: KernelState, active: nat, woken: Option<nat>)
    requires Shape(s2) && s2.current == Some(active) && Is(s2, active, Exited)
    requires |s2.threads| == |s.threads| && !Is(s, active, Blocked)
    requires forall t :: 0 <= t < |s.threads| && t != active && woken != Some(t) ==> s2.threads[t] == s.threads[t]
    ensures Bystanders(s, ScheduleNext(s2), woken)
  {
    ScheduleExact(s2, active);
    hide Shape, ScheduleNext;
  }

  // ----- Starting a call -----

  /** What begin_call leaves in the channel: both ends, and a copy of the server as it was interrupted. */
  function Began(c: ChannelRecord, client: nat, server: nat, t: ThreadRecord): ChannelRecord {
    c.(pendingClient := Some(client), pendingServer := Some(server), savedState := t.state, savedContext := t.context,
       savedRegisters := t.registers, savedSimd := t.simd)
  }

  lemma AcceptExact(s: KernelState, k: nat, active: nat, server: nat)
    requires Shape(s) && Live(s, k) && s.current == Some(active) && Is(s, active, Running) && server < |s.threads|
    requires server == active || !Is(s, server, Running)
    ensures var s' := Accept(s, k, active, server);
            && s'.channels == s.channels[k := Some(Began(s.channels[k].value, active, server, s.threads[server]))]
            && s'.current == Some(server) && s'.memory == s.memory
            && s'.threads ==
               if server == active then s.threads
               else s.threads[active := s.threads[active].(state := Blocked)]
                             [server := if Is(s, server, Ready) then s.threads[server].(state := Running)
                                        else s.threads[server]]
  {
    var s1 := BeginCall(s, k, active, server);
    assert s1.threads == s.threads;
    if server != active {
      SetCurrentExact(PutThread(s1, active, s1.threads[active].(state := Blocked)), Some(server));
    }
    hide Shape, SetCurrent, BeginCall;
  }

  /** An accepted cross-thread call, slot by slot. */
  ghost predicate Started(s: KernelState, s': KernelState, k: nat, active: nat, server: nat, t: ThreadRecord) {
    && Live(s, k) && !Pends(s, k) && active < |s.threads| && server < |s.threads|
    && s'.channels == s.channels[k := Some(Began(s.channels[k].value, active, server, s.threads[server]))]
    && s'.current == Some(server)
    && s'.threads ==
       if server == active then s.threads[server := t]
       else s.threads[active := s.threads[active].(state := Blocked)]
                     [server := if Is(s, server, Ready) then t.(state := Running) else t]
  }

  /** Call k was accepted from `active`: an idle channel of its process with the given handle, on an idle endpoint
      with a live owner, which is now set up to run the endpoint's callback on the request. */
  ghost predicate AcceptedCall(s: KernelState, r: Outcome, active: nat, call: SyscallContext, k: nat, server: nat)
    requires Shape(s) && active < |s.threads|
  {
    && r.status == STATUS_OK
    && Live(s, k) && s.channels[k].value.endpoint < |s.endpoints| && server < |s.threads|
    && var c := s.channels[k].value;
       && c.handle == call.argument0 && c.clientProcess == s.threads[active].process < |s.processes|
       && s.endpoints[c.endpoint].ownerThread == Some(server)
       && !s.endpoints[c.endpoint].busy && !Is(s, server, Exited)
       && var p := PrepareServer(s, c.endpoint, server, c.clientProcess, call.argument1, call.argument2);
          && p.status == STATUS_OK && r.state.memory == p.state.memory
          && p.state.threads[server] == s.threads[server].(resume := p.state.threads[server].resume)
          && Started(s, r.state, k, active, server, p.state.threads[server])
  }

  /** RPC_CALL: a refusal leaves everything but memory as it was. An acceptance starts one call. */
  lemma CallEffect(s: KernelState, active: nat, call: SyscallContext) returns (k: nat, server: nat)
    requires Executing(s, active)
    ensures var r := Call(s, active, call);
            if r.status == STATUS_OK then AcceptedCall(s, r, active, call, k, server)
            else r.state == s.(memory := r.state.memory)
  {
    assert ThreadShape(s.threads[active], |s.processes|);
    k, server := 0, 0;
    hide ObjectExists, FirstIn, CallOn, Rpc, Handles, Shape, AcceptedCall;
    if call.argument0 != 0 && call.argument1 != 0 && 0 < call.argument2 <= MAX_REQUEST_SIZE {
      match LookupChannel(s, s.threads[active].process, call.argument0)
      case Refused(_) =>
      case Found(found) =>
        k := found;
        server := CallOnEffect(s, active, call, k);
    }
  }

  lemma CallOnEffect(s: KernelState, active: nat, call: SyscallContext, k: nat) returns (server: nat)
    requires Executing(s, active) && Live(s, k)
    requires s.channels[k].value.handle == call.argument0
    requires s.channels[k].value.clientProcess == s.threads[active].process < |s.processes|
    ensures var r := CallOn(s, active, k, call.argument1, call.argument2);
            if r.status == STATUS_OK then AcceptedCall(s, r, active, call, k, server)
            else r.state == s.(memory := r.state.memory)
  {
    server := 0;
    var c := s.channels[k].value;
    assert ChannelShape(c, |s.processes|, |s.threads|, |s.endpoints|);
    assert EndpointShape(s.endpoints[c.endpoint], |s.processes|, |s.threads|);
    hide PrepareServer, Accept, Started, Rpc, Handles, Shape;
    var owner := s.endpoints[c.endpoint].ownerThread;
    if owner.Some? && !Is(s, owner.value, Exited)
       && s.endpoints[c.endpoint].inUse && !s.endpoints[c.endpoint].busy && !ChannelBusy(c) {
      server := owner.value;
      StartEffect(s, active, k, server, call.argument1, call.argument2);
    }
  }

  lemma StartEffect(s: KernelState, active: nat, k: nat, server: nat, request: u64, size: u64)
    requires Executing(s, active) && Live(s, k) && !ChannelBusy(s.channels[k].value) && server < |s.threads|
    requires s.channels[k].value.endpoint < |s.endpoints| && s.channels[k].value.clientProcess < |s.processes|
    ensures var c := s.channels[k].value;
            var p := PrepareServer(s, c.endpoint, server, c.clientProcess, request, size);
            p.status == STATUS_OK ==>
              && Started(s, Accept(p.state, k, active, server), k, active, server, p.state.threads[server])
              && p.state.threads[server] == s.threads[server].(resume := p.state.threads[server].resume)
              && Accept(p.state, k, active, server).memory == p.state.memory
  {
    var c := s.channels[k].value;
    PrepareKeeps(s, active, c.endpoint, server, c.clientProcess, request, size);
    var p := PrepareServer(s, c.endpoint, server, c.clientProcess, request, size);
    if p.status == STATUS_OK {
      PrepareExact(s, c.endpoint, server, c.clientProcess, request, size);
      assert server == active || !Is(s, server, Running);
      hide Rpc, Handles, Shape, PrepareServer;
      AcceptExact(p.state, k, active, server);
      hide Accept;
      StartedFrom(s, p.state, Accept(p.state, k, active, server), k, active, server);
    }
  }

  lemma StartedFrom(s: KernelState, p: KernelState, s': KernelState, k: nat, active: nat, server: nat)
    requires Live(s, k) && !ChannelBusy(s.channels[k].value) && active < |s.threads| && server < |s.threads|
    requires p.channels == s.channels && |p.threads| == |s.threads|
    requires p.threads[server] == s.threads[server].(resume := p.threads[server].resume)
    requires p.threads == s.threads[server := p.threads[server]]
    requires s'.channels == p.channels[k := Some(Began(p.channels[k].value, active, server, p.threads[server]))]
    requires s'.current == Some(server)
    requires s'.threads ==
             if server == active then p.threads
             else p.threads[active := p.threads[active].(state := Blocked)]
                           [server := if Is(p, server, Ready) then p.threads[server].(state := Running)
                                      else p.threads[server]]
    ensures Started(s, s', k, active, server, p.threads[server])
  {
  }

  /** A prepared server differs from before in its resume record only. */
  lemma PrepareExact(s: KernelState, e: nat, server: nat, client: nat, request: u64, size: u64)
    requires Shape(s) && e < |s.endpoints| && server < |s.threads| && client < |s.processes|
    ensures var p := PrepareServer(s, e, server, client, request, size);
            p.status == STATUS_OK ==>
              && p.state.current == s.current && p.state.endpoints == s.endpoints && p.state.channels == s.channels
              && p.state.threads[server] == s.threads[server].(resume := p.state.threads[server].resume)
              && p.state.threads == s.threads[server := p.state.threads[server]]
  {
    hide Shape, Backed, CopyUser, WriteUser, LittleEndian, InMemory;
  }

  lemma StartedKept(s: KernelState, s': KernelState, k: nat, active: nat, server: nat, t: ThreadRecord)
    requires Rpc(s) && Is(s, active, Running) && Started(s, s', k, active, server, t)
    requires t == s.threads[server].(resume := t.resume)
    ensures CallsKept(s, s', Some(k), None)
  {
    assert Slots(s, s', Some(k), None);
    forall j, c: nat | CrossClient(s, j, c) ensures ClientKept(s, s', c) {
      assert Is(s, c, Blocked);
    }
  }

  // ----- Every system call -----

  /** Call k ended: completed by its server with the status it passed, or failed because its server left. */
  ghost predicate EndedCall(s: KernelState, r: Outcome, active: nat, call: SyscallContext, k: nat) {
    && Pends(s, k) && PendingByServer(s, active) == Some(k)
    && active < |s.threads| && |r.state.threads| == |s.threads|
    && var c := s.channels[k].value;
       var woken := Woken(c);
       && c.pendingServer == Some(active)
       && (woken.Some? ==> woken.value < |s.threads| && woken.value != active && CrossClient(s, k, woken.value))
       && (call.number == SYSCALL_RPC_COMPLETE ==>
             && r.state.threads[active] == Restored(s.threads[active], c)
             && (woken.None? ==> r.status == ToSigned32(call.argument0) && r.state.current == Some(active))
             && (woken.Some? ==>
                   && r.status == STATUS_OK && r.state.current == woken
                   && r.state.threads[woken.value]
                      == Awake(s.threads[woken.value], Running, ToSigned32(call.argument0))))
       && (call.number != SYSCALL_RPC_COMPLETE ==>
             && call.number == SYSCALL_THREAD_EXIT && Is(r.state, active, Exited)
             && (woken.Some? ==>
                   || r.state.threads[woken.value] == Awake(s.threads[woken.value], Ready, STATUS_PEER_CLOSED)
                   || r.state.threads[woken.value] == Awake(s.threads[woken.value], Running, STATUS_PEER_CLOSED)))
  }

  /** Everything one system call does to calls: only an accepted RPC_CALL starts one, only RPC_COMPLETE or
      THREAD_EXIT of its server ends one, and every other client in flight is left alone. */
  ghost predicate Effect(s: KernelState, r: Outcome, active: nat, call: SyscallContext,
                         started: Option<nat>, server: nat, ended: Option<nat>)
    requires Shape(s) && active < |s.threads|
  {
    && CallsKept(s, r.state, started, ended)
    && (started.Some? <==> call.number == SYSCALL_RPC_CALL && r.status == STATUS_OK)
    && (started.Some? ==> AcceptedCall(s, r, active, call, started.value, server))
    && (ended.Some? <==> call.number in {SYSCALL_RPC_COMPLETE, SYSCALL_THREAD_EXIT} && PendingByServer(s, active).Some?)
    && (ended.Some? ==> EndedCall(s, r, active, call, ended.value))
  }

  lemma AsideKept(s: KernelState, s': KernelState)
    requires Rpc(s) && Aside(s, s')
    ensures CallsKept(s, s', None, None)
  {
    AssembleCallsKept(s, s', None, None);
  }

  lemma NothingKept(s: KernelState, s': KernelState)
    requires Rpc(s) && s'.threads == s.threads && s'.channels == s.channels
    ensures CallsKept(s, s', None, None)
  {
    SameSlots(s, s');
    BystandersSame(s, s');
    AsideKept(s, s');
  }

  lemma PendingByServerPends(s: KernelState, server: nat, k: nat)
    requires PendingByServer(s, server) == Some(k)
    ensures Pends(s, k) && s.channels[k].value.pendingServer == Some(server)
  {
  }

  lemma CompleteServe(s: KernelState, active: nat, call: SyscallContext) returns (ended: Option<nat>)
    requires Executing(s, active) && call.number == SYSCALL_RPC_COMPLETE
    ensures Effect(s, CompleteCall(s, active, ToSigned32(call.argument0)), active, call, None, 0, ended)
  {
    ended := PendingByServer(s, active);
    var status := ToSigned32(call.argument0);
    var r := CompleteCall(s, active, status);
    if ended.Some? {
      var k := ended.value;
      PendingByServerPends(s, active, k);
      CompleteSlots(s, active, status, k);
      CompleteBystanders(s, active, status, k);
      CompleteEffect(s, active, status, k);
      hide Rpc, Handles, Shape, CompleteCall, PendingByServer, Slots, Bystanders, Pends, Restored, Awake, ToSigned32;
      AssembleCallsKept(s, r.state, ended, Woken(s.channels[k].value));
      assert EndedCall(s, r, active, call, k);
      hide CallsKept, EndedCall;
    } else {
      hide PendingByServer, Rpc;
      NothingKept(s, r.state);
    }
  }

  lemma ExitServe(s: KernelState, active: nat, call: SyscallContext) returns (ended: Option<nat>)
    requires Executing(s, active) && call.number == SYSCALL_THREAD_EXIT
    ensures Effect(s, Outcome(TerminateCurrent(s, call.argument0, STATUS_PEER_CLOSED), STATUS_OK), active, call,
                   None, 0, ended)
  {
    ended := PendingByServer(s, active);
    var r := Outcome(TerminateCurrent(s, call.argument0, STATUS_PEER_CLOSED), STATUS_OK);
    TerminateEffect(s, active, call.argument0, STATUS_PEER_CLOSED);
    if ended.Some? {
      PendingByServerPends(s, active, ended.value);
      hide Rpc, Handles, Shape, TerminateCurrent, PendingByServer, Slots, Bystanders, Pends, Awake;
      AssembleCallsKept(s, r.state, ended, Woken(s.channels[ended.value].value));
      hide CallsKept;
    } else {
      hide Rpc, Handles, Shape, TerminateCurrent, PendingByServer, Slots, Bystanders;
      AssembleCallsKept(s, r.state, None, None);
    }
  }

  lemma CallServe(s: KernelState, active: nat, call: SyscallContext) returns (started: Option<nat>, server: nat)
    requires Executing(s, active) && call.number == SYSCALL_RPC_CALL
    ensures Effect(s, Call(s, active, call), active, call, started, server, None)
  {
    var k;
    k, server := CallEffect(s, active, call);
    var r := Call(s, active, call);
    started := if r.status == STATUS_OK then Some(k) else None;
    hide Handles, Shape, Call, PrepareServer, Started;
    if r.status == STATUS_OK {
      hide Rpc, CallsKept;
      var c := s.channels[k].value;
      var p := PrepareServer(s, c.endpoint, server, c.clientProcess, call.argument1, call.argument2);
      StartedKept(s, r.state, k, active, server, p.state.threads[server]);
    } else {
      NothingKept(s, r.state);
    }
  }

  lemma ServeEffect(s: KernelState, active: nat, call: SyscallContext)
    returns (started: Option<nat>, server: nat, ended: Option<nat>)
    requires Executing(s, active) && s.nextHandle < U64_MAX
    ensures Effect(s, Serve(s, active, call), active, call, started, server, ended)
  {
    started, server, ended := None, 0, None;
    hide Rpc, Handles, Shape, Register, Open, Call, Close, CompleteCall, TerminateCurrent, PendingByServer, CallsKept,
      AcceptedCall, EndedCall, Aside, DebugLog;
    if call.number == SYSCALL_THREAD_EXIT { ended := ExitServe(s, active, call); }
    else if call.number == SYSCALL_RPC_CALL { started, server := CallServe(s, active, call); }
    else if call.number == SYSCALL_RPC_COMPLETE { ended := CompleteServe(s, active, call); }
    else if call.number == SYSCALL_RPC_REGISTER {
      RegisterAside(s, active, call);
      AsideKept(s, Register(s, active, call).state);
    } else if call.number == SYSCALL_RPC_OPEN {
      OpenAside(s, active, call);
      AsideKept(s, Open(s, active, call).state);
    } else if call.number == SYSCALL_RPC_CLOSE {
      CloseAside(s, active, call);
      AsideKept(s, Close(s, active, call).state);
    } else {
      NothingKept(s, s);
    }
  }

  // ----- One trap -----

  /** A thread's record once its trap is entered: frame saved, context set. */
  function Entered(t: ThreadRecord, f: Frame): ThreadRecord
    requires |t.registers| == REGISTER_COUNT
  {
    SetUserContext(SaveFrame(t, f), ContextOf(CallOf(f)))
  }

  ghost function Enter(s: KernelState, f: Frame): (r: KernelState)
    requires Shape(s) && s.current.Some? && FrameShape(f)
    ensures Shape(r) && SameTables(s, r)
  {
    var active := s.current.value;
    PutThread(s, active, Entered(s.threads[active], f))
  }

  ghost function Served(s: KernelState, f: Frame): (r: Outcome)
    requires Shape(s) && s.current.Some? && FrameShape(f)
    ensures Shape(r.state) && SameTablesIssuing(s, r.state)
  {
    Serve(Enter(s, f), s.current.value, CallOf(f))
  }

  lemma TrapIs(s: KernelState, f: Frame)
    requires Shape(s) && s.current.Some? && FrameShape(f)
    ensures var active := s.current.value;
            var after := Served(s, f);
            var r := HandleTrap(s, f);
            && r.status == after.status
            && r.state == (if Runnable(after.state) && after.state.current == Some(active)
                           then PutThread(after.state, active,
                                          PrepareSyscallResume(after.state.threads[active], after.status))
                           else after.state)
            && r.state.current == after.state.current && r.state.channels == after.state.channels
            && (Runnable(r.state) <==> Runnable(after.state))
            && (Runnable(r.state) ==> r.frame == Some(LoadFrame(r.state.threads[r.state.current.value])))
  {
    var active := s.current.value;
    var saved := PutThread(s, active, SaveFrame(s.threads[active], f));
    assert saved.threads[active := Entered(s.threads[active], f)] == s.threads[active := Entered(s.threads[active], f)];
    assert PutThread(saved, active, SetUserContext(saved.threads[active], ContextOf(CallOf(f)))) == Enter(s, f);
    hide Serve, Shape, SameTablesIssuing;
  }

  /** The trap started a call on channel k, whose record now holds the server as it was. */
  ghost predicate TrapStarted(s: KernelState, f: Frame, r: TrapResult, k: nat, server: nat)
    requires s.current.Some?
  {
    var active := s.current.value;
    && f.rax == SYSCALL_RPC_CALL && r.status == STATUS_OK
    && Live(s, k) && !Pends(s, k) && Live(r.state, k) && server < |s.threads| == |r.state.threads|
    && active < |s.threads| && |s.threads[active].registers| == REGISTER_COUNT
    && (server != active ==>
          && r.state.channels[k] == Some(Began(s.channels[k].value, active, server, s.threads[server]))
          && r.state.threads[active] == Entered(s.threads[active], f).(state := Blocked)
          && r.state.current == Some(server)
          && r.state.threads[server].pendingStatus == s.threads[server].pendingStatus)
    && (server == active ==> Woken(r.state.channels[k].value) == None)
  }

  /** The trap ended the call of channel k. */
  ghost predicate TrapEnded(s: KernelState, f: Frame, r: TrapResult, k: nat)
    requires s.current.Some?
  {
    var active := s.current.value;
    && f.rax in {SYSCALL_RPC_COMPLETE, SYSCALL_THREAD_EXIT}
    && Pends(s, k) && active < |s.threads| == |r.state.threads| && |s.threads[active].registers| == REGISTER_COUNT
    && s.channels[k].value.pendingServer == Some(active)
    && var c := s.channels[k].value;
       Woken(c).Some? ==>
         var client := Woken(c).value;
         && CrossClient(s, k, client) && client < |s.threads| && client != active
         && (f.rax == SYSCALL_RPC_COMPLETE ==>
               && r.status == STATUS_OK && r.state.current == Some(client)
               && r.state.threads[client] == Awake(s.threads[client], Running, ToSigned32(f.rdi))
               && r.state.threads[active] == Restored(Entered(s.threads[active], f), c))
         && (f.rax == SYSCALL_THREAD_EXIT ==>
               && Is(r.state, active, Exited)
               && (|| r.state.threads[client] == Awake(s.threads[client], Ready, STATUS_PEER_CLOSED)
                   || r.state.threads[client] == Awake(s.threads[client], Running, STATUS_PEER_CLOSED)))
  }

  ghost predicate TrapEffected(s: KernelState, f: Frame, r: TrapResult,
                               started: Option<nat>, server: nat, ended: Option<nat>)
    requires s.current.Some?
  {
    && CallsKept(s, r.state, started, ended)
    && (started.Some? <==> f.rax == SYSCALL_RPC_CALL && r.status == STATUS_OK)
    && (started.Some? ==> TrapStarted(s, f, r, started.value, server))
    && (ended.Some? ==> TrapEnded(s, f, r, ended.value))
    && ended == (if f.rax in {SYSCALL_RPC_COMPLETE, SYSCALL_THREAD_EXIT} then PendingByServer(s, s.current.value) else None)
  }

  /** From the entered state to the trap's own: only the active thread's record differs, before and after. */
  lemma KeptAround(s: KernelState, s1: KernelState, s2: KernelState, s': KernelState, active: nat,
                   started: Option<nat>, ended: Option<nat>)
    requires Rpc(s) && Is(s, active, Running) && CallsKept(s1, s2, started, ended)
    requires |s1.threads| == |s.threads| && s1.channels == s.channels && s'.channels == s2.channels
    requires s1.threads == s.threads[active := s1.threads[active]]
    requires |s'.threads| == |s2.threads| && (Runnable(s') <==> Runnable(s2))
    requires s'.threads == s2.threads
             || (active < |s2.threads| && s'.threads == s2.threads[active := s'.threads[active]])
    ensures CallsKept(s, s', started, ended)
  {
    assert forall k :: Pends(s1, k) == Pends(s, k);
    assert forall k :: Pends(s', k) == Pends(s2, k) && Live(s', k) == Live(s2, k);
    assert Slots(s, s', started, ended);
    hide Slots, Runnable;
    forall k, c: nat | CrossClient(s, k, c) && ended != Some(k) ensures ClientKept(s, s', c) {
      assert Is(s, c, Blocked) && CrossClient(s1, k, c);
    }
  }

  lemma EnterKeeps(s: KernelState, f: Frame)
    requires Inv(s) && Runnable(s) && FrameShape(f)
    ensures Executing(Enter(s, f), s.current.value) && Rpc(s) && Is(s, s.current.value, Running)
    ensures PendingByServer(Enter(s, f), s.current.value) == PendingByServer(s, s.current.value)
    ensures ThreadShape(s.threads[s.current.value], |s.processes|)
    ensures Enter(s, f) == s.(threads := s.threads[s.current.value := Entered(s.threads[s.current.value], f)])
  {
    var active := s.current.value;
    assert ThreadShape(s.threads[active], |s.processes|);
    hide Rpc, Handles;
    var s1 := ResumeKeeps(s, active, Entered(s.threads[active], f));
    hide Shape;
  }

  lemma TrapAround(s: KernelState, f: Frame)
    requires Inv(s) && Runnable(s) && FrameShape(f)
    ensures Around(s, Enter(s, f), Served(s, f), HandleTrap(s, f), f)
  {
    EnterKeeps(s, f);
    TrapIs(s, f);
    hide Inv, Rpc, Shape, Serve, HandleTrap, LoadFrame, Entered, Served, Enter;
  }

  lemma TrapEffect(s: KernelState, f: Frame) returns (started: Option<nat>, server: nat, ended: Option<nat>)
    requires Inv(s) && Runnable(s) && FrameShape(f) && s.nextHandle < U64_MAX
    ensures TrapEffected(s, f, HandleTrap(s, f), started, server, ended)
  {
    EnterKeeps(s, f);
    TrapAround(s, f);
    var active := s.current.value;
    var s1, r := Enter(s, f), HandleTrap(s, f);
    hide Inv, Rpc, Shape, HandleTrap, PendingByServer, Enter, Runnable, CallsKept, Serve, Around;
    started, server, ended := ServeEffect(s1, active, CallOf(f));
    var after := Served(s, f);
    hide Served;
    AroundKept(s, s1, after, r, f, started, ended);
    if started.Some? {
      StartedTrap(s, s1, after, r, f, started.value, server);
    }
    if ended.Some? {
      EndedTrap(s, s1, after, r, f, ended.value);
    }
    hide TrapStarted, TrapEnded;
  }

  /** How the trap's result r follows from the entered state s1 and the outcome of the call. */
  ghost predicate Around(s: KernelState, s1: KernelState, after: Outcome, r: TrapResult, f: Frame) {
    && s.current.Some? && s.current.value < |s.threads| && |s.threads[s.current.value].registers| == REGISTER_COUNT
    && s1 == s.(threads := s.threads[s.current.value := Entered(s.threads[s.current.value], f)])
    && r.status == after.status
    && (r.state == after.state
        || (&& Runnable(after.state) && s.current == after.state.current
            && r.state == after.state.(threads :=
                 after.state.threads[s.current.value :=
                   PrepareSyscallResume(after.state.threads[s.current.value], after.status)])))
  }

  lemma AroundKept(s: KernelState, s1: KernelState, after: Outcome, r: TrapResult, f: Frame,
                   started: Option<nat>, ended: Option<nat>)
    requires Around(s, s1, after, r, f) && Rpc(s) && Is(s, s.current.value, Running)
    requires |after.state.threads| == |s.threads| && CallsKept(s1, after.state, started, ended)
    ensures CallsKept(s, r.state, started, ended)
  {
    hide Rpc, CallsKept, Entered;
    KeptAround(s, s1, after.state, r.state, s.current.value, started, ended);
  }

  lemma StartedTrap(s: KernelState, s1: KernelState, after: Outcome, r: TrapResult, f: Frame, k: nat, server: nat)
    requires Around(s, s1, after, r, f) && f.rax == SYSCALL_RPC_CALL && Shape(s1)
    requires AcceptedCall(s1, after, s.current.value, CallOf(f), k, server)
    ensures TrapStarted(s, f, r, k, server)
  {
    hide Shape, PrepareServer, Entered, Runnable;
    assert Pends(s1, k) == Pends(s, k);
  }

  lemma EndedTrap(s: KernelState, s1: KernelState, after: Outcome, r: TrapResult, f: Frame, k: nat)
    requires Around(s, s1, after, r, f)
    requires EndedCall(s1, after, s.current.value, CallOf(f), k)
    ensures TrapEnded(s, f, r, k)
  {
    hide Entered, PendingByServer, Restored, Awake, PrepareSyscallResume;
    assert Pends(s1, k) == Pends(s, k);
    assert forall t :: CrossClient(s1, k, t) == CrossClient(s, k, t);
    hide CrossClient, Pends;
    assert Woken(s.channels[k].value).Some? ==> r.state == after.state;
  }
}
