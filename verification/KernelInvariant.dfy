/**
 What every reachable kernel state satisfies: who may be RUNNING or BLOCKED, which endpoints are busy, and which
 handles are live. The invariant is inductive over traps.
 */
module KernelInvariant {
  import opened Words
  import opened Status
  import opened Search
  import opened AddressSpaces
  import opened UserCopy
  import opened KernelModel

  // ----- Vocabulary -----

  ghost predicate Live(s: KernelState, k: int) {
    0 <= k < |s.channels| && s.channels[k].Some?
  }

  /** Thread `client` waits in channel k for another thread's reply. */
  ghost predicate CrossClient(s: KernelState, k: int, client: nat) {
    && Live(s, k)
    && s.channels[k].value.pendingClient == Some(client)
    && s.channels[k].value.pendingServer != Some(client)
  }

  ghost predicate IsServer(s: KernelState, k: int, server: nat) {
    Live(s, k) && s.channels[k].value.pendingServer == Some(server)
  }

  /** Channel k is pending on endpoint e with the endpoint's owner as server. */
  ghost predicate PendingAt(s: KernelState, k: int, e: nat) {
    && Live(s, k) && e < |s.endpoints|
    && s.channels[k].value.endpoint == e
    && s.channels[k].value.pendingServer.Some?
    && s.channels[k].value.pendingServer == s.endpoints[e].ownerThread
  }

  ghost predicate Is(s: KernelState, t: int, state: ThreadState) {
    0 <= t < |s.threads| && s.threads[t].state == state
  }

  // ----- The invariant, clause by clause -----

  /** Every slot holds a thread; at most one is RUNNING, and it is the current one. */
  ghost predicate OneRunning(s: KernelState) {
    && (forall t :: !Is(s, t, Empty))
    && forall t :: Is(s, t, Running) ==> s.current == Some(t)
  }

  /** A channel has both ends of a pending call or neither; a waiting client is BLOCKED. */
  ghost predicate PendingEnds(s: KernelState) {
    forall k :: Live(s, k) ==>
                  var c := s.channels[k].value;
                  && (c.pendingClient.Some? <==> c.pendingServer.Some?)
                  && (c.pendingClient.Some? ==> if c.pendingClient == c.pendingServer then c.savedState == Running
                                                else Is(s, c.pendingClient.value, Blocked))
  }

  ghost predicate SavedReady(s: KernelState) {
    forall k, t :: CrossClient(s, k, t) ==> s.channels[k].value.savedState == Ready
  }

  ghost predicate OneReply(s: KernelState) {
    forall j, k, t :: CrossClient(s, j, t) && CrossClient(s, k, t) ==> j == k
  }

  ghost predicate BlockedWaits(s: KernelState) {
    forall t: nat :: Is(s, t, Blocked) ==> exists k :: CrossClient(s, k, t)
  }

  ghost predicate EndpointOwners(s: KernelState) {
    forall e :: 0 <= e < |s.endpoints| ==>
                  var ep := s.endpoints[e];
                  if ep.inUse then
                    && ep.ownerThread.Some? && ep.ownerThread.value < |s.threads|
                    && s.threads[ep.ownerThread.value].state != Exited
                    && ep.ownerProcess == Some(s.threads[ep.ownerThread.value].process)
                  else !ep.busy && ep.ownerThread.None?
  }

  ghost predicate DistinctNames(s: KernelState) {
    forall d, e :: 0 <= d < e < |s.endpoints| && s.endpoints[d].inUse && s.endpoints[e].inUse ==>
                     s.endpoints[d].name != s.endpoints[e].name
  }

  /** A call whose server is alive is pending on an in-use, busy endpoint of that server, alone there. */
  ghost predicate PendingIsBusy(s: KernelState) {
    forall k, t: nat :: IsServer(s, k, t) && !Is(s, t, Exited) ==>
                     var e := s.channels[k].value.endpoint;
                     e < |s.endpoints| && s.endpoints[e].inUse && s.endpoints[e].busy && PendingAt(s, k, e)
  }

  ghost predicate BusyIsPending(s: KernelState) {
    forall e :: 0 <= e < |s.endpoints| && s.endpoints[e].busy ==> exists k :: PendingAt(s, k, e)
  }

  ghost predicate OneCallPerEndpoint(s: KernelState) {
    forall e, j, k :: PendingAt(s, j, e) && PendingAt(s, k, e) ==> j == k
  }

  /** Channel handles are non-zero, issued, pairwise distinct and name nothing else. */
  ghost predicate Handles(s: KernelState) {
    && s.nextHandle > 0
    && (forall k :: Live(s, k) ==> 0 < s.channels[k].value.handle < s.nextHandle)
    && (forall j, k :: Live(s, j) && Live(s, k) && s.channels[j].value.handle == s.channels[k].value.handle ==> j == k)
    && (forall k :: Live(s, k) ==> !ObjectExists(s, s.channels[k].value.handle))
    && (forall h: u64 :: ObjectExists(s, h) ==> 0 < h < s.nextHandle)
  }

  ghost predicate Rpc(s: KernelState) {
    && OneRunning(s) && PendingEnds(s) && OneReply(s) && BlockedWaits(s)
    && EndpointOwners(s) && DistinctNames(s) && PendingIsBusy(s) && BusyIsPending(s) && OneCallPerEndpoint(s)
  }

  ghost predicate Inv(s: KernelState) {
    && Shape(s) && Rpc(s) && Handles(s)
    && (Runnable(s) ==> Is(s, s.current.value, Running) && SavedReady(s))
  }

  // ----- Changes the invariant does not see -----

  /** Endpoints, channels and processes agree, and no thread enters or leaves BLOCKED or EXITED. */
  ghost predicate SameCalls(s: KernelState, s': KernelState) {
    && |s'.threads| == |s.threads| && s'.endpoints == s.endpoints && s'.channels == s.channels
    && forall t :: 0 <= t < |s.threads| ==>
                     && (s'.threads[t].state == Blocked <==> s.threads[t].state == Blocked)
                     && (s'.threads[t].state == Exited <==> s.threads[t].state == Exited)
                     && s'.threads[t].process == s.threads[t].process
  }

  lemma SameCallsKeepsRpc(s: KernelState, s': KernelState)
    requires SameCalls(s, s') && Rpc(s) && OneRunning(s')
    ensures Rpc(s')
    ensures SavedReady(s) ==> SavedReady(s')
  {
    assert forall t :: Is(s', t, Blocked) == Is(s, t, Blocked) && Is(s', t, Exited) == Is(s, t, Exited);
    assert forall k, t :: CrossClient(s', k, t) == CrossClient(s, k, t);
    assert forall k, e :: PendingAt(s', k, e) == PendingAt(s, k, e);
    assert forall k, t :: IsServer(s', k, t) == IsServer(s, k, t);
  }

  /** Threads keep their handles, channels are the same or fewer, and no handle is issued. */
  ghost predicate NoNewHandles(s: KernelState, s': KernelState) {
    && SameTables(s, s')
    && (forall t :: 0 <= t < |s.threads| ==> s'.threads[t].handle == s.threads[t].handle)
    && forall k :: Live(s', k) ==> Live(s, k) && s'.channels[k].value.handle == s.channels[k].value.handle
  }

  lemma ObjectsUnchanged(s: KernelState, s': KernelState)
    requires s'.processes == s.processes && s'.otherHandles == s.otherHandles && |s'.threads| == |s.threads|
    requires forall t :: 0 <= t < |s.threads| ==> s'.threads[t].handle == s.threads[t].handle
    ensures forall h :: ObjectExists(s', h) <==> ObjectExists(s, h)
  {
  }

  lemma NoNewHandlesKeeps(s: KernelState, s': KernelState)
    requires NoNewHandles(s, s') && Handles(s)
    ensures Handles(s')
  {
    ObjectsUnchanged(s, s');
    hide ObjectExists;
  }

  // ----- Scheduling -----

  lemma SetCurrentKeeps(s: KernelState, next: Option<nat>)
    requires Shape(s) && Rpc(s) && SlotInRange(next, |s.threads|)
    ensures var s' := SetCurrent(s, next);
            && Rpc(s') && (SavedReady(s) ==> SavedReady(s')) && s'.current == next
            && (next.Some? && s.threads[next.value].state in {Ready, Running} ==> Is(s', next.value, Running))
            && NoNewHandles(s, s')
  {
    hide Shape;
    var s' := SetCurrent(s, next);
    forall t ensures !Is(s', t, Empty) && (Is(s', t, Running) ==> s'.current == Some(t)) {
      assert !Is(s, t, Empty) && (Is(s, t, Running) ==> s.current == Some(t));
    }
    SameCallsKeepsRpc(s, s');
  }

  // ----- Ending a call -----

  /** The pending call of channel k is over and its client, if another thread, is READY again. */
  lemma ResolveKeeps(s: KernelState, k: nat, client: nat, status: i32)
    requires Shape(s) && Rpc(s) && CrossClient(s, k, client)
    requires s.channels[k].value.pendingServer.Some? && !Is(s, s.channels[k].value.pendingServer.value, Exited)
    ensures client < |s.threads|
    ensures var s' := WakeClient(CancelCall(s, k), client, status);
            && Rpc(s') && (SavedReady(s) ==> SavedReady(s')) && s'.current == s.current
            && NoNewHandles(s, s')
  {
    hide Shape;
    var s1 := CancelCall(s, k);
    var s' := WakeClient(s1, client, status);
    var e0 := s.channels[k].value.endpoint;
    assert IsServer(s, k, s.channels[k].value.pendingServer.value);
    assert PendingAt(s, k, e0);
    assert forall t, st :: t != client ==> Is(s', t, st) == Is(s, t, st);
    assert forall j, t :: CrossClient(s', j, t) <==> j != k && CrossClient(s, j, t);
    assert forall j, e :: PendingAt(s', j, e) <==> j != k && PendingAt(s, j, e);
    assert forall j, t :: IsServer(s', j, t) <==> j != k && IsServer(s, j, t);
    forall t: nat | Is(s', t, Blocked) ensures exists j :: CrossClient(s', j, t) {
      var j :| CrossClient(s, j, t);
      assert CrossClient(s', j, t);
    }
    forall e | 0 <= e < |s'.endpoints| && s'.endpoints[e].busy ensures exists j :: PendingAt(s', j, e) {
      var j :| PendingAt(s, j, e);
      assert PendingAt(s', j, e);
    }
    forall j | Live(s', j) && j != k && s'.channels[j].value.pendingClient.Some?
              && s'.channels[j].value.pendingClient != s'.channels[j].value.pendingServer
      ensures Is(s', s'.channels[j].value.pendingClient.value, Blocked)
    {
      assert CrossClient(s, j, s.channels[j].value.pendingClient.value);
    }
  }

  /** The pending self-call of channel k is over. */
  lemma SelfResolveKeeps(s: KernelState, k: nat)
    requires Shape(s) && Rpc(s) && Live(s, k)
    requires s.channels[k].value.pendingServer.Some?
    requires s.channels[k].value.pendingClient == s.channels[k].value.pendingServer
    requires !Is(s, s.channels[k].value.pendingServer.value, Exited)
    ensures var s' := CancelCall(s, k);
            && Rpc(s') && (SavedReady(s) ==> SavedReady(s')) && s'.current == s.current
            && NoNewHandles(s, s')
  {
    hide Shape;
    var s' := CancelCall(s, k);
    var e0 := s.channels[k].value.endpoint;
    assert IsServer(s, k, s.channels[k].value.pendingServer.value);
    assert PendingAt(s, k, e0);
    assert forall t, st :: Is(s', t, st) == Is(s, t, st);
    assert forall j, t :: CrossClient(s', j, t) <==> CrossClient(s, j, t);
    assert forall j, e :: PendingAt(s', j, e) <==> j != k && PendingAt(s, j, e);
    assert forall j, t :: IsServer(s', j, t) <==> j != k && IsServer(s, j, t);
    forall t: nat | Is(s', t, Blocked) ensures exists j :: CrossClient(s', j, t) {
      var j :| CrossClient(s, j, t);
      assert CrossClient(s', j, t);
    }
    forall e | 0 <= e < |s'.endpoints| && s'.endpoints[e].busy ensures exists j :: PendingAt(s', j, e) {
      var j :| PendingAt(s, j, e);
      assert PendingAt(s', j, e);
    }
  }

  /** What a trap starts from: the invariant, with a RUNNING current thread. */
  ghost predicate Executing(s: KernelState, active: nat) {
    Inv(s) && s.current == Some(active) && Is(s, active, Running)
  }

  lemma PendingByServerFinds(s: KernelState, server: nat)
    ensures match PendingByServer(s, server)
            case Some(k) => IsServer(s, k, server) && forall j :: 0 <= j < k ==> !IsServer(s, j, server)
            case None => forall j :: !IsServer(s, j, server)
  {
  }

  lemma FinishKeeps(s: KernelState, k: nat, server: nat)
    requires Executing(s, server) && IsServer(s, k, server)
    ensures var c := s.channels[k].value;
            var s1 := PutThread(s, server, Restored(s.threads[server], c));
            && Rpc(s1) && SavedReady(s1) && NoNewHandles(s, s1)
            && s1.channels == s.channels && s1.current == s.current
            && (c.pendingClient == Some(server) ==> Is(s1, server, Running))
            && (c.pendingClient != Some(server) ==> c.pendingClient.Some? && CrossClient(s1, k, c.pendingClient.value))
            && !Is(s1, server, Exited)
  {
    var c := s.channels[k].value;
    var s1 := PutThread(s, server, Restored(s.threads[server], c));
    hide Shape, Handles;
    if c.pendingClient != Some(server) {
      assert CrossClient(s, k, c.pendingClient.value);
    }
    forall t ensures !Is(s1, t, Empty) && (Is(s1, t, Running) ==> s1.current == Some(t)) {
      assert !Is(s, t, Empty) && (Is(s, t, Running) ==> s.current == Some(t));
    }
    SameCallsKeepsRpc(s, s1);
  }

  lemma CompleteKeeps(s: KernelState, server: nat, status: i32)
    requires Executing(s, server)
    ensures Inv(CompleteCall(s, server, status).state)
  {
    hide Rpc, Handles;
    PendingByServerFinds(s, server);
    match PendingByServer(s, server)
    case None =>
    case Some(k) =>
      FinishKeeps(s, k, server);
      var c := s.channels[k].value;
      var s1 := PutThread(s, server, Restored(s.threads[server], c));
      hide Shape;
      NoNewHandlesKeeps(s, s1);
      if c.pendingClient == Some(server) {
        SelfResolveKeeps(s1, k);
        NoNewHandlesKeeps(s1, CancelCall(s1, k));
      } else {
        var client := c.pendingClient.value;
        ResolveKeeps(s1, k, client, status);
        var s2 := WakeClient(CancelCall(s1, k), client, status);
        NoNewHandlesKeeps(s1, s2);
        SetCurrentKeeps(s2, Some(client));
        NoNewHandlesKeeps(s2, SetCurrent(s2, Some(client)));
      }
  }

  // ----- Thread exit -----

  lemma FailKeeps(s: KernelState, active: nat, status: i32)
    requires Executing(s, active)
    ensures var s1 := FailPendingCall(s, active, status);
            && Rpc(s1) && SavedReady(s1) && Handles(s1) && s1.current == s.current && Is(s1, active, Running)
  {
    hide Rpc, Handles, Shape;
    PendingByServerFinds(s, active);
    match PendingByServer(s, active)
    case None =>
    case Some(k) =>
      var c := s.channels[k].value;
      PendingIn(s, k);
      if c.pendingClient == Some(active) {
        SelfResolveKeeps(s, k);
        NoNewHandlesKeeps(s, CancelCall(s, k));
      } else {
        var client := c.pendingClient.value;
        ResolveKeeps(s, k, client, status);
        NoNewHandlesKeeps(s, WakeClient(CancelCall(s, k), client, status));
      }
  }

  lemma PendingIn(s: KernelState, k: nat)
    requires Rpc(s) && Live(s, k) && s.channels[k].value.pendingServer.Some?
    ensures var c := s.channels[k].value;
            && c.pendingClient.Some?
            && (c.pendingClient != c.pendingServer ==> CrossClient(s, k, c.pendingClient.value))
  {
  }

  /** A RUNNING thread leaves: its endpoints are cleared and it is EXITED. Calls still pending on it keep their
      clients BLOCKED and no longer make any endpoint busy. */
  lemma LeaveKeeps(s: KernelState, active: nat, exitStatus: u64)
    requires Shape(s) && Rpc(s) && s.current == Some(active) && Is(s, active, Running)
    ensures var s' := PutThread(s.(endpoints := ClearedEndpoints(s.endpoints, active)), active,
                                s.threads[active].(state := Exited, exitStatus := exitStatus));
            && Rpc(s') && (SavedReady(s) ==> SavedReady(s')) && NoNewHandles(s, s') && s'.current == s.current
  {
    var s' := PutThread(s.(endpoints := ClearedEndpoints(s.endpoints, active)), active,
                        s.threads[active].(state := Exited, exitStatus := exitStatus));
    hide Shape;
    assert forall t, st :: t != active ==> Is(s', t, st) == Is(s, t, st);
    assert forall k, t :: CrossClient(s', k, t) == CrossClient(s, k, t);
    assert forall k, t :: IsServer(s', k, t) == IsServer(s, k, t);
    forall k, e: nat ensures PendingAt(s', k, e) <==> PendingAt(s, k, e) && s.endpoints[e].ownerThread != Some(active) {
    }
    forall t: nat | Is(s', t, Blocked) ensures exists k :: CrossClient(s', k, t) {
      var k :| CrossClient(s, k, t);
      assert CrossClient(s', k, t);
    }
    forall e | 0 <= e < |s'.endpoints| && s'.endpoints[e].busy ensures exists k :: PendingAt(s', k, e) {
      var k :| PendingAt(s, k, e);
      assert PendingAt(s', k, e);
    }
  }

  lemma TerminateKeeps(s: KernelState, active: nat, exitStatus: u64, status: i32)
    requires Executing(s, active)
    ensures Inv(TerminateCurrent(s, exitStatus, status))
  {
    hide Rpc, Handles;
    FailKeeps(s, active, status);
    var s1 := FailPendingCall(s, active, status);
    LeaveKeeps(s1, active, exitStatus);
    var s2 := PutThread(s1.(endpoints := ClearedEndpoints(s1.endpoints, active)), active,
                        s1.threads[active].(state := Exited, exitStatus := exitStatus));
    hide Shape;
    NoNewHandlesKeeps(s1, s2);
    var next := NextReady(s2.threads, s2.current);
    if next.Some? {
      SetCurrentKeeps(s2, next);
      NoNewHandlesKeeps(s2, SetCurrent(s2, next));
    } else {
      StopKeeps(s2, active);
      NoNewHandlesKeeps(s2, s2.(current := None));
    }
  }

  lemma StopKeeps(s: KernelState, active: nat)
    requires Rpc(s) && Shape(s) && s.current == Some(active) && Is(s, active, Exited)
    ensures Rpc(s.(current := None)) && Shape(s.(current := None))
  {
    var s' := s.(current := None);
    forall t ensures !Is(s', t, Empty) && !Is(s', t, Running) {
      assert !Is(s, t, Empty) && (Is(s, t, Running) ==> s.current == Some(t));
    }
    SameCallsKeepsRpc(s, s');
  }

  // ----- Registering, opening and closing -----

  lemma InitializeKeeps(s: KernelState, e: nat, active: nat, endpoint: EndpointRecord)
    requires Executing(s, active) && e < |s.endpoints| && !s.endpoints[e].inUse
    requires EndpointByName(s, endpoint.name).None?
    requires endpoint.inUse && !endpoint.busy && endpoint.ownerThread == Some(active)
    requires endpoint.ownerProcess == Some(s.threads[active].process)
    ensures EndpointShape(endpoint, |s.processes|, |s.threads|)
    ensures Executing(PutEndpoint(s, e, endpoint), active)
  {
    assert ThreadShape(s.threads[active], |s.processes|);
    var s' := PutEndpoint(s, e, endpoint);
    hide Shape;
    assert forall d :: 0 <= d < |s.endpoints| ==> !HasName(s.endpoints[d], endpoint.name);
    assert forall t, st :: Is(s', t, st) == Is(s, t, st);
    assert forall k, t :: CrossClient(s', k, t) == CrossClient(s, k, t);
    assert forall k, t :: IsServer(s', k, t) == IsServer(s, k, t);
    forall k, d ensures PendingAt(s', k, d) <==> PendingAt(s, k, d) {
      if PendingAt(s', k, d) && d == e {
        assert IsServer(s, k, active);
      }
    }
    forall t: nat | Is(s', t, Blocked) ensures exists k :: CrossClient(s', k, t) {
      var k :| CrossClient(s, k, t);
      assert CrossClient(s', k, t);
    }
    forall d | 0 <= d < |s'.endpoints| && s'.endpoints[d].busy ensures exists k :: PendingAt(s', k, d) {
      var k :| PendingAt(s, k, d);
      assert PendingAt(s', k, d);
    }
    NoNewHandlesKeeps(s, s');
  }

  lemma InstallKeeps(s: KernelState, e: nat, active: nat, name: seq<u8>, callback: u64, completion: u64)
    requires Executing(s, active) && e < |s.endpoints| && !s.endpoints[e].inUse && EndpointByName(s, name).None?
    ensures Inv(Install(s, e, active, name, callback, completion).state)
  {
    hide Rpc, Handles, EndpointByName;
    assert ThreadShape(s.threads[active], |s.processes|);
    hide Shape, NextReady, PendingByServer, SetCurrent;
    var endpoint := EndpointRecord(true, false, name, Some(s.threads[active].process), Some(active), callback, completion);
    InitializeKeeps(s, e, active, endpoint);
    var s1 := PutEndpoint(s, e, endpoint);
    var next := NextReady(s1.threads, Some(active));
    if next.Some? && PendingByServer(s1, active).None? {
      var s2 := ResumeKeeps(s1, active, PrepareSyscallResume(s1.threads[active], STATUS_OK));
      SetCurrentKeeps(s2, next);
      NoNewHandlesKeeps(s2, SetCurrent(s2, next));
    }
  }

  lemma RegisterKeeps(s: KernelState, active: nat, call: SyscallContext)
    requires Executing(s, active)
    ensures Inv(Register(s, active, call).state)
  {
    hide Rpc, Handles, UserString, Backed, FirstIn, EndpointByName, Install;
    assert ThreadShape(s.threads[active], |s.processes|);
    hide Shape;
    var owner := s.threads[active].process;
    var mappings := s.processes[owner].mappings;
    if call.argument0 != 0 && call.argument1 != 0 && call.argument2 != 0
       && Backed(mappings, call.argument1) && Backed(mappings, call.argument2) {
      var name := UserString(s.memory, mappings, call.argument0, NAME_BUFFER_SIZE);
      if name.status == STATUS_OK && EndpointByName(s, name.bytes).None? && FreeEndpoint(s).Some? {
        InstallKeeps(s, FreeEndpoint(s).value, active, name.bytes, call.argument1, call.argument2);
      }
    }
  }

  /** A thread record changes, but not its state, handle or process. */
  lemma ResumeKeeps(s: KernelState, i: nat, t: ThreadRecord) returns (s': KernelState)
    requires Inv(s) && i < |s.threads| && ThreadShape(t, |s.processes|)
    requires t.state == s.threads[i].state && t.handle == s.threads[i].handle && t.process == s.threads[i].process
    ensures s' == PutThread(s, i, t) && Inv(s') && (Runnable(s') <==> Runnable(s)) && s'.current == s.current
    ensures forall u, st :: Is(s', u, st) == Is(s, u, st)
    ensures SavedReady(s) ==> SavedReady(s')
  {
    s' := PutThread(s, i, t);
    hide Shape, Handles;
    forall u ensures !Is(s', u, Empty) && (Is(s', u, Running) ==> s'.current == Some(u)) {
      assert !Is(s, u, Empty) && (Is(s, u, Running) ==> s.current == Some(u));
    }
    SameCallsKeepsRpc(s, s');
    NoNewHandlesKeeps(s, s');
  }

  /** Memory is invisible to the invariant. */
  lemma MemoryKeeps(s: KernelState, memory: seq<u8>)
    requires Inv(s) && |memory| == |s.memory|
    ensures var s' := PutMemory(s, memory);
            && Inv(s') && (Runnable(s') <==> Runnable(s)) && s'.current == s.current
            && (forall u, st :: Is(s', u, st) == Is(s, u, st))
  {
    var s' := PutMemory(s, memory);
    hide Shape, Handles;
    forall u ensures !Is(s', u, Empty) && (Is(s', u, Running) ==> s'.current == Some(u)) {
      assert !Is(s, u, Empty) && (Is(s, u, Running) ==> s.current == Some(u));
    }
    SameCallsKeepsRpc(s, s');
    NoNewHandlesKeeps(s, s');
  }

  /** An idle channel slot may come and go: it takes part in no call. */
  lemma IdleSlotKeepsRpc(s: KernelState, s': KernelState, k: nat)
    requires Rpc(s) && k < |s.channels| && |s'.channels| == |s.channels|
    requires s'.threads == s.threads && s'.endpoints == s.endpoints && s'.current == s.current
    requires s'.channels == s.channels[k := s'.channels[k]]
    requires s.channels[k].Some? ==> !ChannelBusy(s.channels[k].value)
    requires s'.channels[k].Some? ==> !ChannelBusy(s'.channels[k].value)
    ensures Rpc(s') && (SavedReady(s) ==> SavedReady(s'))
  {
    assert forall t, st :: Is(s', t, st) == Is(s, t, st);
    assert forall j, t :: CrossClient(s', j, t) == CrossClient(s, j, t);
    assert forall j, e :: PendingAt(s', j, e) == PendingAt(s, j, e);
    assert forall j, t :: IsServer(s', j, t) == IsServer(s, j, t);
    forall j | Live(s', j) && j != k ensures Live(s, j) {
    }
  }

  lemma EraseKeeps(s: KernelState, active: nat, k: nat)
    requires Executing(s, active) && Live(s, k) && !ChannelBusy(s.channels[k].value)
    ensures EraseChannel(s, s.channels[k].value.handle) == PutChannel(s, k, None)
    ensures Executing(PutChannel(s, k, None), active)
  {
    var s' := PutChannel(s, k, None);
    assert EraseChannel(s, s.channels[k].value.handle) == s' by {
      var found := ChannelByHandle(s, s.channels[k].value.handle);
      assert HasHandle(s.channels[k], s.channels[k].value.handle);
      assert Live(s, k) && Live(s, found.value);
    }
    hide Shape;
    IdleSlotKeepsRpc(s, s', k);
    NoNewHandlesKeeps(s, s');
  }

  lemma NewChannelKeeps(s: KernelState, active: nat, k: nat, owner: nat, e: nat)
    requires Executing(s, active) && s.nextHandle < U64_MAX
    requires k < |s.channels| && s.channels[k].None? && owner < |s.processes| && e < |s.endpoints|
    ensures Executing(PutChannel(s.(nextHandle := s.nextHandle + 1), k, Some(NewChannel(s.nextHandle, owner, e))), active)
  {
    var s' := PutChannel(s.(nextHandle := s.nextHandle + 1), k, Some(NewChannel(s.nextHandle, owner, e)));
    hide Shape;
    IdleSlotKeepsRpc(s, s', k);
    ObjectsUnchanged(s, s');
    hide ObjectExists;
    assert forall j :: Live(s', j) <==> j == k || Live(s, j);
    assert forall j :: Live(s, j) ==> j != k && s'.channels[j] == s.channels[j];
  }

  /** Below the end of the counter, issuing is: fill the slot, write the handle, and maybe empty the slot again. */
  lemma IssueCases(s: KernelState, k: nat, owner: nat, e: nat, target: u64) returns (memory: seq<u8>)
    requires Shape(s) && s.nextHandle < U64_MAX
    requires k < |s.channels| && owner < |s.processes| && e < |s.endpoints|
    ensures var s1 := PutChannel(s.(nextHandle := s.nextHandle + 1), k, Some(NewChannel(s.nextHandle, owner, e)));
            var r := Issue(s, k, owner, e, target);
            |memory| == |s.memory|
            && r.state == if r.status == STATUS_OK then PutMemory(s1, memory)
                          else EraseChannel(PutMemory(s1, memory), s.nextHandle)
  {
    assert Wrap64(s.nextHandle + 1) == s.nextHandle + 1;
    hide Shape, WriteUser, LittleEndian, EraseChannel, NewChannel, Wrap64;
    var s1 := PutChannel(s.(nextHandle := s.nextHandle + 1), k, Some(NewChannel(s.nextHandle, owner, e)));
    memory := WriteUser(s1.memory, s.processes[owner].mappings, target, LittleEndian(s.nextHandle, 8)).memory;
  }

  lemma IssuedKeeps(s: KernelState, active: nat, k: nat, owner: nat, e: nat, memory: seq<u8>) returns (s2: KernelState)
    requires Executing(s, active) && s.nextHandle < U64_MAX && |memory| == |s.memory|
    requires k < |s.channels| && s.channels[k].None? && owner < |s.processes| && e < |s.endpoints|
    ensures s2 == PutMemory(PutChannel(s.(nextHandle := s.nextHandle + 1), k, Some(NewChannel(s.nextHandle, owner, e))),
                            memory)
    ensures Executing(s2, active) && s2.threads == s.threads
    ensures s2.channels == s.channels[k := Some(NewChannel(s.nextHandle, owner, e))]
    ensures EraseChannel(s2, s.nextHandle) == PutChannel(s2, k, None) && Executing(PutChannel(s2, k, None), active)
  {
    NewChannelKeeps(s, active, k, owner, e);
    var s1 := PutChannel(s.(nextHandle := s.nextHandle + 1), k, Some(NewChannel(s.nextHandle, owner, e)));
    hide Rpc, Handles, EraseChannel, Shape;
    MemoryKeeps(s1, memory);
    s2 := PutMemory(s1, memory);
    assert s2.channels[k] == Some(NewChannel(s.nextHandle, owner, e));
    EraseKeeps(s2, active, k);
  }

  lemma IssueKeeps(s: KernelState, active: nat, k: nat, owner: nat, e: nat, target: u64)
    requires Executing(s, active) && s.nextHandle < U64_MAX
    requires k < |s.channels| && s.channels[k].None? && owner < |s.processes| && e < |s.endpoints|
    ensures var r := Issue(s, k, owner, e, target);
            && Executing(r.state, active) && r.state.threads == s.threads
            && r.state.channels == s.channels[k := if r.status == STATUS_OK then Some(NewChannel(s.nextHandle, owner, e))
                                                   else None]
  {
    var memory := IssueCases(s, k, owner, e, target);
    hide Rpc, Handles, EraseChannel, Shape, Issue, NewChannel;
    var s2 := IssuedKeeps(s, active, k, owner, e, memory);
  }

  lemma OpenKeeps(s: KernelState, active: nat, call: SyscallContext)
    requires Executing(s, active) && s.nextHandle < U64_MAX
    ensures Inv(Open(s, active, call).state)
  {
    hide Rpc, Handles, UserString, Issue, FirstIn;
    assert ThreadShape(s.threads[active], |s.processes|);
    hide Shape;
    var owner := s.threads[active].process;
    var mappings := s.processes[owner].mappings;
    if call.argument0 != 0 && call.argument1 != 0 {
      var name := UserString(s.memory, mappings, call.argument0, NAME_BUFFER_SIZE);
      if name.status == STATUS_OK && EndpointByName(s, name.bytes).Some? {
        var e := EndpointByName(s, name.bytes).value;
        var server := s.endpoints[e].ownerThread;
        if server.Some? && s.threads[server.value].state != Exited && FreeChannel(s).Some? {
          var k := FreeChannel(s).value;
          IssueKeeps(s, active, k, owner, e, call.argument1);
        }
      }
    }
  }

  lemma CloseKeeps(s: KernelState, active: nat, call: SyscallContext)
    requires Executing(s, active)
    ensures Inv(Close(s, active, call).state)
  {
    hide Rpc, Handles, Shape;
    if call.argument0 != 0 {
      match LookupChannel(s, s.threads[active].process, call.argument0)
      case Refused(_) =>
      case Found(k) =>
        if !ChannelBusy(s.channels[k].value) {
          EraseKeeps(s, active, k);
        }
    }
  }

  // ----- Calling -----

  /** Preparing the server touches memory and the server's resume record only. */
  lemma PrepareKeeps(s: KernelState, active: nat, e: nat, server: nat, client: nat, request: u64, size: u64)
    requires Executing(s, active) && e < |s.endpoints| && server < |s.threads| && client < |s.processes|
    ensures var s' := PrepareServer(s, e, server, client, request, size).state;
            && Executing(s', active) && s'.endpoints == s.endpoints && s'.channels == s.channels
            && forall t, st :: Is(s', t, st) == Is(s, t, st)
  {
    hide Rpc, Handles, LittleEndian, Backed, InMemory, WriteUser, CopyUser;
    var outcome := PrepareServer(s, e, server, client, request, size);
    var s1 := PutMemory(s, outcome.state.memory);
    MemoryKeeps(s, outcome.state.memory);
    if outcome.status == STATUS_OK {
      var t := outcome.state.threads[server];
      assert outcome.state == PutThread(s1, server, t);
      var s2 := ResumeKeeps(s1, server, t);
    }
  }

  lemma IdleEndpoint(s: KernelState, e: nat, server: nat)
    requires PendingIsBusy(s) && e < |s.endpoints| && !s.endpoints[e].busy
    requires s.endpoints[e].ownerThread == Some(server) && !Is(s, server, Exited)
    ensures forall j :: !PendingAt(s, j, e)
  {
    forall j ensures !PendingAt(s, j, e) {
      var pending := PendingAt(s, j, e);
      assert pending ==> IsServer(s, j, server);
    }
  }

  /** From s to s2, channel k became a call from `client` to `server` on endpoint e, and nothing else about calls
      changed. */
  ghost predicate Begun(s: KernelState, s2: KernelState, k: nat, client: nat, server: nat, e: nat) {
    && |s2.endpoints| == |s.endpoints| && e < |s.endpoints|
    && s2.endpoints == s.endpoints[e := s.endpoints[e].(busy := true)]
    && (forall j, t: nat :: CrossClient(s2, j, t) <==> (j == k && t == client && client != server) || CrossClient(s, j, t))
    && (forall j, t: nat :: IsServer(s2, j, t) <==> (j == k && t == server) || IsServer(s, j, t))
    && (forall j, d: nat :: PendingAt(s2, j, d) <==> (j == k && d == e) || PendingAt(s, j, d))
    && (forall j :: Live(s2, j) <==> Live(s, j))
    && (forall j :: Live(s, j) && j != k ==> s2.channels[j] == s.channels[j])
    && Live(s, k) && s2.channels[k].value.endpoint == e == s.channels[k].value.endpoint
  }

  lemma BeginIsBegun(s: KernelState, k: nat, client: nat, server: nat)
    requires Shape(s) && Live(s, k) && !ChannelBusy(s.channels[k].value)
    requires client < |s.threads| && server < |s.threads|
    requires s.endpoints[s.channels[k].value.endpoint].ownerThread == Some(server)
    ensures Begun(s, BeginCall(s, k, client, server), k, client, server, s.channels[k].value.endpoint)
  {
    var s1 := BeginCall(s, k, client, server);
    hide Shape;
  }

  lemma BegunKeepsEndpoints(s: KernelState, s2: KernelState, k: nat, client: nat, server: nat, e: nat)
    requires Rpc(s) && Begun(s, s2, k, client, server, e)
    requires s.endpoints[e].inUse && !s.endpoints[e].busy && s.endpoints[e].ownerThread == Some(server)
    requires |s2.threads| == |s.threads| && !Is(s, server, Exited)
    requires forall t :: 0 <= t < |s.threads| ==>
                           && (s2.threads[t].state == Exited <==> s.threads[t].state == Exited)
                           && s2.threads[t].process == s.threads[t].process
    ensures EndpointOwners(s2) && DistinctNames(s2) && PendingIsBusy(s2) && BusyIsPending(s2) && OneCallPerEndpoint(s2)
  {
    IdleEndpoint(s, e, server);
    assert forall t :: Is(s, t, Exited) <==> Is(s2, t, Exited);
    forall d | 0 <= d < |s2.endpoints| && s2.endpoints[d].busy ensures exists j :: PendingAt(s2, j, d) {
      if d == e {
        assert PendingAt(s2, k, e);
      } else {
        var j :| PendingAt(s, j, d);
        assert PendingAt(s2, j, d);
      }
    }
  }

  /** A cross-thread call is accepted: its channel and endpoint become busy and the caller BLOCKED. */
  lemma BeginKeeps(s: KernelState, active: nat, k: nat, server: nat)
    requires Executing(s, active) && Live(s, k) && !ChannelBusy(s.channels[k].value)
    requires s.channels[k].value.endpoint < |s.endpoints|
    requires var e := s.endpoints[s.channels[k].value.endpoint];
             e.inUse && !e.busy && e.ownerThread == Some(server)
    requires server != active && server < |s.threads| && !Is(s, server, Exited)
    ensures var s1 := BeginCall(s, k, active, server);
            var s2 := PutThread(s1, active, s1.threads[active].(state := Blocked));
            && Rpc(s2) && (Is(s2, server, Ready) ==> SavedReady(s2))
            && NoNewHandles(s, s2) && (Is(s2, server, Ready) || Is(s2, server, Blocked))
  {
    var s1 := BeginCall(s, k, active, server);
    var s2 := PutThread(s1, active, s1.threads[active].(state := Blocked));
    BeginIsBegun(s, k, active, server);
    hide Shape, Handles, DistinctNames, EndpointOwners, PendingIsBusy, BusyIsPending, OneCallPerEndpoint;
    var e0 := s.channels[k].value.endpoint;
    assert forall j, t :: CrossClient(s2, j, t) == CrossClient(s1, j, t);
    assert forall j, e :: PendingAt(s2, j, e) == PendingAt(s1, j, e);
    assert forall j, t :: IsServer(s2, j, t) == IsServer(s1, j, t);
    assert Begun(s, s2, k, active, server, e0);
    assert forall t, st :: t != active ==> Is(s2, t, st) == Is(s, t, st);
    assert !Is(s, active, Blocked) && !Is(s, active, Exited);
    assert !Is(s, server, Running) && !Is(s, server, Empty);
    BegunKeepsEndpoints(s, s2, k, active, server, e0);
    forall t: nat | Is(s2, t, Blocked) ensures exists j :: CrossClient(s2, j, t) {
      if t == active {
        assert CrossClient(s2, k, active);
      } else {
        var j :| CrossClient(s, j, t);
        assert CrossClient(s2, j, t);
      }
    }
  }

  /** A self-call is accepted: the thread stays RUNNING. */
  lemma SelfCallKeeps(s: KernelState, active: nat, k: nat)
    requires Executing(s, active) && Live(s, k) && !ChannelBusy(s.channels[k].value)
    requires s.channels[k].value.endpoint < |s.endpoints|
    requires var e := s.endpoints[s.channels[k].value.endpoint];
             e.inUse && !e.busy && e.ownerThread == Some(active)
    ensures var s1 := BeginCall(s, k, active, active);
            Rpc(s1) && SavedReady(s1) && NoNewHandles(s, s1) && Is(s1, active, Running)
  {
    var s1 := BeginCall(s, k, active, active);
    BeginIsBegun(s, k, active, active);
    hide Shape, Handles, DistinctNames, EndpointOwners, PendingIsBusy, BusyIsPending, OneCallPerEndpoint;
    assert forall t, st :: Is(s1, t, st) == Is(s, t, st);
    BegunKeepsEndpoints(s, s1, k, active, active, s.channels[k].value.endpoint);
    forall t: nat | Is(s1, t, Blocked) ensures exists j :: CrossClient(s1, j, t) {
      var j :| CrossClient(s, j, t);
      assert CrossClient(s1, j, t);
    }
    assert PendingEnds(s1);
  }

  lemma AcceptKeeps(s: KernelState, active: nat, k: nat, server: nat)
    requires Executing(s, active) && Live(s, k) && !ChannelBusy(s.channels[k].value)
    requires s.channels[k].value.endpoint < |s.endpoints|
    requires var e := s.endpoints[s.channels[k].value.endpoint];
             e.inUse && !e.busy && e.ownerThread == Some(server)
    requires server < |s.threads| && !Is(s, server, Exited)
    ensures Inv(Accept(s, k, active, server))
  {
    hide Rpc, Handles;
    if server == active {
      SelfCallKeeps(s, active, k);
      NoNewHandlesKeeps(s, BeginCall(s, k, active, active));
    } else {
      BeginKeeps(s, active, k, server);
      var s1 := BeginCall(s, k, active, server);
      var s2 := PutThread(s1, active, s1.threads[active].(state := Blocked));
      hide Shape;
      NoNewHandlesKeeps(s, s2);
      SetCurrentKeeps(s2, Some(server));
      NoNewHandlesKeeps(s2, SetCurrent(s2, Some(server)));
    }
  }

  lemma CallOnKeeps(s: KernelState, active: nat, k: nat, request: u64, size: u64)
    requires Executing(s, active) && Live(s, k)
    ensures Inv(CallOn(s, active, k, request, size).state)
  {
    hide Rpc, Handles;
    var c := s.channels[k].value;
    assert ChannelShape(c, |s.processes|, |s.threads|, |s.endpoints|);
    assert EndpointShape(s.endpoints[c.endpoint], |s.processes|, |s.threads|);
    hide Shape, Accept, PrepareServer;
    var server := s.endpoints[c.endpoint].ownerThread;
    if server.Some? && !Is(s, server.value, Exited) {
      PrepareKeeps(s, active, c.endpoint, server.value, c.clientProcess, request, size);
      var prepared := PrepareServer(s, c.endpoint, server.value, c.clientProcess, request, size);
      if s.endpoints[c.endpoint].inUse && !s.endpoints[c.endpoint].busy && !ChannelBusy(c)
         && prepared.status == STATUS_OK {
        AcceptKeeps(prepared.state, active, k, server.value);
      }
    }
  }

  lemma CallKeeps(s: KernelState, active: nat, call: SyscallContext)
    requires Executing(s, active)
    ensures Inv(Call(s, active, call).state)
  {
    hide Rpc, Handles, Shape, CallOn, ObjectExists, FirstIn;
    if call.argument0 != 0 && call.argument1 != 0 && 0 < call.argument2 <= MAX_REQUEST_SIZE {
      match LookupChannel(s, s.threads[active].process, call.argument0)
      case Refused(_) =>
      case Found(k) => CallOnKeeps(s, active, k, call.argument1, call.argument2);
    }
  }

  // ----- Every trap -----

  lemma ServeKeeps(s: KernelState, active: nat, call: SyscallContext)
    requires Executing(s, active) && s.nextHandle < U64_MAX
    ensures Inv(Serve(s, active, call).state)
  {
    hide Rpc, Handles, Shape, Register, Open, Call, Close, CompleteCall, TerminateCurrent;
    if call.number == SYSCALL_THREAD_EXIT { TerminateKeeps(s, active, call.argument0, STATUS_PEER_CLOSED); }
    else if call.number == SYSCALL_RPC_REGISTER { RegisterKeeps(s, active, call); }
    else if call.number == SYSCALL_RPC_OPEN { OpenKeeps(s, active, call); }
    else if call.number == SYSCALL_RPC_CALL { CallKeeps(s, active, call); }
    else if call.number == SYSCALL_RPC_CLOSE { CloseKeeps(s, active, call); }
    else if call.number == SYSCALL_RPC_COMPLETE { CompleteKeeps(s, active, ToSigned32(call.argument0)); }
  }

  /** One trap of a runnable state keeps the invariant, whatever the frame, as long as the handle counter has not
      reached the end of the 64-bit range. */
  lemma TrapKeeps(s: KernelState, f: Frame)
    requires Inv(s) && Runnable(s) && FrameShape(f) && s.nextHandle < U64_MAX
    ensures Inv(HandleTrap(s, f).state)
  {
    hide Rpc, Handles, Serve;
    var active := s.current.value;
    var t := SaveFrame(s.threads[active], f);
    assert ThreadShape(s.threads[active], |s.processes|);
    var saved := ResumeKeeps(s, active, t);
    var s1 := ResumeKeeps(saved, active, SetUserContext(t, ContextOf(CallOf(f))));
    ServeKeeps(s1, active, CallOf(f));
    var Outcome(after, status) := Serve(s1, active, CallOf(f));
    if Runnable(after) && after.current == Some(active) {
      assert ThreadShape(after.threads[active], |after.processes|);
      var final := ResumeKeeps(after, active, PrepareSyscallResume(after.threads[active], status));
    }
  }
}
