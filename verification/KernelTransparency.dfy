/**
 Calls over whole runs: to its client a cross-thread call looks like a function call, to the interrupted server it
 looks like nothing at all, and calls are neither lost nor answered twice.
 */
module KernelTransparency {
  import opened Words
  import opened Status
  import opened Search
  import opened AddressSpaces
  import opened UserCopy
  import opened KernelModel
  import opened KernelBoot
  import opened KernelInvariant
  import opened KernelEffects
  import opened KernelRuns

  // ----- One step of a run -----

  /** What trap i of a run did. */
  function ResultAt(states: seq<KernelState>, traps: seq<Trap>, i: nat): TrapResult
    requires i < |traps| < |states|
  {
    TrapResult(states[i + 1], traps[i].status, traps[i].loaded)
  }

  /** Step i of a run, seen through its effect on calls. */
  lemma StepEffect(states: seq<KernelState>, traps: seq<Trap>, i: nat)
    returns (e: KernelState, started: Option<nat>, server: nat, ended: Option<nat>)
    requires Run(states, traps) && i < |traps|
    ensures e == states[i].(memory := traps[i].memory) && e.current.Some?
    ensures Inv(states[i]) && Inv(e) && Runnable(states[i]) && Runnable(e)
    ensures TrapEffected(e, traps[i].frame, ResultAt(states, traps, i), started, server, ended)
  {
    hide Inv, Booted, Next, StepAt;
    RunInv(states, traps, i);
    StepOf(states, traps, i);
    e := MemoryInv(states[i], traps[i]);
    hide HandleTrap, TrapEffected, Runnable, Shape, Run;
    started, server, ended := TrapEffect(e, traps[i].frame);
    assert Next(states[i], traps[i]) == HandleTrap(e, traps[i].frame) by { NextIs(states[i], traps[i]); }
  }

  lemma NextIs(s: KernelState, t: Trap)
    requires Enabled(s, t)
    ensures Next(s, t) == HandleTrap(PutMemory(s, t.memory), t.frame)
  {
  }

  // ----- One call of a run -----

  /** Channel k carries, from step i to step j, a call from `client` to another thread `server`. */
  ghost predicate CallSpan(states: seq<KernelState>, traps: seq<Trap>, i: nat, j: nat, k: nat, client: nat, server: nat) {
    && Run(states, traps) && i < j < |traps|
    && !Pends(states[i], k)
    && (forall m :: i < m <= j ==> Pends(states[m], k))
    && !Pends(states[j + 1], k)
    && Live(states[i + 1], k)
    && states[i + 1].channels[k].value.pendingClient == Some(client)
    && states[i + 1].channels[k].value.pendingServer == Some(server)
    && client != server
  }

  /** The start of a call, from the trap that made it. */
  ghost predicate StartedAt(s: KernelState, f: Frame, s': KernelState, k: nat, client: nat, server: nat) {
    && f.rax == SYSCALL_RPC_CALL && s.current == Some(client)
    && client < |s.threads| == |s'.threads| && server < |s.threads| && Live(s', k)
    && |s.threads[client].registers| == REGISTER_COUNT
    && s'.threads[client] == Entered(s.threads[client], f).(state := Blocked)
    && s'.current == Some(server) && s'.threads[server].pendingStatus == s.threads[server].pendingStatus
    && var c := s'.channels[k].value;
       && c.savedState == s.threads[server].state && c.savedContext == s.threads[server].context
       && c.savedRegisters == s.threads[server].registers && c.savedSimd == s.threads[server].simd
  }

  lemma StartFacts(s: KernelState, e: KernelState, f: Frame, r: TrapResult, k: nat, client: nat, server: nat,
                   started: Option<nat>, server0: nat, ended: Option<nat>)
    requires e == s.(memory := e.memory) && e.current.Some? && TrapEffected(e, f, r, started, server0, ended)
    requires !Pends(s, k) && Pends(r.state, k)
    requires r.state.channels[k].value.pendingClient == Some(client)
    requires r.state.channels[k].value.pendingServer == Some(server) && client != server
    ensures StartedAt(s, f, r.state, k, client, server)
  {
    assert !Pends(e, k);
    assert started == Some(k);
    hide CallsKept, TrapEnded, Entered, PendingByServer;
    assert TrapStarted(e, f, r, k, server0);
  }

  lemma SpanStarts(states: seq<KernelState>, traps: seq<Trap>, i: nat, j: nat, k: nat, client: nat, server: nat)
    requires CallSpan(states, traps, i, j, k, client, server)
    ensures StartedAt(states[i], traps[i].frame, states[i + 1], k, client, server)
  {
    var e, started, server0, ended := StepEffect(states, traps, i);
    assert Pends(states[i + 1], k);
    hide Inv, Run, StepAt, Next, Runnable, Shape, Entered, TrapEffected, StartedAt, Pends, Live;
    StartFacts(states[i], e, traps[i].frame, ResultAt(states, traps, i), k, client, server, started, server0, ended);
  }

  lemma PendingStep(s: KernelState, e: KernelState, s': KernelState, started: Option<nat>, ended: Option<nat>,
                    k: nat, client: nat)
    requires e.channels == s.channels && e.threads == s.threads && CallsKept(e, s', started, ended)
    requires CrossClient(s, k, client) && Pends(s', k) && Runnable(s')
    ensures CrossClient(s', k, client) && s'.channels[k] == s.channels[k]
    ensures client < |s.threads| && client < |s'.threads| && s'.threads[client] == s.threads[client]
  {
    assert Pends(e, k) && CrossClient(e, k, client);
    assert ended != Some(k);
  }

  /** While the call is pending, its channel and its client do not change at all. */
  lemma {:induction false} SpanKeeps(
    states: seq<KernelState>, traps: seq<Trap>, i: nat, j: nat, k: nat, client: nat, server: nat, m: nat)
    requires CallSpan(states, traps, i, j, k, client, server) && i < m <= j
    ensures CrossClient(states[m], k, client) && states[m].channels[k] == states[i + 1].channels[k]
    ensures client < |states[m].threads| && client < |states[i + 1].threads|
    ensures states[m].threads[client] == states[i + 1].threads[client]
  {
    hide Inv, Next, Shape, CallsKept, TrapStarted, TrapEnded, Runnable, StartedAt;
    if m == i + 1 {
      SpanStarts(states, traps, i, j, k, client, server);
      assert StartedAt(states[i], traps[i].frame, states[i + 1], k, client, server);
      hide Run;
      SpanClient(states, traps, i, k, client, server);
    } else {
      SpanKeeps(states, traps, i, j, k, client, server, m - 1);
      var e, started, server0, ended := StepEffect(states, traps, m - 1);
      StepOf(states, traps, m);
      hide Run;
      PendingStep(states[m - 1], e, states[m], started, ended, k, client);
    }
  }

  lemma SpanClient(states: seq<KernelState>, traps: seq<Trap>, i: nat, k: nat, client: nat, server: nat)
    requires i < |traps| && i + 1 < |states| && StartedAt(states[i], traps[i].frame, states[i + 1], k, client, server)
    requires states[i + 1].channels[k].value.pendingClient == Some(client)
    requires states[i + 1].channels[k].value.pendingServer == Some(server) && client != server
    ensures CrossClient(states[i + 1], k, client) && client < |states[i + 1].threads|
  {
  }

  /** The frame of a system call that returned `status`: the trap's own, with the scratch registers the kernel
      clears and the status in rax. */
  function ReturnFrame(f: Frame, status: i32): Frame {
    f.(rax := SignExtend(status), rdx := 0, r8 := 0, r9 := 0, r10 := 0)
  }

  lemma CallReturns(t: ThreadRecord, f: Frame, state: ThreadState, status: i32)
    requires |t.registers| == REGISTER_COUNT
    ensures LoadFrame(Awake(Entered(t, f).(state := Blocked), state, status)) == ReturnFrame(f, status)
  {
  }

  /** How the call ended: answered by the server's RPC_COMPLETE, or failed by its exit. */
  ghost predicate EndedAt(s: KernelState, f: Frame, s': KernelState, k: nat, client: nat, server: nat) {
    && f.rax in {SYSCALL_RPC_COMPLETE, SYSCALL_THREAD_EXIT} && s.current == Some(server)
    && client < |s.threads| == |s'.threads| && server < |s.threads| && Live(s, k)
    && |s.threads[server].registers| == REGISTER_COUNT
    && (f.rax == SYSCALL_RPC_COMPLETE ==>
          && s'.current == Some(client)
          && s'.threads[client] == Awake(s.threads[client], Running, ToSigned32(f.rdi))
          && s'.threads[server] == Restored(Entered(s.threads[server], f), s.channels[k].value))
    && (f.rax == SYSCALL_THREAD_EXIT ==>
          && Is(s', server, Exited)
          && (|| s'.threads[client] == Awake(s.threads[client], Ready, STATUS_PEER_CLOSED)
              || s'.threads[client] == Awake(s.threads[client], Running, STATUS_PEER_CLOSED)))
  }

  lemma EndFacts(s: KernelState, e: KernelState, f: Frame, r: TrapResult, k: nat, client: nat, server: nat,
                 started: Option<nat>, server0: nat, ended: Option<nat>)
    requires e == s.(memory := e.memory) && e.current.Some? && TrapEffected(e, f, r, started, server0, ended)
    requires Pends(s, k) && !Pends(r.state, k)
    requires s.channels[k].value.pendingClient == Some(client)
    requires s.channels[k].value.pendingServer == Some(server) && client != server
    ensures EndedAt(s, f, r.state, k, client, server)
  {
    assert Pends(e, k);
    assert ended == Some(k);
    hide CallsKept, TrapStarted, Entered, PendingByServer, Restored, Awake;
    assert TrapEnded(e, f, r, k);
  }

  lemma SpanEnds(states: seq<KernelState>, traps: seq<Trap>, i: nat, j: nat, k: nat, client: nat, server: nat)
    requires CallSpan(states, traps, i, j, k, client, server)
    ensures EndedAt(states[j], traps[j].frame, states[j + 1], k, client, server)
    ensures Live(states[j], k) && states[j].channels[k] == states[i + 1].channels[k]
  {
    SpanKeeps(states, traps, i, j, k, client, server, j);
    var e, started, server0, ended := StepEffect(states, traps, j);
    assert Pends(states[j], k) && !Pends(states[j + 1], k);
    hide Inv, Run, StepAt, Next, Runnable, Shape, Entered, TrapEffected, EndedAt, Pends;
    EndFacts(states[j], e, traps[j].frame, ResultAt(states, traps, j), k, client, server, started, server0, ended);
  }

  lemma FrameLoaded(s: KernelState, t: Trap)
    requires Enabled(s, t) && Runnable(Next(s, t).state)
    ensures var s' := Next(s, t).state;
            ThreadShape(s'.threads[s'.current.value], |s'.processes|)
            && Next(s, t).frame == Some(LoadFrame(s'.threads[s'.current.value]))
  {
    var e := PutMemory(s, t.memory);
    TrapIs(e, t.frame);
    hide HandleTrap, Served;
  }

  lemma Returned(t: ThreadRecord, f: Frame, s: KernelState, g: Frame, s': KernelState, k: nat, client: nat, server: nat)
    requires EndedAt(s, g, s', k, client, server) && |t.registers| == REGISTER_COUNT
    requires s.threads[client] == Entered(t, f).(state := Blocked)
    ensures |s'.threads[client].registers| == REGISTER_COUNT && s'.threads[client].state in {Ready, Running}
    ensures g.rax == SYSCALL_RPC_COMPLETE ==>
              && s'.threads[client].state == Running
              && LoadFrame(s'.threads[client]) == ReturnFrame(f, ToSigned32(g.rdi))
    ensures g.rax == SYSCALL_THREAD_EXIT ==> LoadFrame(s'.threads[client]) == ReturnFrame(f, STATUS_PEER_CLOSED)
  {
    CallReturns(t, f, Running, ToSigned32(g.rdi));
    CallReturns(t, f, Running, STATUS_PEER_CLOSED);
    CallReturns(t, f, Ready, STATUS_PEER_CLOSED);
    hide LoadFrame, ReturnFrame, Restored;
  }

  /** A cross-thread call is a function call to its client. From the trap that makes it to the one that ends it, the
      client's record does not change. If the server answers, the client runs next, from its own trap frame with the
      server's status in rax and rdx, r8, r9, r10 cleared; if the server exits, the client is runnable again from the
      same frame with PEER_CLOSED. */
  lemma ClientTransparency(states: seq<KernelState>, traps: seq<Trap>, i: nat, j: nat, k: nat, client: nat, server: nat)
    requires CallSpan(states, traps, i, j, k, client, server)
    ensures client < |states[i + 1].threads|
    ensures forall m :: i < m <= j ==>
              client < |states[m].threads| && states[m].threads[client] == states[i + 1].threads[client]
    ensures states[i].current == Some(client) && states[j].current == Some(server)
    ensures traps[j].frame.rax in {SYSCALL_RPC_COMPLETE, SYSCALL_THREAD_EXIT}
    ensures traps[j].frame.rax == SYSCALL_RPC_COMPLETE ==>
              && states[j + 1].current == Some(client)
              && traps[j].loaded == Some(ReturnFrame(traps[i].frame, ToSigned32(traps[j].frame.rdi)))
    ensures traps[j].frame.rax == SYSCALL_THREAD_EXIT ==>
              && client < |states[j + 1].threads| && |states[j + 1].threads[client].registers| == REGISTER_COUNT
              && states[j + 1].threads[client].state in {Ready, Running}
              && LoadFrame(states[j + 1].threads[client]) == ReturnFrame(traps[i].frame, STATUS_PEER_CLOSED)
  {
    SpanStarts(states, traps, i, j, k, client, server);
    forall m | i < m <= j
      ensures client < |states[m].threads| && states[m].threads[client] == states[i + 1].threads[client]
    {
      SpanKeeps(states, traps, i, j, k, client, server, m);
    }
    SpanEnds(states, traps, i, j, k, client, server);
    StepOf(states, traps, j);
    hide Run, StepAt, Inv, Next, Shape, CallSpan, Entered, Awake, LoadFrame, ReturnFrame;
    Returned(states[i].threads[client], traps[i].frame, states[j], traps[j].frame, states[j + 1], k, client, server);
    if traps[j].frame.rax == SYSCALL_RPC_COMPLETE {
      hide Enabled;
      FrameLoaded(states[j], traps[j]);
    }
  }

  /** A cross-thread call is invisible to the thread it interrupted: once answered, the server has the user context,
      state, preserved registers and SIMD registers it had when the call was accepted, whatever its callback did. */
  lemma ServerTransparency(states: seq<KernelState>, traps: seq<Trap>, i: nat, j: nat, k: nat, client: nat, server: nat)
    requires CallSpan(states, traps, i, j, k, client, server) && traps[j].frame.rax == SYSCALL_RPC_COMPLETE
    ensures server < |states[i].threads| && server < |states[j + 1].threads|
    ensures var t, t' := states[i].threads[server], states[j + 1].threads[server];
            t'.context == t.context && t'.state == t.state && t'.registers == t.registers && t'.simd == t.simd
  {
    SpanStarts(states, traps, i, j, k, client, server);
    SpanEnds(states, traps, i, j, k, client, server);
    hide CallSpan, Entered;
  }

  // ----- Reply accounting -----

  /** Channel k carries a call between two threads. */
  ghost predicate Waits(s: KernelState, k: int) {
    Pends(s, k) && Woken(s.channels[k].value).Some?
  }

  ghost predicate Starts(s: KernelState, s': KernelState) {
    exists k: nat :: !Pends(s, k) && Waits(s', k)
  }

  ghost predicate Ends(s: KernelState, s': KernelState) {
    exists k: nat :: Waits(s, k) && !Pends(s', k)
  }

  /** Cross-thread calls accepted in the first n steps. */
  ghost function AcceptedCalls(states: seq<KernelState>, n: nat): nat
    requires n < |states|
  {
    if n == 0 then 0 else AcceptedCalls(states, n - 1) + if Starts(states[n - 1], states[n]) then 1 else 0
  }

  /** Cross-thread calls ended in the first n steps by traps with the given system call number. */
  ghost function EndedCalls(states: seq<KernelState>, traps: seq<Trap>, n: nat, number: u64): nat
    requires n < |states| && n <= |traps|
  {
    if n == 0 then 0
    else EndedCalls(states, traps, n - 1, number)
         + if traps[n - 1].frame.rax == number && Ends(states[n - 1], states[n]) then 1 else 0
  }

  ghost function BlockedThreads(s: KernelState): set<nat> {
    set t: nat | t < |s.threads| && s.threads[t].state == Blocked
  }

  ghost function WaitingChannels(s: KernelState): set<nat> {
    set k: nat | k < |s.channels| && Waits(s, k)
  }

  /** A one-to-one image of a finite set is as large as the set. */
  lemma {:induction false} ImageSize(f: nat -> nat, keys: set<nat>, image: set<nat>)
    requires forall k :: k in keys ==> f(k) in image
    requires forall t :: t in image ==> exists k :: k in keys && f(k) == t
    requires forall j, k :: j in keys && k in keys && f(j) == f(k) ==> j == k
    ensures |keys| == |image|
    decreases keys
  {
    if keys == {} {
      assert image == {};
    } else {
      var k :| k in keys;
      ImageSize(f, keys - {k}, image - {f(k)});
    }
  }

  /** As many threads are BLOCKED as channels wait. */
  lemma BlockedCount(s: KernelState)
    requires Rpc(s)
    ensures |BlockedThreads(s)| == |WaitingChannels(s)|
  {
    var f := (k: nat) => if k < |s.channels| && s.channels[k].Some? && s.channels[k].value.pendingClient.Some?
                         then s.channels[k].value.pendingClient.value else 0;
    WaitingIsBlocked(s);
    forall k | k in WaitingChannels(s) ensures CrossClient(s, k, f(k)) && f(k) in BlockedThreads(s) {
      PendingIn(s, k);
      assert CrossClient(s, k, f(k));
    }
    forall t | t in BlockedThreads(s) ensures exists k :: k in WaitingChannels(s) && f(k) == t {
      assert Is(s, t, Blocked);
      var k: int :| CrossClient(s, k, t);
      assert k in WaitingChannels(s) && f(k) == t;
    }
    hide Rpc;
    assert OneReply(s);
    ImageSize(f, WaitingChannels(s), BlockedThreads(s));
  }

  lemma WaitingElsewhere(s: KernelState, s': KernelState, started: Option<nat>, ended: Option<nat>)
    requires Slots(s, s', started, ended)
    ensures forall k: nat :: started != Some(k) && ended != Some(k) ==>
              (Waits(s, k) <==> Waits(s', k)) && (Pends(s, k) <==> Pends(s', k))
  {
  }

  lemma StartsAndEnds(s: KernelState, s': KernelState, started: Option<nat>, ended: Option<nat>)
    requires Slots(s, s', started, ended) && (started.None? || ended.None?)
    ensures Starts(s, s') <==> started.Some? && Waits(s', started.value)
    ensures Ends(s, s') <==> ended.Some? && Waits(s, ended.value)
  {
    WaitingElsewhere(s, s', started, ended);
  }

  lemma WaitingStep(s: KernelState, s': KernelState, started: Option<nat>, ended: Option<nat>)
    requires Slots(s, s', started, ended) && (started.None? || ended.None?)
    ensures |WaitingChannels(s')|
         == |WaitingChannels(s)| + (if Starts(s, s') then 1 else 0) - (if Ends(s, s') then 1 else 0)
  {
    StartsAndEnds(s, s', started, ended);
    var before, after := WaitingChannels(s), WaitingChannels(s');
    if Starts(s, s') {
      var k := started.value;
      assert k in after && k !in before;
      OneMore(before, after, k) by { WaitingElsewhere(s, s', started, ended); }
    } else if Ends(s, s') {
      var k := ended.value;
      assert k in before && k !in after;
      OneMore(after, before, k) by { WaitingElsewhere(s, s', started, ended); }
    } else {
      assert after == before by { WaitingElsewhere(s, s', started, ended); }
    }
  }

  lemma OneMore(small: set<nat>, large: set<nat>, k: nat)
    requires k !in small && k in large && forall j: nat :: j != k ==> (j in small <==> j in large)
    ensures |large| == |small| + 1
  {
    assert large == small + {k};
  }

  /** The step, as far as slots go. */
  lemma SlotsStep(states: seq<KernelState>, traps: seq<Trap>, i: nat)
    returns (started: Option<nat>, ended: Option<nat>)
    requires Run(states, traps) && i < |traps|
    ensures Slots(states[i], states[i + 1], started, ended) && (started.None? || ended.None?)
    ensures ended.Some? ==> traps[i].frame.rax in {SYSCALL_RPC_COMPLETE, SYSCALL_THREAD_EXIT}
  {
    var e, server;
    e, started, server, ended := StepEffect(states, traps, i);
    hide Run, StepAt, Inv, Next, Runnable, Shape, TrapStarted, TrapEnded, ClientKept, CrossClient, PendingByServer, Slots, Pends;
    SlotsOf(states[i], e, states[i + 1], started, ended);
  }

  lemma SlotsOf(s: KernelState, e: KernelState, s': KernelState, started: Option<nat>, ended: Option<nat>)
    requires e.channels == s.channels && Slots(e, s', started, ended)
    ensures Slots(s, s', started, ended)
  {
    assert forall k :: Pends(e, k) == Pends(s, k);
  }

  lemma AccountingStep(states: seq<KernelState>, traps: seq<Trap>, i: nat)
    requires Run(states, traps) && i < |traps|
    ensures |BlockedThreads(states[i + 1])|
         == |BlockedThreads(states[i])| + (if Starts(states[i], states[i + 1]) then 1 else 0)
                                        - (if Ends(states[i], states[i + 1]) then 1 else 0)
    ensures Ends(states[i], states[i + 1]) ==> traps[i].frame.rax in {SYSCALL_RPC_COMPLETE, SYSCALL_THREAD_EXIT}
  {
    RunInv(states, traps, i);
    RunInv(states, traps, i + 1);
    BlockedCount(states[i]);
    BlockedCount(states[i + 1]);
    hide Run, Inv, Slots, Waits, Starts, Ends, WaitingChannels, BlockedThreads;
    var started, ended := SlotsStep(states, traps, i);
    StartsAndEnds(states[i], states[i + 1], started, ended);
    WaitingStep(states[i], states[i + 1], started, ended);
  }

  /** No reply is lost or made up: the cross-thread calls accepted so far are those completed, those failed by a
      server's exit, and one for every thread now BLOCKED. */
  lemma {:induction false} ReplyAccounting(states: seq<KernelState>, traps: seq<Trap>, n: nat)
    requires Run(states, traps) && n <= |traps|
    ensures AcceptedCalls(states, n)
         == EndedCalls(states, traps, n, SYSCALL_RPC_COMPLETE) + EndedCalls(states, traps, n, SYSCALL_THREAD_EXIT)
            + |BlockedThreads(states[n])|
  {
    RunLength(states, traps);
    if n > 0 {
      hide Run, Starts, Ends, BlockedThreads;
      ReplyAccounting(states, traps, n - 1);
      AccountingStep(states, traps, n - 1);
    }
  }

  lemma RunLength(states: seq<KernelState>, traps: seq<Trap>)
    requires Run(states, traps)
    ensures |states| == |traps| + 1 && BlockedThreads(states[0]) == {}
  {
  }

  /** No step erases a pending channel: it stays in its slot under its handle. */
  lemma PendingIsNotErased(states: seq<KernelState>, traps: seq<Trap>, i: nat, k: nat)
    requires Run(states, traps) && i < |traps| && Pends(states[i], k)
    ensures Live(states[i + 1], k) && states[i + 1].channels[k].value.handle == states[i].channels[k].value.handle
  {
    var e, started, server, ended := StepEffect(states, traps, i);
    hide Run, StepAt, Inv, Next, Runnable, Shape, TrapStarted, TrapEnded;
    assert Pends(e, k);
  }

  lemma StillWaits(s: KernelState, s': KernelState, started: Option<nat>, ended: Option<nat>, k: nat, client: nat)
    requires Slots(s, s', started, ended) && CrossClient(s, k, client) && ended != Some(k)
    ensures CrossClient(s', k, client)
  {
    assert Pends(s, k);
  }

  lemma WaiterIsBlocked(s: KernelState, k: nat, client: nat)
    requires Inv(s) && CrossClient(s, k, client)
    ensures Is(s, client, Blocked)
  {
    hide Shape, Handles;
    WaitingIsBlocked(s);
  }
}
