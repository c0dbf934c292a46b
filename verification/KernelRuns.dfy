/**
 Whole runs of the kernel: a boot, then traps with arbitrary frames, between which user code may have rewritten the
 user memory in any way. A run goes on while a thread is runnable, and stays below the wrap of the handle counter.
 */
module KernelRuns {
  import opened Words
  import opened Status
  import opened Search
  import opened AddressSpaces
  import opened UserCopy
  import opened KernelModel
  import opened KernelBoot
  import opened KernelInvariant
  import opened KernelEffects

  /** One entry into the kernel as seen from user code: the frame that comes in, what user memory holds by then, the
      status of the call, and the frame that is loaded, absent when no thread is runnable and the run ends. */
  datatype Trap = Trap(frame: Frame, memory: seq<u8>, status: i32, loaded: Option<Frame>)

  ghost predicate Enabled(s: KernelState, t: Trap) {
    Shape(s) && Runnable(s) && FrameShape(t.frame) && |t.memory| == |s.memory|
  }

  ghost function Next(s: KernelState, t: Trap): TrapResult
    requires Enabled(s, t)
  {
    HandleTrap(PutMemory(s, t.memory), t.frame)
  }

  /** Trap i takes state i to state i + 1. */
  ghost predicate StepAt(states: seq<KernelState>, traps: seq<Trap>, i: nat)
    requires i < |traps| < |states|
  {
    && Enabled(states[i], traps[i])
    && Next(states[i], traps[i]) == TrapResult(states[i + 1], traps[i].status, traps[i].loaded)
  }

  ghost predicate Run(states: seq<KernelState>, traps: seq<Trap>) {
    && |states| == |traps| + 1 && Booted(states[0]) && states[0].nextHandle + |traps| <= U64_MAX
    && forall i: nat :: i < |traps| ==> StepAt(states, traps, i)
  }

  lemma StepOf(states: seq<KernelState>, traps: seq<Trap>, i: nat)
    requires Run(states, traps) && i < |traps|
    ensures Enabled(states[i], traps[i])
    ensures Next(states[i], traps[i]) == TrapResult(states[i + 1], traps[i].status, traps[i].loaded)
  {
    assert StepAt(states, traps, i);
    hide Enabled, Next;
  }

  ghost predicate Reachable(s: KernelState) {
    exists states, traps :: Run(states, traps) && s == states[|traps|]
  }

  // ----- The invariant over runs -----

  lemma BootedInv(s: KernelState)
    requires Booted(s)
    ensures Inv(s)
  {
    assert forall e :: 0 <= e < |s.endpoints| ==> !s.endpoints[e].inUse && !s.endpoints[e].busy;
    assert forall k :: !Live(s, k);
    hide Shape, ObjectExists;
  }

  lemma MemoryInv(s: KernelState, t: Trap) returns (s': KernelState)
    requires Inv(s) && Enabled(s, t)
    ensures s' == PutMemory(s, t.memory) && Inv(s') && Runnable(s')
  {
    s' := PutMemory(s, t.memory);
    MemoryKeeps(s, t.memory);
  }

  lemma StepInv(s: KernelState, t: Trap)
    requires Inv(s) && Enabled(s, t) && s.nextHandle < U64_MAX
    ensures Inv(Next(s, t).state) && Next(s, t).state.nextHandle <= s.nextHandle + 1
  {
    hide Rpc, Handles, Shape, HandleTrap;
    var e := MemoryInv(s, t);
    TrapKeeps(e, t.frame);
  }

  lemma {:induction false} RunInv(states: seq<KernelState>, traps: seq<Trap>, i: nat)
    requires Run(states, traps) && i <= |traps|
    ensures Inv(states[i]) && states[i].nextHandle <= states[0].nextHandle + i
  {
    hide Inv, Booted, Enabled, Next, StepAt;
    if i == 0 {
      BootedInv(states[0]);
    } else {
      RunInv(states, traps, i - 1);
      StepOf(states, traps, i - 1);
      StepInv(states[i - 1], traps[i - 1]);
    }
  }

  lemma ReachableInv(s: KernelState)
    requires Reachable(s)
    ensures Inv(s)
  {
    var states, traps :| Run(states, traps) && s == states[|traps|];
    RunInv(states, traps, |traps|);
  }

  // ----- What holds in every reachable state -----

  /** At most one thread is RUNNING, and it is the current one; the current thread is RUNNING whenever a thread is
      runnable. */
  lemma SchedulerSafety(s: KernelState)
    requires Reachable(s)
    ensures forall t: nat, u: nat :: Is(s, t, Running) && Is(s, u, Running) ==> t == u && s.current == Some(t)
    ensures Runnable(s) ==> Is(s, s.current.value, Running)
  {
    ReachableInv(s);
  }

  /** An in-use endpoint is busy iff exactly one channel is pending on it with the endpoint's owner as server;
      in-use names are distinct; unused endpoints are idle and have no pending call of an owner. */
  lemma EndpointExclusion(s: KernelState)
    requires Reachable(s)
    ensures forall e: nat :: e < |s.endpoints| ==> (s.endpoints[e].busy <==> exists k :: PendingAt(s, k, e))
    ensures forall e: nat, j, k :: PendingAt(s, j, e) && PendingAt(s, k, e) ==> j == k
    ensures forall d: nat, e: nat ::
              d < |s.endpoints| && e < |s.endpoints| && s.endpoints[d].inUse && s.endpoints[e].inUse
              && s.endpoints[d].name == s.endpoints[e].name
              ==> d == e
    ensures forall e: nat :: e < |s.endpoints| && !s.endpoints[e].inUse ==> !s.endpoints[e].busy
    ensures forall e: nat, k :: PendingAt(s, k, e) ==> s.endpoints[e].inUse
  {
    ReachableInv(s);
    hide Shape, Handles, Reachable;
    forall e: nat, k | PendingAt(s, k, e) ensures s.endpoints[e].busy && s.endpoints[e].inUse {
      assert IsServer(s, k, s.endpoints[e].ownerThread.value);
    }
  }

  /** A thread is BLOCKED iff it is the pending client of exactly one channel that another thread serves. */
  lemma BlockedAwaitsOneReply(s: KernelState)
    requires Reachable(s)
    ensures forall t: nat :: Is(s, t, Blocked) <==> exists k :: CrossClient(s, k, t)
    ensures forall t: nat, j, k :: CrossClient(s, j, t) && CrossClient(s, k, t) ==> j == k
  {
    ReachableInv(s);
    hide Shape, Handles;
    WaitingIsBlocked(s);
  }

  /** find_next_ready_thread returns the first READY slot in cyclic order after `after`, and nothing iff no thread
      is READY. */
  lemma NextReadyIsCyclicFirst(threads: seq<ThreadRecord>, after: Option<nat>)
    requires SlotInRange(after, |threads|)
    ensures var r := NextReady(threads, after);
            var start := if after.Some? then after.value + 1 else 0;
            && (r.None? <==> forall t :: 0 <= t < |threads| ==> threads[t].state != Ready)
            && (r.Some? ==> r.value < |threads| && threads[r.value].state == Ready)
            && (r.Some? ==> forall t :: 0 <= t < |threads| && threads[t].state == Ready ==>
                 Distance(|threads|, start, r.value) <= Distance(|threads|, start, t))
  {
    hide FirstIn;
    assert forall t :: 0 <= t < |threads| ==> (IsReady(threads[t]) <==> threads[t].state == Ready);
  }

  /** Steps from `start` forward to slot t, around the end of a table of n slots. */
  function Distance(n: nat, start: nat, t: nat): int {
    if t >= start then t - start else t + n - start
  }

  /** After a THREAD_EXIT the current thread is null only if no thread is READY. */
  lemma ExitLeavesNoneReady(s: KernelState, t: Trap)
    requires Inv(s) && Enabled(s, t) && t.frame.rax == SYSCALL_THREAD_EXIT
    ensures Next(s, t).state.current.None? ==> forall u :: !Is(Next(s, t).state, u, Ready)
  {
    hide Rpc, Handles;
    var e := MemoryInv(s, t);
    EnterKeeps(e, t.frame);
    TrapIs(e, t.frame);
    hide Shape, HandleTrap, HandleThreadExit;
    var active := e.current.value;
    var s1 := Enter(e, t.frame);
    var s2 := HandleThreadExit(s1, active, STATUS_PEER_CLOSED);
    NextReadyIsCyclicFirst(
      s2.threads[active := s2.threads[active].(state := Exited, exitStatus := t.frame.rdi)], s2.current);
    hide NextReady, SetCurrent;
  }
}
