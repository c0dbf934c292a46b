/**
 What a server's exit does to the clients that wait for it (kernel/rpc.cpp, fail_pending_call): it releases the client of
 the lowest pending channel and no other, and a client it does not release stays BLOCKED for the rest of the run.
 */
module KernelExit {
  import opened Words
  import opened Status
  import opened Search
  import opened AddressSpaces
  import opened UserCopy
  import opened KernelModel
  import opened KernelBoot
  import opened KernelInvariant
  import opened KernelEffects
  import opened KernelRuns
  import opened KernelTransparency
  import opened KernelEvolution

  /** Thread `client` is blocked in channel k until `server`, another thread, answers. */
  ghost predicate WaitsFor(s: KernelState, k: nat, client: nat, server: nat) {
    CrossClient(s, k, client) && IsServer(s, k, server)
  }

  /** Step i is the exit of `server`. */
  ghost predicate ExitAt(states: seq<KernelState>, traps: seq<Trap>, i: nat, server: nat) {
    Run(states, traps) && i < |traps| && traps[i].frame.rax == SYSCALL_THREAD_EXIT && states[i].current == Some(server)
  }

  /** find_pending_channel_by_server_thread finds the lowest channel pending on the thread. */
  lemma PendingIsLowest(s: KernelState, server: nat, k: nat)
    ensures PendingByServer(s, server) == Some(k) <==>
            IsServer(s, k, server) && forall j: nat :: j < k ==> !IsServer(s, j, server)
  {
    assert forall j: nat :: j < |s.channels| ==> (PendingOn(s.channels[j], server) <==> IsServer(s, j, server));
  }

  lemma ServedPends(s: KernelState, k: nat, server: nat)
    requires IsServer(s, k, server)
    ensures Pends(s, k) && k < |s.channels|
  {
  }

  /** Of the channels pending on an exiting thread exactly the lowest one ends. */
  lemma ExitEndsLowest(states: seq<KernelState>, traps: seq<Trap>, i: nat, server: nat, k: nat)
    requires ExitAt(states, traps, i, server) && IsServer(states[i], k, server)
    ensures Pends(states[i + 1], k) <==> exists j: nat :: j < k && IsServer(states[i], j, server)
  {
    var e, started, server0, ended := StepEffect(states, traps, i);
    PendingIsLowest(states[i], server, k);
    ServedPends(states[i], k, server);
    hide Run, StepAt, Inv, Runnable, TrapStarted, TrapEnded, ClientKept, IsServer;
    assert PendingByServer(e, server) == PendingByServer(states[i], server);
    hide PendingByServer;
    SlotsOf(states[i], e, states[i + 1], started, ended);
  }

  lemma ReleasedByEnd(s: KernelState, f: Frame, r: TrapResult, k: nat, client: nat)
    requires s.current.Some? && TrapEnded(s, f, r, k) && CrossClient(s, k, client) && f.rax == SYSCALL_THREAD_EXIT
    ensures !Is(r.state, client, Blocked)
  {
    hide Restored, Entered;
  }

  /** A client that waits for an exiting thread is released iff it waits in the lowest channel. */
  lemma ExitReleasesLowest(states: seq<KernelState>, traps: seq<Trap>, i: nat, server: nat, k: nat, client: nat)
    requires ExitAt(states, traps, i, server) && WaitsFor(states[i], k, client, server)
    ensures Is(states[i + 1], client, Blocked) <==> exists j: nat :: j < k && IsServer(states[i], j, server)
  {
    var e, started, server0, ended := StepEffect(states, traps, i);
    RunInv(states, traps, i + 1);
    PendingIsLowest(states[i], server, k);
    hide Run, StepAt, Runnable, TrapStarted, TrapEnded, ClientKept, Inv;
    assert PendingByServer(e, server) == PendingByServer(states[i], server);
    hide PendingByServer;
    if PendingByServer(states[i], server) == Some(k) {
      hide Slots;
      ReleasedByEnd(e, traps[i].frame, ResultAt(states, traps, i), k, client);
    } else {
      assert CrossClient(e, k, client);
      StillWaits(e, states[i + 1], started, ended, k, client);
      WaiterIsBlocked(states[i + 1], k, client);
    }
  }

  /** An exit releases every client that waits for the thread iff none of them waits in a channel above another one
      pending on it; a caller can tell from the channel table before the exit. */
  lemma ExitReleasesAll(states: seq<KernelState>, traps: seq<Trap>, i: nat, server: nat)
    requires ExitAt(states, traps, i, server)
    ensures (forall k: nat, client: nat :: WaitsFor(states[i], k, client, server) ==> !Is(states[i + 1], client, Blocked))
       <==> (forall k: nat, client: nat, j: nat :: WaitsFor(states[i], k, client, server) && j < k ==>
               !IsServer(states[i], j, server))
  {
    hide StepAt, Booted, IsServer, Is;
    forall k: nat, client: nat | WaitsFor(states[i], k, client, server)
      ensures Is(states[i + 1], client, Blocked) <==> exists j: nat :: j < k && IsServer(states[i], j, server)
    {
      ExitReleasesLowest(states, traps, i, server, k, client);
    }
    hide WaitsFor;
  }

  // ----- The rest of the run -----

  lemma ExitExits(states: seq<KernelState>, traps: seq<Trap>, i: nat, server: nat)
    requires ExitAt(states, traps, i, server)
    ensures Is(states[i + 1], server, Exited)
  {
    RunInv(states, traps, i);
    StepOf(states, traps, i);
    NextIs(states[i], traps[i]);
    hide Run, StepAt, Next, Rpc, Handles, Shape, HandleTrap;
    var s := MemoryInv(states[i], traps[i]);
    var f := traps[i].frame;
    EnterKeeps(s, f);
    TrapIs(s, f);
    TerminateEffect(Enter(s, f), server, f.rdi, STATUS_PEER_CLOSED);
    hide Inv, Enter, TerminateCurrent, Slots, Bystanders, PendingByServer;
  }

  /** While its server is EXITED a client goes on waiting. */
  lemma WaitsOn(states: seq<KernelState>, traps: seq<Trap>, i: nat, k: nat, client: nat, server: nat)
    requires Run(states, traps) && i < |traps|
    requires WaitsFor(states[i], k, client, server) && Is(states[i], server, Exited)
    ensures WaitsFor(states[i + 1], k, client, server)
  {
    var e, started, server0, ended := StepEffect(states, traps, i);
    assert !Is(states[i], states[i].current.value, Exited);
    hide Run, StepAt, Inv, Runnable, TrapStarted, ClientKept, PendingByServer;
    assert CrossClient(e, k, client) && Pends(e, k);
    assert ended != Some(k);
    hide TrapEnded;
    StillWaits(e, states[i + 1], started, ended, k, client);
  }

  /** A client that an exit does not release is BLOCKED in every later state of the run, its channel pending on a thread
      that will never answer. */
  lemma {:induction false} StrandedForever(states: seq<KernelState>, traps: seq<Trap>, i: nat, m: nat,
                                           k: nat, client: nat, server: nat, j: nat)
    requires ExitAt(states, traps, i, server) && i < m <= |traps|
    requires WaitsFor(states[i], k, client, server) && j < k && IsServer(states[i], j, server)
    ensures WaitsFor(states[m], k, client, server) && Is(states[m], client, Blocked) && Is(states[m], server, Exited)
    decreases m
  {
    if m == i + 1 {
      ExitExits(states, traps, i, server);
      ExitReleasesLowest(states, traps, i, server, k, client);
      ExitKeepsUpper(states, traps, i, k, client, server, j);
    } else {
      StrandedForever(states, traps, i, m - 1, k, client, server, j);
      hide ExitAt, IsServer;
      WaitsOn(states, traps, m - 1, k, client, server);
      ExitedForever(states, traps, m - 1, m, server);
      RunInv(states, traps, m);
      WaiterIsBlocked(states[m], k, client);
    }
  }

  lemma ExitKeepsUpper(states: seq<KernelState>, traps: seq<Trap>, i: nat, k: nat, client: nat, server: nat, j: nat)
    requires ExitAt(states, traps, i, server) && WaitsFor(states[i], k, client, server)
    requires j < k && IsServer(states[i], j, server)
    ensures WaitsFor(states[i + 1], k, client, server)
  {
    var e, started, server0, ended := StepEffect(states, traps, i);
    PendingIsLowest(states[i], server, k);
    hide Run, StepAt, Inv, Runnable, TrapStarted, TrapEnded, ClientKept;
    assert PendingByServer(e, server) == PendingByServer(states[i], server);
    hide PendingByServer;
    assert CrossClient(e, k, client) && Pends(e, k);
    StillWaits(e, states[i + 1], started, ended, k, client);
  }
}
