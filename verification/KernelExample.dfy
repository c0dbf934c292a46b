/**
 Three runs of the kernel with two processes and the table sizes it has. In the first a thread registers an endpoint,
 another opens a channel and calls it, the callback makes a system call the kernel does not know, and completes: calls in
 runs exist, and the status an interrupted server waits for can be lost to its callback. In the second a server exits from
 a callback in which it has called itself, and its client waits for ever. In the third two threads call each other, and
 the machine stops.
 */
module KernelExample {
  import opened Words
  import opened Status
  import opened Search
  import opened KernelModel
  import opened KernelBoot
  import opened KernelInvariant
  import opened KernelEffects
  import opened KernelRuns
  import opened KernelTransparency
  import opened KernelEvolution
  import opened KernelResume
  import opened KernelExit
  import opened KernelHalt
  import opened KernelScenes

  // ----- A call whose callback loses the server's status -----

  /** Channel 0 is pending from thread 1 to thread 0, which runs. */
  ghost predicate Called(s: KernelState) {
    && Pends(s, 0) && s.channels[0].value.pendingClient == Some(1) && s.channels[0].value.pendingServer == Some(0)
    && s.current == Some(0) && Runnable(s)
  }

  lemma UnknownCallKeeps(s: KernelState)
    requires Inv(s) && Runnable(s) && Called(s) && s.nextHandle < U64_MAX
    ensures Called(HandleTrap(s, Syscall(0, 0, 0, 0)).state)
  {
    hide HandleTrap, Rpc, Handles, Zeros, PendingByServer;
    var f := Syscall(0, 0, 0, 0);
    TrapIs(s, f);
    hide Shape;
    var started, server, ended := TrapEffect(s, f);
    hide ClientKept, TrapStarted, TrapEnded;
  }

  lemma CompletionEnds(s: KernelState)
    requires Inv(s) && Runnable(s) && Called(s) && s.nextHandle < U64_MAX
    ensures !Pends(HandleTrap(s, Syscall(SYSCALL_RPC_COMPLETE, 0, 0, 0)).state, 0)
  {
    hide HandleTrap, Rpc, Handles, Zeros, Entered, Shape;
    var started, server, ended := TrapEffect(s, Syscall(SYSCALL_RPC_COMPLETE, 0, 0, 0));
    assert PendingByServer(s, 0) == Some(0);
    hide ClientKept, TrapStarted, TrapEnded, PendingByServer;
  }

  lemma SameInMemory(s: KernelState)
    ensures Called(s.(memory := Memory())) == Called(s) && Pends(s.(memory := Memory()), 0) == Pends(s, 0)
  {
  }

  /** The callback: an unknown system call, then RPC_COMPLETE. */
  lemma Callback(s: KernelState, n: nat) returns (t: Trap, u: Trap, s': KernelState, after: KernelState)
    requires Good(s, n) && Called(s) && n < 90
    ensures Enabled(s, t) && Next(s, t) == TrapResult(s', t.status, t.loaded) && t.frame.rax == 0 && Called(s')
    ensures Enabled(s', u) && Next(s', u) == TrapResult(after, u.status, u.loaded) && u.frame.rax == SYSCALL_RPC_COMPLETE
    ensures !Pends(after, 0)
  {
    hide HandleTrap, Next, Enabled, Zeros, Pends, Shape, Rpc, Handles, Memory;
    var m;
    SameInMemory(s);
    m, t, s' := Step(s, Syscall(0, 0, 0, 0), n);
    UnknownCallKeeps(m);
    SameInMemory(s');
    m, u, after := Step(s', Syscall(SYSCALL_RPC_COMPLETE, 0, 0, 0), n + 1);
    CompletionEnds(m);
  }

  /** Register, open, call. */
  lemma ToTheCall() returns (s: seq<KernelState>, t: seq<Trap>)
    ensures |s| == 4 && |t| == 3 && s[0] == Start() && Booted(s[0]) && s[0].nextHandle == 5
    ensures forall i: nat :: i < 3 ==>
              Enabled(s[i], t[i]) && Next(s[i], t[i]) == TrapResult(s[i + 1], t[i].status, t[i].loaded)
    ensures |s[0].threads| == 2 && s[0].current == Some(0) && s[1].current == Some(1) && Is(s[1], 0, Ready)
    ensures t[0].frame.rax == SYSCALL_RPC_REGISTER
    ensures !Pends(s[2], 0) && Called(s[3]) && Good(s[3], 23)
  {
    hide Next, Enabled, Good, Booted, Start, EndpointOf;
    Boots();
    var s0, c0 := Start(), START;
    var t0, s1, c1 := Registers(s0, c0, 0, 0, Some(1), 20);
    var t1, s2, c2 := Opens(s1, c1, 0, 0, 0, 21);
    var t2, s3, c3 := Calls(s2, c2, 0, 0, 22);
    s, t := [s0, s1, s2, s3], [t0, t1, t2];
    assert Called(s3) by { ShowsRunnable(s3, c3); }
  }

  /** The run: register, open, call, an unknown system call, complete. */
  lemma RunOfACall() returns (states: seq<KernelState>, traps: seq<Trap>)
    ensures CallSpan(states, traps, 2, 4, 0, 1, 0) && states[0] == Start()
    ensures traps[3].frame.rax == 0 && traps[4].frame.rax == SYSCALL_RPC_COMPLETE
    ensures |states[0].threads| == 2 && states[0].current == Some(0) && states[1].current == Some(1)
    ensures Is(states[1], 0, Ready)
    ensures traps[0].frame.rax == SYSCALL_RPC_REGISTER
  {
    hide Next, Enabled, Good, Booted, Start;
    var s, t := ToTheCall();
    var t3, t4, s4, s5 := Callback(s[3], 23);
    states, traps := s + [s4, s5], t + [t3, t4];
    forall i: nat | i < |traps| ensures StepAt(states, traps, i) {
      assert i in {0, 1, 2, 3, 4};
    }
    assert Run(states, traps);
    forall m | 2 < m <= 4 ensures Pends(states[m], 0) {
      assert m == 3 || m == 4;
    }
  }

  /** The lost status is real: in this run the server, interrupted while it waits to see OK, will see NOT_SUPPORTED. */
  lemma StatusIsLost() returns (states: seq<KernelState>, traps: seq<Trap>)
    ensures CallSpan(states, traps, 2, 4, 0, 1, 0) && states[0] == Start()
    ensures |states[2].threads| > 0 && states[2].threads[0].resume.status == STATUS_OK
    ensures |states[5].threads| > 0 && states[5].threads[0].resume.status == STATUS_NOT_SUPPORTED
  {
    hide Start;
    states, traps := RunOfACall();
    RunCrosses(states, traps, 0);
    RunCrosses(states, traps, 1);
    hide Run, Pends, Live;
    assert Crosses(states[0], traps[0].frame, ResultAt(states, traps, 0), 0);
    assert Crosses(states[1], traps[1].frame, ResultAt(states, traps, 1), 0);
    assert states[2].threads[0].pendingStatus == STATUS_OK;
    hide CallSpan;
    UnknownCallLeaks(states, traps, 2, 0, 1, 0);
  }

  // ----- Runs in scenes -----

  ghost predicate Chain(s: seq<KernelState>, t: seq<Trap>) {
    |s| == |t| + 1 && forall i: nat :: i < |t| ==> Link(s[i], t[i], s[i + 1])
  }

  lemma ChainsJoin(s: seq<KernelState>, t: seq<Trap>, s': seq<KernelState>, t': seq<Trap>)
    requires Chain(s, t) && Chain(s', t') && s[|t|] == s'[0]
    ensures Chain(s + s'[1..], t + t')
  {
    hide Link;
    var all, traps := s + s'[1..], t + t';
    forall i: nat | i < |traps| ensures Link(all[i], traps[i], all[i + 1]) {
      if i < |t| {
        assert Link(s[i], t[i], s[i + 1]);
      } else {
        assert Link(s'[i - |t|], t'[i - |t|], s'[i - |t| + 1]);
      }
    }
  }

  lemma ChainRuns(s: seq<KernelState>, t: seq<Trap>)
    requires Chain(s, t) && Booted(s[0]) && s[0].nextHandle + |t| <= U64_MAX
    ensures Run(s, t)
  {
    hide Booted, Enabled, Next;
    forall i: nat | i < |t| ensures StepAt(s, t, i) {
      assert Link(s[i], t[i], s[i + 1]);
    }
  }

  // Thread 0 is the server, thread 1 its client. Endpoints: 0 and 2 the server's, 1 the client's own.

  const REGISTERED: Scene :=
    START.(posts := START.posts[0 := Some(Post(0, 0, false))][1 := Some(Post(2, 1, false))])

  lemma BothRegister() returns (s: seq<KernelState>, t: seq<Trap>)
    ensures |t| == 2 && Chain(s, t) && s[0] == Start() && Booted(s[0]) && s[0].nextHandle == 5
    ensures Shows(s[2], REGISTERED) && Good(s[2], 22)
  {
    hide Link, Good, Booted, Shows, Start;
    Boots();
    var s0, c0 := Start(), START;
    var t0, s1, c1 := Registers(s0, c0, 0, 0, Some(1), 20);
    var t1, s2, c2 := Registers(s1, c1, 2, 1, Some(0), 21);
    assert c2 == REGISTERED;
    s, t := [s0, s1, s2], [t0, t1];
  }

  // ----- A server that exits while it serves itself -----

  /** The server holds a channel to itself, and the client has called it. */
  const CALLED: Scene :=
    REGISTERED.(threads := [Running, Blocked], next := 7,
                posts := REGISTERED.posts[2 := Some(Post(1, 0, true))],
                lines := START.lines[0 := Some(Line(5, 0, 0, None, None))][1 := Some(Line(6, 2, 1, Some(1), Some(0)))])

  lemma ClientCalls(s0: KernelState) returns (s: seq<KernelState>, t: seq<Trap>)
    requires Shows(s0, REGISTERED) && Good(s0, 22)
    ensures |t| == 4 && Chain(s, t) && s[0] == s0 && Shows(s[4], CALLED) && Good(s[4], 26)
  {
    hide Link, Good, Shows;
    var t0, s1, c1 := Opens(s0, REGISTERED, 0, 0, 0, 22);
    var t1, s2, c2 := Registers(s1, c1, 1, 2, Some(1), 23);
    var t2, s3, c3 := Opens(s2, c2, 1, 2, 1, 24);
    var t3, s4, c4 := Calls(s3, c3, 1, 0, 25);
    assert c4 == CALLED;
    s, t := [s0, s1, s2, s3, s4], [t0, t1, t2, t3];
  }

  /** The server calls itself, and exits. */
  lemma ServerExits(s0: KernelState) returns (s: seq<KernelState>, t: seq<Trap>)
    requires Shows(s0, CALLED) && Good(s0, 26)
    ensures |t| == 2 && Chain(s, t) && s[0] == s0 && t[1].frame.rax == SYSCALL_THREAD_EXIT
    ensures OwnCallBelow(s[1]) && s[1].current == Some(0)
  {
    hide Link, Good, Shows, OwnCallBelow;
    var t0, s1, c1 := Calls(s0, CALLED, 0, 0, 26);
    SceneTells(s1, c1);
    var t1, s2 := Exit(s1);
    s, t := [s0, s1, s2], [t0, t1];
  }

  lemma Exit(s: KernelState) returns (t: Trap, s': KernelState)
    requires Good(s, 27)
    ensures t.frame.rax == SYSCALL_THREAD_EXIT && Link(s, t, s')
  {
    hide Good, Next, Enabled, HandleTrap;
    var m;
    m, t, s' := Step(s, Syscall(SYSCALL_THREAD_EXIT, 0, 0, 0), 27);
  }

  /** Thread 0 serves itself in channel 0 and thread 1 in channel 1, and nobody is READY. */
  ghost predicate OwnCallBelow(s: KernelState) {
    && IsServer(s, 0, 0) && s.channels[0].value.pendingClient == Some(0)
    && WaitsFor(s, 1, 1, 0) && forall t :: !Is(s, t, Ready)
  }

  lemma SceneTells(s: KernelState, c: Scene)
    requires Shows(s, c) && c.threads == [Running, Blocked] && c.current == 0 && |c.lines| > 1
    requires c.lines[0] == Some(Line(5, 0, 0, Some(0), Some(0))) && c.lines[1] == Some(Line(6, 2, 1, Some(1), Some(0)))
    ensures OwnCallBelow(s) && s.current == Some(0)
  {
    assert ChannelShows(s.channels[0], c.lines[0]) && ChannelShows(s.channels[1], c.lines[1]);
    assert forall t :: 0 <= t < |s.threads| ==> ThreadShows(s.threads[t], t, c.threads[t]);
    hide EndpointOf;
  }

  /** A run in which a server exits with a pending call of its own below that of its client. */
  lemma ServerExitsBusy() returns (states: seq<KernelState>, traps: seq<Trap>)
    ensures |traps| == 8 && ExitAt(states, traps, 7, 0) && states[0] == Start()
    ensures OwnCallBelow(states[7])
  {
    hide Link, Booted, Shows, Good, StepAt, OwnCallBelow, Start;
    var s, t := BothRegister();
    var s', t' := ClientCalls(s[2]);
    var last, exit := ServerExits(s'[4]);
    ChainsJoin(s, t, s', t');
    ChainsJoin(s + s'[1..], t + t', last, exit);
    states, traps := s + s'[1..] + last[1..], t + t' + exit;
    ChainRuns(states, traps);
  }

  /** The stranded client is real: the exit ends the server's call of itself and leaves the client BLOCKED, so that the
      run ends with a thread that the exit should have released. */
  lemma ClientIsStranded() returns (states: seq<KernelState>, traps: seq<Trap>)
    ensures |traps| == 8 && ExitAt(states, traps, 7, 0) && states[0] == Start()
    ensures WaitsFor(states[7], 1, 1, 0) && Is(states[8], 1, Blocked) && traps[7].loaded.None?
  {
    hide StepAt, Booted, Start;
    states, traps := ServerExitsBusy();
    ExitReleasesLowest(states, traps, 7, 0, 1, 1);
    RunStops(states, traps, 7);
  }

  // ----- Two threads that call each other -----

  lemma CallsBack(s0: KernelState) returns (s: seq<KernelState>, t: seq<Trap>)
    requires Shows(s0, REGISTERED) && Good(s0, 22)
    ensures |t| == 5 && Chain(s, t) && s[0] == s0
    ensures t[4].frame.rax == SYSCALL_RPC_CALL && t[4].status == STATUS_OK && t[4].loaded.None?
    ensures Is(s[5], 0, Blocked) && Is(s[5], 1, Blocked)
  {
    hide Link, Good, Shows;
    var t0, s1, c1 := Registers(s0, REGISTERED, 1, 2, Some(1), 22);
    var t1, s2, c2 := Opens(s1, c1, 0, 0, 0, 23);
    var t2, s3, c3 := Calls(s2, c2, 0, 0, 24);
    var t3, s4, c4 := Opens(s3, c3, 2, 1, 1, 25);
    var t4, s5, c5 := Calls(s4, c4, 1, 1, 26);
    s, t := [s0, s1, s2, s3, s4, s5], [t0, t1, t2, t3, t4];
    NothingLoads(s4, t4, s5, c5);
  }

  /** A call from the callback back to the waiting client is accepted, and leaves nobody to run. */
  lemma CallEachOther() returns (states: seq<KernelState>, traps: seq<Trap>)
    ensures |traps| == 7 && Run(states, traps) && states[0] == Start()
    ensures traps[6].frame.rax == SYSCALL_RPC_CALL && traps[6].status == STATUS_OK && traps[6].loaded.None?
    ensures Is(states[7], 0, Blocked) && Is(states[7], 1, Blocked)
  {
    hide Link, Good, Booted, Shows, Start, StepAt;
    var s, t := BothRegister();
    var s', t' := CallsBack(s[2]);
    ChainsJoin(s, t, s', t');
    states, traps := s + s'[1..], t + t';
    ChainRuns(states, traps);
  }

  lemma NothingLoads(s: KernelState, t: Trap, s': KernelState, c: Scene)
    requires Link(s, t, s') && Shows(s', c) && c.threads == [Blocked, Blocked] && c.current < 2
    ensures t.loaded.None? && Is(s', 0, Blocked) && Is(s', 1, Blocked)
  {
    hide HandleTrap, Shape;
    NextIs(s, t);
  }
}
