/**
 The kernel's objects over a whole run: the boot (kernel/user_runtime.cpp, run_initial_user_runtime) makes them, and every
 trap then takes them one step along a run of KernelRuns, so that what holds of runs holds of the objects.
 */
module KernelMachine {
  import opened Words
  import opened Status
  import opened Search
  import opened AddressSpaces
  import opened UserCopy
  import opened KernelModel
  import opened KernelBoot
  import opened KernelInvariant
  import opened KernelRuns
  import opened KernelObjects
  import opened KernelRuntime

  /** The first slots of the boot, as objects. */
  ghost predicate Made(configurations: seq<Configuration>, processes: seq<ProcessRecord>, threads: seq<Thread>)
    reads threads
  {
    && |processes| == |threads| <= |configurations| < 0x1_0000_0000
    && forall i :: 0 <= i < |threads| ==>
         && processes[i] == BootProcess(configurations[i], i) && threads[i].slot == i
         && threads[i].Record() == BootThread(configurations[i], i, Ready)
  }

  /** A process and its thread for each configuration, as long as the tables have room: create_process and
      create_thread, drawing two handles at a time. */
  method CreateInitialProcesses(configurations: seq<Configuration>, limits: Limits)
    returns (processes: seq<ProcessRecord>, threads: seq<Thread>, nextHandle: u64)
    requires |configurations| < 0x1_0000_0000
    ensures Made(configurations, processes, threads) && forall t :: t in threads ==> fresh(t)
    ensures nextHandle == 2 * |threads| + 1
    ensures |threads| == |configurations| <==> |configurations| <= limits.processes && |configurations| <= limits.threads
  {
    processes, threads, nextHandle := [], [], 1;
    for index := 0 to |configurations|
      invariant |threads| == index <= limits.processes && index <= limits.threads && nextHandle == 2 * index + 1
      invariant Made(configurations, processes, threads) && forall t :: t in threads ==> fresh(t)
    {
      if index >= limits.processes || index >= limits.threads {
        return;
      }
      var processHandle := nextHandle;
      processes := processes + [ProcessRecord(processHandle, configurations[index].mappings)];
      var threadHandle := processHandle + 1;
      var t := new Thread(index, threadHandle, index, configurations[index].context);
      threads := threads + [t];
      nextHandle := threadHandle + 1;
    }
  }

  ghost predicate Cleared(endpoints: seq<RpcEndpoint>, count: nat)
    reads endpoints
  {
    |endpoints| == count && forall i :: 0 <= i < count ==>
                              endpoints[i].slot == i && endpoints[i].Record() == CLEAR_ENDPOINT
                              && endpoints[i].ownerThread == null
  }

  method ClearEndpoints(count: nat) returns (endpoints: seq<RpcEndpoint>)
    ensures Cleared(endpoints, count) && forall e :: e in endpoints ==> fresh(e)
  {
    endpoints := [];
    for index := 0 to count
      invariant Cleared(endpoints, index) && forall e :: e in endpoints ==> fresh(e)
    {
      var e := new RpcEndpoint(index);
      endpoints := endpoints + [e];
    }
  }

  lemma InitialRuns(configurations: seq<Configuration>, initial: nat, limits: Limits, memory: seq<u8>)
    requires Bootable(configurations, initial, limits) && Shape(BootState(configurations, None, limits, memory))
    ensures SetCurrent(BootState(configurations, None, limits, memory), Some(initial))
         == BootState(configurations, Some(initial), limits, memory)
  {
    hide Shape;
    var s, r := BootState(configurations, Some(initial), limits, memory), BootState(configurations, None, limits, memory);
    assert s.threads == r.threads[initial := r.threads[initial].(state := Running)];
  }

  lemma ThreadsAssembled(r: UserRuntime, configurations: seq<Configuration>, limits: Limits)
    requires Made(configurations, r.processes, r.threads) && |r.threads| == |configurations|
    ensures r.ThreadRecords() == BootState(configurations, None, limits, r.memory[..]).threads
    ensures r.processes == BootState(configurations, None, limits, r.memory[..]).processes
  {
    hide BootThread, BootProcess;
  }

  lemma Assembled(r: UserRuntime, configurations: seq<Configuration>, limits: Limits)
    requires Made(configurations, r.processes, r.threads) && |r.threads| == |configurations|
    requires Cleared(r.endpoints, limits.endpoints)
    requires r.channels == seq(limits.channels, _ => null) && r.otherHandles == {} && r.current == null
    requires r.nextHandle == 2 * |configurations| + 1
    requires forall i :: 0 <= i < |configurations| ==> WellFormed(configurations[i].mappings)
    requires Shape(BootState(configurations, None, limits, r.memory[..]))
    ensures r.Valid() && r.State() == BootState(configurations, None, limits, r.memory[..])
  {
    hide WellFormed, Shape, BootThread;
    ThreadsAssembled(r, configurations, limits);
    LinkedAtBoot(r);
    TablesAssembled(r, configurations, limits);
    hide Cleared;
  }

  lemma LinkedAtBoot(r: UserRuntime)
    requires forall i :: 0 <= i < |r.threads| ==> r.threads[i].slot == i
    requires Cleared(r.endpoints, |r.endpoints|) && r.current == null
    requires r.channels == seq(|r.channels|, _ => null)
    ensures r.Linked()
  {
  }

  lemma TablesAssembled(r: UserRuntime, configurations: seq<Configuration>, limits: Limits)
    requires |configurations| < 0x1_0000_0000 && Cleared(r.endpoints, limits.endpoints)
    requires r.channels == seq(limits.channels, _ => null)
    ensures var s := BootState(configurations, None, limits, r.memory[..]);
            r.EndpointRecords() == s.endpoints && r.ChannelRecords() == s.channels
  {
    hide BootThread, BootProcess;
  }

  // ----- Runs of the objects -----

  /** What user code has seen of the kernel since it booted. */
  datatype History = History(states: seq<KernelState>, traps: seq<Trap>)

  ghost function Last(h: History): KernelState
    requires |h.states| == |h.traps| + 1
  {
    h.states[|h.traps|]
  }

  /** The objects are where the run h has brought them, but for what user code did to user memory since. */
  ghost predicate Lives(r: UserRuntime, h: History)
    reads r, r.memory, r.threads, r.endpoints, r.channels
  {
    && r.Valid() && Run(h.states, h.traps) && |Last(h).memory| == r.memory.Length
    && r.State() == Last(h).(memory := r.memory[..])
  }

  lemma BootLives(r: UserRuntime, configurations: seq<Configuration>, initial: nat, limits: Limits)
    requires r.Valid() && Bootable(configurations, initial, limits)
    requires r.State() == BootState(configurations, Some(initial), limits, r.memory[..]) && Booted(r.State())
    ensures Lives(r, History([r.State()], []))
  {
    hide Booted, Shape;
    assert r.State().nextHandle <= U64_MAX;
  }

  /** The boot, up to entering the initial thread; null stands for a panic. */
  method RunInitialUserRuntime(configurations: seq<Configuration>, initial: nat, limits: Limits, memory: array<u8>)
    returns (r: UserRuntime?)
    requires forall i :: 0 <= i < |configurations| ==>
               WellFormed(configurations[i].mappings) && InMemory(configurations[i].mappings, memory.Length)
    ensures r == null <==> !Bootable(configurations, initial, limits)
    ensures r != null ==> fresh(r) && r.memory == memory && r.Valid()
                          && r.State() == BootState(configurations, Some(initial), limits, memory[..])
                          && Lives(r, History([r.State()], []))
  {
    hide WellFormed, InMemory, BootState, Shape, Booted, Lives;
    if |configurations| == 0 || |configurations| > limits.initialProcesses {
      return null;
    }
    if initial >= |configurations| {
      return null;
    }
    var processes, threads, nextHandle := CreateInitialProcesses(configurations, limits);
    if |threads| < |configurations| {
      return null;
    }
    var endpoints := ClearEndpoints(limits.endpoints);
    r := new UserRuntime(processes, threads, endpoints, limits.channels, memory, nextHandle);
    BootShape(configurations, None, limits, memory[..]);
    Assembled(r, configurations, limits);
    InitialRuns(configurations, initial, limits, memory[..]);
    assert threads[initial] in threads;
    r.SetCurrentThread(threads[initial]);
    BootStateIsBooted(configurations, initial, limits, memory[..]);
    BootLives(r, configurations, initial, limits);
  }

  /** User code may do anything to user memory. */
  twostate lemma UserCodeKeeps(r: UserRuntime, h: History)
    requires old(Lives(r, h)) && unchanged(r) && forall t :: t in r.threads ==> unchanged(t)
    requires forall e :: e in r.endpoints ==> unchanged(e)
    requires forall c :: c in r.channels && c != null ==> unchanged(c)
    ensures Lives(r, h)
  {
    r.SameThreads();
    r.SameEndpoints();
    r.SameChannels();
    hide Shape, Run;
    assert r.State() == old(r.State()).(memory := r.memory[..]);
    MemoryShape(old(r.State()), r.memory[..]);
    assert forall i :: 0 <= i < |r.endpoints| ==> r.endpoints[i] in r.endpoints;
    assert forall i :: 0 <= i < |r.channels| ==> r.channels[i] in r.channels;
  }

  lemma MemoryShape(s: KernelState, memory: seq<u8>)
    requires Shape(s) && |memory| == |s.memory|
    ensures Shape(s.(memory := memory))
  {
  }

  /** One trap of the objects is one more step of their run. */
  method ServeTrap(r: UserRuntime, frame: Frame, ghost h: History) returns (next: Option<Frame>, ghost h': History)
    requires Lives(r, h) && Runnable(r.State()) && FrameShape(frame) && h.states[0].nextHandle + |h.traps| < U64_MAX
    modifies r`current, r`channels, r`nextHandle, r.threads, r.endpoints, r.channels, r.memory
    ensures Lives(r, h') && (next.Some? <==> Runnable(r.State()))
    ensures h'.states == h.states + [r.State()]
    ensures h'.traps == h.traps + [Trap(frame, old(r.memory[..]), HandleTrap(old(r.State()), frame).status, next)]
  {
    hide Shape, HandleTrap, Booted, StepAt;
    ghost var s := r.State();
    next := r.HandleSyscall(frame);
    ghost var trap := Trap(frame, s.memory, HandleTrap(s, frame).status, next);
    h' := History(h.states + [r.State()], h.traps + [trap]);
    RunGoesOn(h.states, h.traps, s, trap, r.State());
  }

  lemma RunGoesOn(states: seq<KernelState>, traps: seq<Trap>, s: KernelState, trap: Trap, s': KernelState)
    requires Run(states, traps) && states[0].nextHandle + |traps| < U64_MAX
    requires s == states[|traps|].(memory := trap.memory) && |trap.memory| == |states[|traps|].memory|
    requires Shape(s) && Runnable(s) && FrameShape(trap.frame)
    requires HandleTrap(s, trap.frame) == TrapResult(s', trap.status, trap.loaded)
    ensures Run(states + [s'], traps + [trap])
  {
    hide Rpc, Handles, Shape, HandleTrap, Booted, StepAt;
    var all, ts := states + [s'], traps + [trap];
    RunInv(states, traps, |traps|);
    LastStep(all, ts, s);
    forall i: nat | i < |ts| ensures StepAt(all, ts, i) {
      if i < |traps| {
        SameStep(states, traps, all, ts, i);
      }
    }
  }

  lemma LastStep(states: seq<KernelState>, traps: seq<Trap>, s: KernelState)
    requires |states| == |traps| + 1 && |traps| > 0
    requires var n, trap := |traps| - 1, traps[|traps| - 1];
             && Shape(states[n]) && Shape(s) && Runnable(s) && FrameShape(trap.frame)
             && |trap.memory| == |states[n].memory| && s == states[n].(memory := trap.memory)
             && HandleTrap(s, trap.frame) == TrapResult(states[n + 1], trap.status, trap.loaded)
    ensures StepAt(states, traps, |traps| - 1)
  {
    hide Shape, HandleTrap;
  }

  lemma SameStep(states: seq<KernelState>, traps: seq<Trap>, all: seq<KernelState>, ts: seq<Trap>, i: nat)
    requires i < |traps| < |states| <= |all| && |traps| <= |ts| < |all| && StepAt(states, traps, i)
    requires all[i] == states[i] && all[i + 1] == states[i + 1] && ts[i] == traps[i]
    ensures StepAt(all, ts, i)
  {
    hide Enabled, Next;
  }

  // ----- What holds of the objects -----

  lemma LivesInv(r: UserRuntime, h: History)
    requires Lives(r, h)
    ensures Inv(r.State())
  {
    hide Rpc, Handles, Shape, Booted, StepAt;
    RunInv(h.states, h.traps, |h.traps|);
    MemoryKeeps(Last(h), r.memory[..]);
  }

  /** However user code has behaved, one thread object at most is RUNNING, and it is the current one; as long as a thread
      is runnable, the current one is RUNNING. */
  lemma OneThreadRuns(r: UserRuntime, h: History)
    requires Lives(r, h)
    ensures forall t, u :: t in r.threads && u in r.threads && t.state == Running && u.state == Running ==>
              t == u && r.current == t
    ensures r.HasRunnableThread() ==> r.current.state == Running
  {
    LivesInv(r, h);
    var s := r.State();
    forall t | t in r.threads && t.state == Running ensures r.current == t {
      var i :| 0 <= i < |r.threads| && r.threads[i] == t;
      assert s.threads[i] == t.Record() && Is(s, i, Running);
    }
    if r.HasRunnableThread() {
      assert s.threads[r.current.slot] == r.current.Record();
    }
    hide Lives, Shape, Handles;
  }

  ghost predicate PendsOn(c: RpcChannel?, e: RpcEndpoint)
    reads c
  {
    c != null && c.endpoint == e && c.pendingServer != null
  }

  /** An endpoint object in use is busy exactly while a channel object waits on it for the endpoint's thread. */
  lemma BusyEndpointsServe(r: UserRuntime, h: History, e: RpcEndpoint)
    requires Lives(r, h) && e in r.endpoints
    ensures e.busy ==> e.inUse
    ensures e.busy <==> exists c :: c in r.channels && PendsOn(c, e) && c.pendingServer == e.ownerThread
  {
    LivesInv(r, h);
    var s := r.State();
    var i :| 0 <= i < |r.endpoints| && r.endpoints[i] == e;
    assert s.endpoints[i] == e.Record();
    hide Handles, SavedReady, OneReply, BlockedWaits;
    if e.busy {
      var k :| PendingAt(s, k, i);
      assert r.channels[k] in r.channels && s.channels[k].value == r.channels[k].Record();
      hide Rpc;
      assert PendsOn(r.channels[k], e);
    }
    if c :| c in r.channels && PendsOn(c, e) && c.pendingServer == e.ownerThread {
      var k :| 0 <= k < |r.channels| && r.channels[k] == c;
      assert s.channels[k] == Some(c.Record());
      assert IsServer(s, k, c.pendingServer.slot);
    }
  }

  ghost predicate AwaitedIn(t: Thread, c: RpcChannel?)
    reads c
  {
    c != null && c.pendingClient == t && c.pendingServer != t
  }

  /** A thread object is BLOCKED exactly while one channel object waits for another thread's reply to it. */
  lemma BlockedThreadsAwait(r: UserRuntime, h: History, t: Thread)
    requires Lives(r, h) && t in r.threads
    ensures t.state == Blocked <==> exists c :: c in r.channels && AwaitedIn(t, c)
    ensures forall c, d :: c in r.channels && AwaitedIn(t, c) && d in r.channels && AwaitedIn(t, d) ==> c == d
  {
    LivesInv(r, h);
    var s := r.State();
    var i :| 0 <= i < |r.threads| && r.threads[i] == t;
    assert s.threads[i] == t.Record();
    hide Handles, SavedReady, PendingIsBusy, BusyIsPending, OneCallPerEndpoint, DistinctNames, EndpointOwners;
    forall c | c in r.channels && AwaitedIn(t, c)
      ensures exists k :: 0 <= k < |r.channels| && r.channels[k] == c && CrossClient(s, k, i)
    {
      var k :| 0 <= k < |r.channels| && r.channels[k] == c;
      assert s.channels[k] == Some(c.Record());
      assert CrossClient(s, k, i);
    }
    if t.state == Blocked {
      assert Is(s, i, Blocked);
      var k :| CrossClient(s, k, i);
      assert r.channels[k] in r.channels && s.channels[k].value == r.channels[k].Record();
      assert AwaitedIn(t, r.channels[k]);
    }
  }
}
