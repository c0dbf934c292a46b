/**
 Handles of clients over whole runs: an RPC_OPEN that answers OK hands its caller the handle of a channel to the endpoint
 it named, and until that process closes it, and no longer, the handle names that channel.
 */
module KernelOpening {
  import opened Words
  import opened Status
  import opened Search
  import opened AddressSpaces
  import opened UserCopy
  import opened KernelModel
  import opened KernelBoot
  import opened KernelInvariant
  import opened KernelEffects
  import opened KernelRuns
  import opened KernelTransparency
  import opened KernelDelivery
  import opened KernelEvolution
  import opened KernelAnswers
  import KernelDirectory

  // ----- One trap -----

  /** What each RPC system call answers, by the registers of the trap: the call number is in rax, the arguments are in rdi,
      rsi and rdx. */
  lemma TrapAnswers(s: KernelState, f: Frame)
    requires Inv(s) && Runnable(s) && FrameShape(f)
    ensures var e, active, status := Enter(s, f), s.current.value, HandleTrap(s, f).status;
            && (f.rax == SYSCALL_RPC_REGISTER ==> RegisterAnswer(e, active, f.rdi, f.rsi, f.rdx, status))
            && (f.rax == SYSCALL_RPC_OPEN ==> OpenAnswer(e, active, f.rdi, f.rsi, status))
            && (f.rax == SYSCALL_RPC_CALL ==> CallAnswer(e, active, f.rdi, f.rsi, f.rdx, status))
            && (f.rax == SYSCALL_RPC_CLOSE ==> CloseAnswer(e, active, f.rdi, status))
  {
    EnterKeeps(s, f);
    TrapIs(s, f);
    ServedParts(s, f);
    var e, active := Enter(s, f), s.current.value;
    hide Rpc, Handles, Shape, HandleTrap, Enter, Served, Serve, Entered, PendingByServer, Register, Open, Call, Close,
      RegisterAnswer, OpenAnswer, CallAnswer, CloseAnswer, Runnable;
    if f.rax == SYSCALL_RPC_REGISTER { RegisterStatus(e, active, CallOf(f)); }
    else if f.rax == SYSCALL_RPC_OPEN { OpenStatus(e, active, CallOf(f)); }
    else if f.rax == SYSCALL_RPC_CALL { CallStatus(e, active, CallOf(f)); }
    else if f.rax == SYSCALL_RPC_CLOSE { CloseStatus(e, active, CallOf(f)); }
  }

  /** The system call a trap makes. */
  lemma ServedParts(s: KernelState, f: Frame)
    requires Shape(s) && s.current.Some? && FrameShape(f)
    ensures var e, active := Enter(s, f), s.current.value;
            && Served(s, f) == Serve(e, active, CallOf(f))
            && (f.rax == SYSCALL_RPC_REGISTER ==> Served(s, f) == Register(e, active, CallOf(f)))
            && (f.rax == SYSCALL_RPC_OPEN ==> Served(s, f) == Open(e, active, CallOf(f)))
            && (f.rax == SYSCALL_RPC_CALL ==> Served(s, f) == Call(e, active, CallOf(f)))
            && (f.rax == SYSCALL_RPC_CLOSE ==> Served(s, f) == Close(e, active, CallOf(f)))
            && (f.rax == SYSCALL_THREAD_EXIT ==> Served(s, f).state == TerminateCurrent(e, f.rdi, STATUS_PEER_CLOSED))
  {
    hide Shape, Enter, Register, Open, Call, Close, CompleteCall, TerminateCurrent, DebugLog;
  }

  /** What a thread's return from a system call is made of. */
  predicate SameReturn(t: ThreadRecord, t': ThreadRecord) {
    t'.context == t.context && t'.registers == t.registers && t'.simd == t.simd
  }

  /** A caller that goes on after any call but RPC_COMPLETE has its context and registers as it entered with them. */
  lemma ServeKeepsCaller(s: KernelState, active: nat, call: SyscallContext)
    requires Executing(s, active) && s.nextHandle < U64_MAX
    ensures var s' := Serve(s, active, call).state;
            |s'.threads| == |s.threads|
            && (call.number != SYSCALL_RPC_COMPLETE && s'.current == Some(active) && Runnable(s') ==>
                  SameReturn(s.threads[active], s'.threads[active]))
  {
    hide Rpc, Handles, Shape, Register, Open, Call, Close, CompleteCall, TerminateCurrent, DebugLog, Opened, HandleWritten,
      StringIs, PrepareServer;
    if call.number == SYSCALL_THREAD_EXIT {
      ExitAnswers(s, active, call.argument0);
      hide Left;
    } else if call.number == SYSCALL_RPC_REGISTER {
      RegisterKeepsCaller(s, active, call);
    } else if call.number == SYSCALL_RPC_OPEN {
      OpenAside(s, active, call);
    } else if call.number == SYSCALL_RPC_CALL {
      var k, server := CallEffect(s, active, call);
    } else if call.number == SYSCALL_RPC_CLOSE {
      CloseThreads(s, active, call);
    }
  }

  lemma RegisterKeepsCaller(s: KernelState, active: nat, call: SyscallContext)
    requires Executing(s, active)
    ensures var s' := Register(s, active, call).state; s'.current == Some(active) ==> s'.threads == s.threads
  {
    hide Rpc, Handles, Register, StringIs, IsServer;
    if Register(s, active, call).status == STATUS_OK {
      var e, name := RegisterGives(s, active, call);
    } else {
      RegisterRefuses(s, active, call);
    }
    hide Shape;
  }

  lemma ReturnsFrame(t: ThreadRecord, t': ThreadRecord, f: Frame, status: i32)
    requires |t.registers| == REGISTER_COUNT && SameReturn(Entered(t, f), t')
    ensures |t'.registers| == REGISTER_COUNT && LoadFrame(PrepareSyscallResume(t', status)) == ReturnFrame(f, status)
  {
  }

  /** A system call that returns to its caller, RPC_COMPLETE aside, loads the caller's own frame with the status, sign-
      extended, in rax, and rdx, r8, r9 and r10 zero. */
  lemma TrapReturns(s: KernelState, f: Frame)
    requires Inv(s) && Runnable(s) && FrameShape(f) && s.nextHandle < U64_MAX && f.rax != SYSCALL_RPC_COMPLETE
    ensures var r := HandleTrap(s, f);
            r.frame.Some? && r.state.current == s.current ==> r.frame == Some(ReturnFrame(f, r.status))
  {
    EnterKeeps(s, f);
    TrapIs(s, f);
    ServedParts(s, f);
    var e, active := Enter(s, f), s.current.value;
    hide Rpc, Handles, Shape, HandleTrap, Enter, Served, Serve, PendingByServer, LoadFrame, ReturnFrame;
    ServeKeepsCaller(e, active, CallOf(f));
    var after := Served(s, f);
    if Runnable(after.state) && after.state.current == Some(active) {
      ReturnsFrame(s.threads[active], after.state.threads[active], f, after.status);
    }
  }

  /** States that differ in threads and memory only, and not in their handles. */
  ghost predicate SameNames(s: KernelState, s': KernelState) {
    && s'.processes == s.processes && s'.otherHandles == s.otherHandles && |s'.threads| == |s.threads|
    && s'.channels == s.channels && s'.nextHandle == s.nextHandle
    && forall t :: 0 <= t < |s.threads| ==>
                     s'.threads[t].handle == s.threads[t].handle && s'.threads[t].process == s.threads[t].process
  }

  lemma SameNamesFind(s: KernelState, s': KernelState, owner: nat, h: u64)
    requires SameNames(s, s')
    ensures LookupChannel(s', owner, h) == LookupChannel(s, owner, h) && (ObjectExists(s', h) <==> ObjectExists(s, h))
  {
    ObjectsUnchanged(s, s');
    hide FirstIn, ObjectExists;
  }

  /** The way into and out of a system call renames nothing. */
  lemma TrapNames(s: KernelState, f: Frame)
    requires Inv(s) && Runnable(s) && FrameShape(f)
    ensures SameNames(s, Enter(s, f)) && SameNames(Served(s, f).state, HandleTrap(s, f).state)
    ensures var e, r := Enter(s, f), HandleTrap(s, f).state;
            && e == s.(threads := e.threads) && r == Served(s, f).state.(threads := r.threads)
  {
    EnterNames(s, f);
    TrapIs(s, f);
    var active, after := s.current.value, Served(s, f);
    hide Inv, Rpc, Shape, HandleTrap, Enter, Served, SameNames;
    if Runnable(after.state) && after.state.current == Some(active) {
      PutNames(after.state, active, PrepareSyscallResume(after.state.threads[active], after.status));
    } else {
      SameNamesSame(after.state);
    }
  }

  lemma EnterNames(s: KernelState, f: Frame)
    requires Inv(s) && Runnable(s) && FrameShape(f)
    ensures SameNames(s, Enter(s, f)) && Enter(s, f) == s.(threads := Enter(s, f).threads)
  {
    EnterKeeps(s, f);
    hide Inv, Rpc, Shape, Enter, PendingByServer, Runnable;
  }

  lemma PutNames(s: KernelState, i: nat, t: ThreadRecord)
    requires Shape(s) && i < |s.threads| && ThreadShape(t, |s.processes|)
    requires t.handle == s.threads[i].handle && t.process == s.threads[i].process
    ensures SameNames(s, PutThread(s, i, t)) && PutThread(s, i, t) == s.(threads := PutThread(s, i, t).threads)
  {
    hide Shape;
  }

  lemma SameNamesSame(s: KernelState)
    ensures SameNames(s, s)
  {
  }

  lemma OpenedAcross(s: KernelState, s1: KernelState, s2: KernelState, s': KernelState, owner: nat, k: nat, e: nat, h: u64)
    requires Opened(s1, s2, owner, k, e, h) && SameNames(s, s1) && SameNames(s2, s')
    requires s1 == s.(threads := s1.threads) && s' == s2.(threads := s'.threads)
    ensures Opened(s, s', owner, k, e, h)
  {
    SameNamesFind(s, s1, owner, h);
    SameNamesFind(s2, s', owner, h);
    hide LookupChannel, ObjectExists;
    assert forall j :: Live(s, j) == Live(s1, j);
  }

  /** What an RPC_OPEN that answers OK did, from the caller's side. */
  ghost predicate Opens(s: KernelState, f: Frame, s': KernelState, k: nat, e: nat, h: u64)
    requires Shape(s) && s.current.Some?
  {
    var active := s.current.value;
    && Opened(s, s', s.threads[active].process, k, e, h)
    && e < |s.endpoints| && s.endpoints[e].inUse && Says(s, active, f.rdi, s.endpoints[e].name)
    && HandleWritten(s.memory, s'.memory, MapsOf(s, active), f.rsi, h)
  }

  lemma TrapOpens(s: KernelState, f: Frame) returns (k: nat, e: nat, h: u64)
    requires Inv(s) && Runnable(s) && FrameShape(f) && s.nextHandle < U64_MAX
    requires f.rax == SYSCALL_RPC_OPEN && HandleTrap(s, f).status == STATUS_OK
    ensures Opens(s, f, HandleTrap(s, f).state, k, e, h)
  {
    EnterKeeps(s, f);
    TrapIs(s, f);
    TrapNames(s, f);
    ServedParts(s, f);
    var s1, active := Enter(s, f), s.current.value;
    assert MapsOf(s1, active) == MapsOf(s, active);
    hide Rpc, Handles, HandleTrap, Enter, Served, Open, PendingByServer, Opened, HandleWritten, StringIs, Entered, Runnable;
    k, e, h := OpenGives(s1, active, CallOf(f));
    hide Shape;
    OpenedAcross(s, s1, Served(s, f).state, HandleTrap(s, f).state, s.threads[active].process, k, e, h);
  }

  /** The trap closes handle h of process p. */
  ghost predicate Closes(s: KernelState, f: Frame, status: i32, p: nat, h: u64) {
    && f.rax == SYSCALL_RPC_CLOSE && status == STATUS_OK && f.rdi == h
    && s.current.Some? && s.current.value < |s.threads| && s.threads[s.current.value].process == p
  }

  /** Channel k is process p's, under handle h, to endpoint e. */
  ghost predicate Holds(s: KernelState, p: nat, k: int, h: u64, e: nat) {
    && Live(s, k) && s.channels[k].value.handle == h && s.channels[k].value.clientProcess == p
    && s.channels[k].value.endpoint == e
  }

  lemma HoldsIsFound(s: KernelState, p: nat, k: nat, h: u64)
    requires Handles(s)
    ensures LookupChannel(s, p, h) == Found(k) <==> Live(s, k) && Holds(s, p, k, h, s.channels[k].value.endpoint)
  {
    LookupIsExact(s, p, h);
    hide Handles, LookupChannel, ObjectExists;
  }

  lemma KeptHolds(s: KernelState, s': KernelState, p: nat, k: nat, h: u64, e: nat)
    requires Holds(s, p, k, h, e) && ChannelsKept(s, s')
    ensures Holds(s', p, k, h, e)
  {
    assert SameChannel(s.channels[k], s'.channels[k]);
  }

  lemma OpenHolds(s: KernelState, active: nat, call: SyscallContext, p: nat, k: nat, h: u64, e: nat)
    requires Executing(s, active) && s.nextHandle < U64_MAX && Holds(s, p, k, h, e)
    ensures Holds(Open(s, active, call).state, p, k, h, e)
  {
    hide Rpc, Handles, Shape, Open, HandleWritten, HostTarget, Runnable;
    if Open(s, active, call).status == STATUS_OK {
      var j, d, g := OpenGives(s, active, call);
    } else {
      OpenRefuses(s, active, call);
    }
  }

  lemma CloseHolds(s: KernelState, active: nat, call: SyscallContext, p: nat, k: nat, h: u64, e: nat)
    requires Executing(s, active) && Holds(s, p, k, h, e)
    ensures var r := Close(s, active, call);
            r.status != STATUS_OK || call.argument0 != h || s.threads[active].process != p ==> Holds(r.state, p, k, h, e)
  {
    hide Rpc, Handles, Shape, Close, LookupChannel, Runnable;
    if Close(s, active, call).status == STATUS_OK {
      var j := CloseGives(s, active, call);
    } else {
      CloseRefuses(s, active, call);
    }
  }

  /** A channel outlives every trap but its own process's RPC_CLOSE. */
  lemma TrapHolds(s: KernelState, f: Frame, p: nat, k: nat, h: u64, e: nat)
    requires Inv(s) && Runnable(s) && FrameShape(f) && s.nextHandle < U64_MAX && Holds(s, p, k, h, e)
    ensures var r := HandleTrap(s, f); Closes(s, f, r.status, p, h) || Holds(r.state, p, k, h, e)
  {
    EnterKeeps(s, f);
    TrapIs(s, f);
    TrapNames(s, f);
    var s1, active := Enter(s, f), s.current.value;
    ServedParts(s, f);
    hide Rpc, Handles, HandleTrap, Enter, Served, PendingByServer, Entered, Runnable, Open, Close;
    ServeKin(s1, active, CallOf(f));
    hide Shape, Serve;
    if f.rax == SYSCALL_RPC_OPEN {
      OpenHolds(s1, active, CallOf(f), p, k, h, e);
    } else if f.rax == SYSCALL_RPC_CLOSE {
      CloseHolds(s1, active, CallOf(f), p, k, h, e);
    } else {
      KeptHolds(s1, Served(s, f).state, p, k, h, e);
    }
  }

  /** After a trap that closes it a handle names nothing, to any process. */
  lemma TrapCloses(s: KernelState, f: Frame, p: nat, h: u64, q: nat)
    requires Inv(s) && Runnable(s) && FrameShape(f) && Closes(s, f, HandleTrap(s, f).status, p, h)
    ensures LookupChannel(HandleTrap(s, f).state, q, h) == Refused(STATUS_BAD_HANDLE)
  {
    EnterKeeps(s, f);
    TrapIs(s, f);
    TrapNames(s, f);
    ServedParts(s, f);
    var s1, active := Enter(s, f), s.current.value;
    hide Rpc, Handles, HandleTrap, Enter, Served, Serve, PendingByServer, Entered, Runnable, Close, Shape, LookupChannel;
    var k := CloseGives(s1, active, CallOf(f));
    SameNamesFind(Served(s, f).state, HandleTrap(s, f).state, q, h);
  }

  /** After an RPC_REGISTER that answers OK one endpoint that was free is the caller's, under the string at argument 0,
      with argument 1 as its callback and argument 2 as its completion address; no other endpoint differs. */
  lemma TrapRegisters(s: KernelState, f: Frame) returns (e: nat, name: seq<u8>)
    requires Inv(s) && Runnable(s) && FrameShape(f)
    requires f.rax == SYSCALL_RPC_REGISTER && HandleTrap(s, f).status == STATUS_OK
    ensures e < |s.endpoints| && !s.endpoints[e].inUse && Says(s, s.current.value, f.rdi, name)
    ensures var r, active := HandleTrap(s, f).state, s.current.value;
            && r.endpoints == s.endpoints[e := EndpointRecord(
                 true, false, name, Some(s.threads[active].process), Some(active), f.rsi, f.rdx)]
            && r.channels == s.channels && r.memory == s.memory
  {
    EnterKeeps(s, f);
    TrapNames(s, f);
    TrapIs(s, f);
    var s1, active := Enter(s, f), s.current.value;
    ServedParts(s, f);
    assert MapsOf(s1, active) == MapsOf(s, active);
    hide Rpc, Handles, HandleTrap, Enter, Served, Register, PendingByServer, StringIs, Entered, Runnable, Yielded;
    e, name := RegisterGives(s1, active, CallOf(f));
    hide Shape;
  }

  /** THREAD_EXIT leaves the caller EXITED with argument 0 as its exit status and no endpoint, keeps the endpoints of the
      other threads, and the READY thread that comes first in cyclic order runs next. */
  lemma TrapExits(s: KernelState, f: Frame)
    requires Inv(s) && Runnable(s) && FrameShape(f) && f.rax == SYSCALL_THREAD_EXIT
    ensures var r := HandleTrap(s, f).state; Left(s, r, s.current.value, f.rdi) && HandedOver(r, s.current.value)
  {
    EnterKeeps(s, f);
    TrapIs(s, f);
    ServedParts(s, f);
    var s1, active := Enter(s, f), s.current.value;
    hide Rpc, Handles, HandleTrap, Enter, Served, PendingByServer, Entered, TerminateCurrent, Shape, HandedOver;
    ExitAnswers(s1, active, f.rdi);
    LeftAcross(s, s1, Served(s, f).state, active, f.rdi);
    hide Left;
    ExitLoads(Served(s, f).state, HandleTrap(s, f).state, active);
  }

  lemma LeftAcross(s: KernelState, s1: KernelState, s': KernelState, active: nat, exitStatus: u64)
    requires Left(s1, s', active, exitStatus) && s1.endpoints == s.endpoints && s1.memory == s.memory
    ensures Left(s, s', active, exitStatus)
  {
  }

  lemma ExitLoads(s: KernelState, s': KernelState, active: nat)
    requires s' == s || (s.current == Some(active) && Runnable(s))
    requires HandedOver(s, active)
    ensures s' == s
  {
  }

  // ----- Runs -----

  /** Trap i of a run opens channel k to endpoint e under handle h. */
  ghost predicate OpensAt(states: seq<KernelState>, traps: seq<Trap>, i: nat, k: nat, e: nat, h: u64)
    requires i < |traps| < |states|
  {
    var s := states[i].(memory := traps[i].memory);
    Shape(s) && s.current.Some? && Opens(s, traps[i].frame, states[i + 1], k, e, h)
  }

  lemma OpenInRun(states: seq<KernelState>, traps: seq<Trap>, i: nat) returns (k: nat, e: nat, h: u64)
    requires Run(states, traps) && i < |traps|
    requires traps[i].frame.rax == SYSCALL_RPC_OPEN && traps[i].status == STATUS_OK
    ensures OpensAt(states, traps, i, k, e, h)
  {
    hide Inv, Rpc, Next, StepAt, Opens, HandleTrap, Shape, Booted, Runnable;
    RunInv(states, traps, i);
    StepOf(states, traps, i);
    NextIs(states[i], traps[i]);
    var s := MemoryInv(states[i], traps[i]);
    k, e, h := TrapOpens(s, traps[i].frame);
  }

  /** Trap m of a run closes handle h of process p. */
  ghost predicate ClosesAt(states: seq<KernelState>, traps: seq<Trap>, m: nat, p: nat, h: u64)
    requires m < |traps| <= |states|
  {
    Closes(states[m], traps[m].frame, traps[m].status, p, h)
  }

  lemma StepHolds(states: seq<KernelState>, traps: seq<Trap>, m: nat, p: nat, k: nat, h: u64, e: nat)
    requires Run(states, traps) && m < |traps| && Holds(states[m], p, k, h, e)
    ensures ClosesAt(states, traps, m, p, h) || Holds(states[m + 1], p, k, h, e)
    ensures ClosesAt(states, traps, m, p, h) ==> LookupChannel(states[m + 1], p, h) == Refused(STATUS_BAD_HANDLE)
  {
    hide Inv, Rpc, Next, StepAt, HandleTrap, Shape, Booted, LookupChannel, Runnable;
    RunInv(states, traps, m);
    StepOf(states, traps, m);
    NextIs(states[m], traps[m]);
    var s := MemoryInv(states[m], traps[m]);
    TrapHolds(s, traps[m].frame, p, k, h, e);
    if ClosesAt(states, traps, m, p, h) {
      TrapCloses(s, traps[m].frame, p, h, p);
    }
  }

  /** A handle goes on naming its channel, and through it the same endpoint, until its process closes it; from then on it
      is refused with BAD_HANDLE. */
  lemma {:induction false} NamedUntilClosed(states: seq<KernelState>, traps: seq<Trap>, i: nat, j: nat,
                                            p: nat, k: nat, h: u64, e: nat)
    requires Run(states, traps) && i <= j <= |traps| && Holds(states[i], p, k, h, e) && h < states[i].nextHandle
    ensures if exists m :: i <= m < j && ClosesAt(states, traps, m, p, h)
            then LookupChannel(states[j], p, h) == Refused(STATUS_BAD_HANDLE)
            else LookupChannel(states[j], p, h) == Found(k) && Holds(states[j], p, k, h, e)
  {
    assert |states| == |traps| + 1;
    hide Run, Inv, Rpc, Handles, LookupChannel, ClosesAt, Shape;
    FoundIsHeld(states, traps, j, p, k, h);
    hide Holds;
    if i < j {
      NamedUntilClosed(states, traps, i, j - 1, p, k, h, e);
      if m :| i <= m < j - 1 && ClosesAt(states, traps, m, p, h) {
        StillRefused(states, traps, i, j, p, h);
      } else {
        StepHolds(states, traps, j - 1, p, k, h, e);
      }
    }
  }

  lemma FoundIsHeld(states: seq<KernelState>, traps: seq<Trap>, j: nat, p: nat, k: nat, h: u64)
    requires Run(states, traps) && j <= |traps|
    ensures forall e: nat :: Holds(states[j], p, k, h, e) ==> LookupChannel(states[j], p, h) == Found(k)
  {
    RunInv(states, traps, j);
    HoldsIsFound(states[j], p, k, h);
  }

  lemma StillRefused(states: seq<KernelState>, traps: seq<Trap>, i: nat, j: nat, p: nat, h: u64)
    requires Run(states, traps) && i < j <= |traps| && h < states[i].nextHandle
    requires LookupChannel(states[j - 1], p, h) == Refused(STATUS_BAD_HANDLE)
    ensures LookupChannel(states[j], p, h) == Refused(STATUS_BAD_HANDLE)
  {
    hide Run, LookupChannel;
    NextGrows(states, traps, i, j - 1);
    KernelDirectory.HandleNeverReused(states, traps, j - 1, j, p, h);
  }

  lemma {:induction false} NextGrows(states: seq<KernelState>, traps: seq<Trap>, i: nat, j: nat)
    requires Run(states, traps) && i <= j <= |traps|
    ensures states[i].nextHandle <= states[j].nextHandle
  {
    hide Inv, Rpc, Next, StepAt, HandleTrap, Shape, Booted, Runnable;
    if i < j {
      NextGrows(states, traps, i, j - 1);
      RunInv(states, traps, j - 1);
      StepOf(states, traps, j - 1);
      StepGrows(states[j - 1], traps[j - 1]);
    }
  }

  lemma StepGrows(s: KernelState, t: Trap)
    requires Enabled(s, t) && s.nextHandle < U64_MAX
    ensures s.nextHandle <= Next(s, t).state.nextHandle
  {
    hide Shape, Serve, LoadFrame;
  }

  /** The word the client's own memory shows at this address. */
  ghost predicate ReadsWord(memory: seq<u8>, ms: seq<Mapping>, a: u64, word: u64) {
    && InMemory(ms, |memory|)
    && exists bytes: seq<u8> :: |bytes| == 8 && GuestBytes(memory, ms, a, bytes) && word == FromLittleEndian(bytes)
  }

  lemma WordWritten(memory: seq<u8>, memory': seq<u8>, ms: seq<Mapping>, target: u64, h: u64, word: u64)
    requires InMemory(ms, |memory'|) && HandleWritten(memory, memory', ms, target, h) && HostInjective(ms, target, 8)
    requires ReadsWord(memory', ms, target, word)
    ensures word == h
  {
    WordRoundTrip(h);
    hide HostInjective, HostTarget, FromLittleEndian, LittleEndian, InMemory, GuestBytes;
    var bytes: seq<u8> :| |bytes| == 8 && GuestBytes(memory', ms, target, bytes) && word == FromLittleEndian(bytes);
    OneReading(memory', ms, target, bytes, LittleEndian(h, 8));
  }

  lemma OneReading(memory: seq<u8>, ms: seq<Mapping>, a: int, x: seq<u8>, y: seq<u8>)
    requires InMemory(ms, |memory|) && |x| == |y| && GuestBytes(memory, ms, a, x) && GuestBytes(memory, ms, a, y)
    ensures x == y
  {
    hide Backed, HostOf, InMemory;
    forall i | 0 <= i < |x| ensures x[i] == y[i] {
      assert Backed(ms, a + i);
    }
  }

  /** RPC_OPEN, then RPC_CALL with the word the open left at the client's pointer, any traps in between: the call names a
      channel to the endpoint that was registered under the opened name, if and only if its process has not closed the
      handle by then; if it has, the call is refused. */
  lemma OpenThenCall(states: seq<KernelState>, traps: seq<Trap>, i: nat, j: nat) returns (k: nat, e: nat)
    requires Run(states, traps) && i < j < |traps|
    requires traps[i].frame.rax == SYSCALL_RPC_OPEN && traps[i].status == STATUS_OK
    requires CallsWith(states, traps, i, j)
    ensures exists h :: OpensAt(states, traps, i, k, e, h) && h == traps[j].frame.rdi
    ensures var p, h := CallerAt(states, i), traps[j].frame.rdi;
            if exists m :: i < m < j && ClosesAt(states, traps, m, p, h)
            then LookupChannel(states[j], p, h) == Refused(STATUS_BAD_HANDLE)
            else LookupChannel(states[j], p, h) == Found(k) && Holds(states[j], p, k, h, e)
  {
    assert |states| == |traps| + 1;
    hide Run, Inv, Rpc, Shape, LookupChannel, ReadsWord, HandleWritten, HostInjective, StringIs, ClosesAt;
    var h;
    k, e, h := OpenInRun(states, traps, i);
    var s := states[i].(memory := traps[i].memory);
    WordWritten(s.memory, states[i + 1].memory, MapsOf(s, s.current.value), traps[i].frame.rsi, h, traps[j].frame.rdi);
    NamedUntilClosed(states, traps, i + 1, j, CallerAt(states, i), k, h, e);
  }

  ghost function CallerAt(states: seq<KernelState>, i: nat): nat
    requires i < |states|
  {
    var s := states[i];
    if s.current.Some? && s.current.value < |s.threads| then s.threads[s.current.value].process else 0
  }

  /** Trap j passes as its first argument the word that the process of trap i reads at trap i's second argument right
      behind the trap, in eight bytes that are distinct host bytes. */
  ghost predicate CallsWith(states: seq<KernelState>, traps: seq<Trap>, i: nat, j: nat)
    requires i < j < |traps| < |states|
  {
    && traps[j].frame.rax == SYSCALL_RPC_CALL && CallerAt(states, i) < |states[i].processes|
    && var ms := states[i].processes[CallerAt(states, i)].mappings;
       HostInjective(ms, traps[i].frame.rsi, 8) && ReadsWord(states[i + 1].memory, ms, traps[i].frame.rsi, traps[j].frame.rdi)
  }

  /** That call is answered BAD_HANDLE iff the handle has been closed, if its other arguments are acceptable. */
  lemma OpenThenCallAnswer(states: seq<KernelState>, traps: seq<Trap>, i: nat, j: nat)
    requires Run(states, traps) && i < j < |traps|
    requires traps[i].frame.rax == SYSCALL_RPC_OPEN && traps[i].status == STATUS_OK
    requires CallsWith(states, traps, i, j) && CallerAt(states, j) == CallerAt(states, i)
    requires traps[j].frame.rsi != 0 && 0 < traps[j].frame.rdx <= MAX_REQUEST_SIZE
    ensures traps[j].status == STATUS_BAD_HANDLE <==>
            exists m :: i < m < j && ClosesAt(states, traps, m, CallerAt(states, i), traps[j].frame.rdi)
    ensures traps[j].status != STATUS_WRONG_TYPE
  {
    var k, e := OpenThenCall(states, traps, i, j);
    var h := traps[j].frame.rdi;
    assert h != 0;
    RunInv(states, traps, j);
    StepOf(states, traps, j);
    NextIs(states[j], traps[j]);
    hide Run, Inv, Rpc, Next, StepAt, HandleTrap, Shape, Booted, LookupChannel, ClosesAt, CallsWith, OpensAt, CallAnswer;
    var s := MemoryInv(states[j], traps[j]);
    CallByHandle(s, traps[j].frame);
    SameNamesFind(states[j], s, CallerAt(states, j), h);
  }

  lemma CallByHandle(s: KernelState, f: Frame)
    requires Inv(s) && Runnable(s) && FrameShape(f) && f.rax == SYSCALL_RPC_CALL
    requires f.rdi != 0 && f.rsi != 0 && 0 < f.rdx <= MAX_REQUEST_SIZE
    ensures var found := LookupChannel(s, s.threads[s.current.value].process, f.rdi);
            && (HandleTrap(s, f).status == STATUS_BAD_HANDLE <==> found == Refused(STATUS_BAD_HANDLE))
            && (HandleTrap(s, f).status == STATUS_WRONG_TYPE <==> found == Refused(STATUS_WRONG_TYPE))
  {
    EnterKeeps(s, f);
    TrapNames(s, f);
    TrapAnswers(s, f);
    var e, active := Enter(s, f), s.current.value;
    SameNamesFind(s, e, s.threads[active].process, f.rdi);
    hide Rpc, Handles, HandleTrap, Enter, Entered, PendingByServer, Shape, LookupChannel, Owns, NamesOther, CallOnAnswer;
    LookupByOwner(e, active, f.rdi);
  }
}
