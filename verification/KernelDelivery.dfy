/** What an accepted call delivers to the server, and what statuses a caller can tell apart. */
module KernelDelivery {
  import opened Words
  import opened Status
  import opened Search
  import opened AddressSpaces
  import opened UserCopy
  import opened KernelModel
  import opened KernelInvariant
  import opened KernelEffects
  import opened KernelRuns
  import opened KernelTransparency

  /** The server's stack once a request of `size` bytes is placed at `address` below stack pointer sp: the request
      16-byte aligned and ending at or below sp, the completion address in the eight bytes under it. */
  ghost predicate Placed(address: u64, size: u64, sp: u64) {
    address % 16 == 0 && 8 < address && address + size <= sp
  }

  /** Guest bytes [a, a + n) of one process, in one memory, read the same as those at b of another process in
      another memory. */
  ghost predicate SameGuestBytes(memory: seq<u8>, ms: seq<Mapping>, a: int, memory': seq<u8>, ms': seq<Mapping>, b: int, n: nat)
    requires InMemory(ms, |memory|) && InMemory(ms', |memory'|)
  {
    forall x :: a <= x < a + n ==>
      Backed(ms, x) && Backed(ms', b + (x - a)) && memory'[HostOf(ms', b + (x - a))] == memory[HostOf(ms, x)]
  }

  /** What copying the request and writing the return address under it leave in memory. */
  ghost predicate Delivered(memory: seq<u8>, memory': seq<u8>, client: seq<Mapping>, request: u64,
                            server: seq<Mapping>, address: u64, size: u64, completion: u64)
    requires InMemory(client, |memory|) && InMemory(server, |memory|) && address > 8
  {
    && |memory'| == |memory|
    && RangeBacked(client, request, size) && RangeBacked(server, address - 8, size + 8)
    && (forall h :: 0 <= h < |memory| && !HostTarget(server, address - 8, size + 8, h) ==> memory'[h] == memory[h])
    && (HostInjective(server, address - 8, size + 8) ==>
          && GuestBytes(memory', server, address - 8, LittleEndian(completion, 8))
          && (HostSeparate(client, request, server, address, size) ==>
                SameGuestBytes(memory, client, request, memory', server, address, size)))
  }

  lemma CopyThenWrite(memory: seq<u8>, client: seq<Mapping>, request: u64, server: seq<Mapping>, address: u64,
                      size: u64, completion: u64)
    requires InMemory(client, |memory|) && InMemory(server, |memory|) && address > 8
    requires var copy := CopyUser(memory, client, request, server, address, size);
             copy.ok && WriteUser(copy.memory, server, address - 8, LittleEndian(completion, 8)).ok
    ensures var copy := CopyUser(memory, client, request, server, address, size);
            var write := WriteUser(copy.memory, server, address - 8, LittleEndian(completion, 8));
            Delivered(memory, write.memory, client, request, server, address, size, completion)
  {
    hide Backed, LittleEndian;
    var copy := CopyUser(memory, client, request, server, address, size);
    var data := LittleEndian(completion, 8);
    var write := WriteUser(copy.memory, server, address - 8, data);
    CopyUserMeaning(memory, client, request, server, address, size);
    WriteUserMeaning(copy.memory, server, address - 8, data);
    hide CopyUser, WriteUser;
    forall h | 0 <= h < |memory| && !HostTarget(server, address - 8, size + 8, h) ensures write.memory[h] == memory[h] {
      TargetParts(server, address, size, h);
    }
    if HostInjective(server, address - 8, size + 8) {
      assert HostInjective(server, address - 8, 8) && HostInjective(server, address, size);
      if HostSeparate(client, request, server, address, size) {
        forall x | request <= x < request + size
          ensures Backed(client, x) && Backed(server, address + (x - request))
          ensures write.memory[HostOf(server, address + (x - request))] == memory[HostOf(client, x)]
        {
          assert DeliveredByte(memory, client, request, server, address, size, x - request);
          AboveReturnAddress(server, address, size, address + (x - request));
        }
      }
    }
  }

  lemma TargetParts(server: seq<Mapping>, address: u64, size: u64, h: int)
    requires address > 8
    ensures HostTarget(server, address - 8, 8, h) || HostTarget(server, address, size, h)
       <==> HostTarget(server, address - 8, size + 8, h)
  {
    hide Backed;
    if HostTarget(server, address - 8, 8, h) {
      var x :| address - 8 <= x < address && Backed(server, x) && HostOf(server, x) == h;
    }
    if HostTarget(server, address, size, h) {
      var x :| address <= x < address + size && Backed(server, x) && HostOf(server, x) == h;
    }
    if HostTarget(server, address - 8, size + 8, h) {
      var x :| address - 8 <= x < address + size && Backed(server, x) && HostOf(server, x) == h;
    }
  }

  lemma AboveReturnAddress(server: seq<Mapping>, address: u64, size: u64, x: int)
    requires address > 8 && HostInjective(server, address - 8, size + 8) && address <= x < address + size
    requires Backed(server, x)
    ensures !HostTarget(server, address - 8, 8, HostOf(server, x))
  {
    hide Backed;
  }

  /** The record prepare_server_thread leaves for the server: enter the callback with the request's address and
      size, on the stack below it. */
  ghost predicate AimsAt(resume: Resume, callback: u64, completion: u64, address: u64, size: u64) {
    && resume.kind == ResumeRpc && resume.instructionPointer == callback && resume.completion == completion
    && resume.argument0 == address && resume.argument1 == size && resume.status == STATUS_OK
    && address >= 8 && resume.stackPointer == address - 8
  }

  function RequestAddress(sp: u64, size: u64): u64
    requires size <= sp
  {
    AlignDown16(sp - size)
  }

  lemma RequestFits(sp: u64, size: u64)
    requires size <= sp && RequestAddress(sp, size) > 8
    ensures Placed(RequestAddress(sp, size), size, sp)
  {
  }

  lemma PreparedChecks(s: KernelState, e: nat, server: nat, client: nat, request: u64, size: u64)
    requires Shape(s) && e < |s.endpoints| && server < |s.threads| && client < |s.processes|
    requires PrepareServer(s, e, server, client, request, size).status == STATUS_OK
    ensures var ep, sp := s.endpoints[e], s.threads[server].context.stackPointer;
            && ep.ownerProcess.Some? && ep.ownerProcess.value < |s.processes|
            && 0 < size <= MAX_REQUEST_SIZE && size <= sp && RequestAddress(sp, size) > 8
            && PrepareServer(s, e, server, client, request, size)
               == PlaceRequest(s, e, server, client, request, size, RequestAddress(sp, size))
  {
    assert EndpointShape(s.endpoints[e], |s.processes|, |s.threads|);
    hide Shape, Backed, AlignDown16, PlaceRequest, SameTables, ThreadShape, EndpointShape;
  }

  /** The effects an accepting prepare_server_thread goes through. */
  lemma PlacedParts(s: KernelState, e: nat, server: nat, client: nat, request: u64, size: u64, address: u64)
    requires Shape(s) && e < |s.endpoints| && server < |s.threads| && client < |s.processes| && address > 8
    requires s.endpoints[e].ownerProcess.Some? && s.endpoints[e].ownerProcess.value < |s.processes|
    requires PlaceRequest(s, e, server, client, request, size, address).status == STATUS_OK
    ensures var ep := s.endpoints[e];
            && InMemory(s.processes[client].mappings, |s.memory|)
            && InMemory(s.processes[ep.ownerProcess.value].mappings, |s.memory|)
            && var p := PlaceRequest(s, e, server, client, request, size, address);
               var mappings := s.processes[ep.ownerProcess.value].mappings;
               var copy := CopyUser(s.memory, s.processes[client].mappings, request, mappings, address, size);
               var write := WriteUser(copy.memory, mappings, address - 8, LittleEndian(ep.completion, 8));
               && copy.ok && write.ok && p.state.memory == write.memory
               && p.state.threads[server] == PrepareRpcResume(s.threads[server], ep.callback, ep.completion, address,
                                                              size, address - 8)
  {
    assert InMemory(s.processes[client].mappings, |s.memory|);
    assert InMemory(s.processes[s.endpoints[e].ownerProcess.value].mappings, |s.memory|);
    hide Shape, InMemory, CopyUser, WriteUser, LittleEndian, PrepareRpcResume;
  }

  lemma PreparedRequest(s: KernelState, e: nat, server: nat, client: nat, request: u64, size: u64)
    returns (address: u64)
    requires Shape(s) && e < |s.endpoints| && server < |s.threads| && client < |s.processes|
    requires PrepareServer(s, e, server, client, request, size).status == STATUS_OK
    ensures Placed(address, size, s.threads[server].context.stackPointer) && 0 < size <= MAX_REQUEST_SIZE
    ensures var ep := s.endpoints[e];
            var p := PrepareServer(s, e, server, client, request, size);
            && ep.ownerProcess.Some? && ep.ownerProcess.value < |s.processes|
            && InMemory(s.processes[client].mappings, |s.memory|)
            && InMemory(s.processes[ep.ownerProcess.value].mappings, |s.memory|)
            && AimsAt(p.state.threads[server].resume, ep.callback, ep.completion, address, size)
            && p.state.threads[server].resume.flags == s.threads[server].context.flags
            && Delivered(s.memory, p.state.memory, s.processes[client].mappings, request,
                         s.processes[ep.ownerProcess.value].mappings, address, size, ep.completion)
  {
    PreparedChecks(s, e, server, client, request, size);
    hide Shape, InMemory, CopyUser, WriteUser, LittleEndian, Delivered, PrepareServer, PlaceRequest, RequestAddress;
    var ep, sp := s.endpoints[e], s.threads[server].context.stackPointer;
    address := RequestAddress(sp, size);
    PlacedParts(s, e, server, client, request, size, address);
    RequestFits(sp, size);
    CopyThenWrite(s.memory, s.processes[client].mappings, request, s.processes[ep.ownerProcess.value].mappings,
                  address, size, ep.completion);
  }

  lemma ServedCall(s: KernelState, f: Frame)
    requires Shape(s) && s.current.Some? && FrameShape(f) && f.rax == SYSCALL_RPC_CALL
    ensures Served(s, f) == Call(Enter(s, f), s.current.value, CallOf(f))
  {
    hide Shape, Enter, Call;
  }

  /** A trap that reports OK for RPC_CALL accepted a call. */
  lemma AcceptedTrap(s: KernelState, f: Frame) returns (k: nat, server: nat)
    requires Inv(s) && Runnable(s) && FrameShape(f) && f.rax == SYSCALL_RPC_CALL
    requires HandleTrap(s, f).status == STATUS_OK
    ensures AcceptedCall(Enter(s, f), Served(s, f), s.current.value, CallOf(f), k, server)
  {
    EnterKeeps(s, f);
    TrapIs(s, f);
    ServedCall(s, f);
    hide Inv, Rpc, Shape, HandleTrap, Call, AcceptedCall, PendingByServer, Enter, Served, Runnable;
    k, server := CallEffect(Enter(s, f), s.current.value, CallOf(f));
  }

  /** The frame a server thread starts its callback from. */
  function CallbackFrame(t: ThreadRecord, callback: u64, address: u64, size: u64): Frame
    requires |t.registers| == REGISTER_COUNT && address >= 8
  {
    LoadFrame(t).(rax := 0, rcx := callback, r11 := t.context.flags, rsp := address - 8, rdi := address, rsi := size)
  }

  lemma CallbackFrameLoaded(t: ThreadRecord, t': ThreadRecord, callback: u64, completion: u64, address: u64, size: u64)
    requires |t.registers| == REGISTER_COUNT && t' == t.(resume := t'.resume, state := t'.state)
    requires AimsAt(t'.resume, callback, completion, address, size) && t'.resume.flags == t.context.flags
    ensures LoadFrame(t') == CallbackFrame(t, callback, address, size)
  {
  }

  /** The call a trap made, as its caller named it. */
  ghost predicate NamesCall(s: KernelState, f: Frame, k: nat, server: nat)
    requires s.current.Some?
  {
    && s.current.value < |s.threads| && server < |s.threads| && |s.threads[server].registers| == REGISTER_COUNT
    && Live(s, k) && s.channels[k].value.handle == f.rdi
    && s.channels[k].value.clientProcess == s.threads[s.current.value].process < |s.processes|
    && s.channels[k].value.endpoint < |s.endpoints|
    && var ep := s.endpoints[s.channels[k].value.endpoint];
       ep.ownerThread == Some(server) && ep.ownerProcess.Some? && ep.ownerProcess.value < |s.processes|
  }

  /** The request of a call is delivered: from state s it leads to s', with `loaded` as the frame that enters user code. */
  ghost predicate RequestAt(s: KernelState, f: Frame, s': KernelState, loaded: Option<Frame>, k: nat, server: nat, address: u64)
    requires s.current.Some? && NamesCall(s, f, k, server)
  {
    var ep := s.endpoints[s.channels[k].value.endpoint];
    var client, target := s.processes[s.channels[k].value.clientProcess].mappings, s.processes[ep.ownerProcess.value].mappings;
    && Placed(address, f.rdx, s.threads[server].context.stackPointer)
    && InMemory(client, |s.memory|) && InMemory(target, |s.memory|)
    && Delivered(s.memory, s'.memory, client, f.rsi, target, address, f.rdx, ep.completion)
    && s'.current == Some(server)
    && (Runnable(s') ==> loaded == Some(CallbackFrame(s.threads[server], ep.callback, address, f.rdx)))
  }

  /** One trap. */
  lemma TrapDelivers(s: KernelState, f: Frame) returns (k: nat, server: nat, address: u64)
    requires Inv(s) && Runnable(s) && FrameShape(f) && f.rax == SYSCALL_RPC_CALL
    requires HandleTrap(s, f).status == STATUS_OK
    ensures NamesCall(s, f, k, server)
    ensures server != s.current.value ==> RequestAt(s, f, HandleTrap(s, f).state, HandleTrap(s, f).frame, k, server, address)
  {
    hide Rpc, HandleTrap, Served, PendingByServer, Delivered, CallbackFrame, LoadFrame, Placed;
    k, server := AcceptedTrap(s, f);
    EnterKeeps(s, f);
    var s1, active := Enter(s, f), s.current.value;
    TrapIs(s, f);
    hide Inv, Enter, Entered;
    var e, client := s1.channels[k].value.endpoint, s1.channels[k].value.clientProcess;
    address := PreparedRequest(s1, e, server, client, f.rsi, f.rdx);
    assert ThreadShape(s.threads[server], |s.processes|);
    hide Shape, PrepareServer, Runnable;
    if server != active {
      var r := HandleTrap(s, f);
      assert s1.threads[server] == s.threads[server];
      assert r.state == Served(s, f).state;
      CallbackFrameLoaded(s.threads[server], r.state.threads[server], s.endpoints[e].callback, s.endpoints[e].completion,
                          address, f.rdx);
    }
  }

  /** An accepted call to another thread delivers the request: it sits 16-byte aligned at or below the server's
      stack pointer over the completion address, reads as the client's bytes when host backings are disjoint, and
      touches no other memory; the server enters its callback with the request's address and size. */
  lemma RequestDelivery(states: seq<KernelState>, traps: seq<Trap>, i: nat) returns (k: nat, server: nat, address: u64)
    requires Run(states, traps) && i < |traps|
    requires traps[i].frame.rax == SYSCALL_RPC_CALL && traps[i].status == STATUS_OK
    ensures var s := states[i].(memory := traps[i].memory);
            && s.current.Some? && NamesCall(s, traps[i].frame, k, server)
            && (server != s.current.value ==>
                  RequestAt(s, traps[i].frame, states[i + 1], traps[i].loaded, k, server, address))
  {
    hide Inv, Next, StepAt, NamesCall, RequestAt, HandleTrap, Shape;
    RunInv(states, traps, i);
    StepOf(states, traps, i);
    NextIs(states[i], traps[i]);
    var s := MemoryInv(states[i], traps[i]);
    k, server, address := TrapDelivers(s, traps[i].frame);
  }

  // ----- Handles callers name -----

  /** A handle that names a live object of the kernel other than a channel. */
  ghost predicate NamesOther(s: KernelState, handle: u64) {
    ObjectExists(s, handle) && forall k :: Live(s, k) ==> s.channels[k].value.handle != handle
  }

  lemma LookupIsExact(s: KernelState, owner: nat, handle: u64)
    requires Handles(s)
    ensures LookupChannel(s, owner, handle) == Refused(STATUS_WRONG_TYPE) <==> NamesOther(s, handle)
    ensures LookupChannel(s, owner, handle) == Refused(STATUS_BAD_HANDLE) <==>
            !NamesOther(s, handle)
            && forall k :: Live(s, k) && s.channels[k].value.handle == handle ==> s.channels[k].value.clientProcess != owner
    ensures forall k: nat :: LookupChannel(s, owner, handle) == Found(k) <==>
              Live(s, k) && s.channels[k].value.handle == handle && s.channels[k].value.clientProcess == owner
  {
    hide ObjectExists, FirstIn;
    assert forall k :: 0 <= k < |s.channels| ==>
      (HasHandle(s.channels[k], handle) <==> Live(s, k) && s.channels[k].value.handle == handle);
  }

  predicate ArgumentsPass(f: Frame) {
    f.rdi != 0 && (f.rax == SYSCALL_RPC_CALL ==> f.rsi != 0 && 0 < f.rdx <= MAX_REQUEST_SIZE)
  }

  lemma CallOnIsNotWrongType(s: KernelState, active: nat, k: nat, request: u64, size: u64)
    requires Shape(s) && active < |s.threads| && k < |s.channels| && s.channels[k].Some?
    ensures CallOn(s, active, k, request, size).status != STATUS_WRONG_TYPE
  {
    hide Shape, Accept, CopyUser, WriteUser, LittleEndian, Backed;
  }

  lemma WrongTypeCall(s: KernelState, active: nat, f: Frame)
    requires Shape(s) && Handles(s) && active < |s.threads| && f.rax == SYSCALL_RPC_CALL
    ensures Call(s, active, CallOf(f)).status == STATUS_WRONG_TYPE <==> ArgumentsPass(f) && NamesOther(s, f.rdi)
  {
    var owner := s.threads[active].process;
    LookupIsExact(s, owner, f.rdi);
    var found := LookupChannel(s, owner, f.rdi);
    hide Handles, NamesOther, LookupChannel, CallOn;
    if found.Found? {
      CallOnIsNotWrongType(s, active, found.slot, f.rsi, f.rdx);
    }
    hide Shape;
  }

  lemma WrongTypeClose(s: KernelState, active: nat, f: Frame)
    requires Shape(s) && Handles(s) && active < |s.threads| && f.rax == SYSCALL_RPC_CLOSE
    ensures Close(s, active, CallOf(f)).status == STATUS_WRONG_TYPE <==> ArgumentsPass(f) && NamesOther(s, f.rdi)
  {
    LookupIsExact(s, s.threads[active].process, f.rdi);
    hide Handles, NamesOther, LookupChannel, EraseChannel, Shape;
  }

  lemma ServedClose(s: KernelState, f: Frame)
    requires Shape(s) && s.current.Some? && FrameShape(f) && f.rax == SYSCALL_RPC_CLOSE
    ensures Served(s, f) == Close(Enter(s, f), s.current.value, CallOf(f))
  {
    hide Shape, Enter, Close;
  }

  lemma EnterNamesTheSame(s: KernelState, f: Frame)
    requires Inv(s) && Runnable(s) && FrameShape(f)
    ensures NamesOther(Enter(s, f), f.rdi) <==> NamesOther(s, f.rdi)
  {
    EnterKeeps(s, f);
    hide Inv, Rpc, PendingByServer;
    ObjectsUnchanged(s, Enter(s, f));
    assert forall k :: Live(Enter(s, f), k) == Live(s, k);
    hide ObjectExists;
  }

  /** RPC_CALL and RPC_CLOSE answer WRONG_TYPE iff the handle, past the argument checks, names a live object that is
      not a channel. */
  lemma WrongTypeIsExact(s: KernelState, f: Frame)
    requires Inv(s) && Runnable(s) && FrameShape(f) && f.rax in {SYSCALL_RPC_CALL, SYSCALL_RPC_CLOSE}
    ensures HandleTrap(s, f).status == STATUS_WRONG_TYPE <==> ArgumentsPass(f) && NamesOther(s, f.rdi)
  {
    hide Rpc, HandleTrap, Served, Handles, Call, Close, NamesOther, Entered, PendingByServer;
    EnterKeeps(s, f);
    EnterNamesTheSame(s, f);
    TrapIs(s, f);
    hide Runnable, Enter, Inv;
    if f.rax == SYSCALL_RPC_CALL {
      ServedCall(s, f);
      WrongTypeCall(Enter(s, f), s.current.value, f);
    } else {
      ServedClose(s, f);
      WrongTypeClose(Enter(s, f), s.current.value, f);
    }
  }
}
