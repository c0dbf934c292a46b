/**
 What the RPC system calls answer, each status with its exact condition, and what an OK means to the caller: the handle
 an open writes is that of a new channel to the named endpoint, a registered endpoint is the one that was asked for, a
 closed handle names nothing.
 */
module KernelAnswers {
  import opened Words
  import opened Status
  import opened Search
  import opened AddressSpaces
  import opened UserCopy
  import opened KernelModel
  import opened KernelInvariant
  import opened KernelEffects
  import opened KernelRuns
  import opened KernelDelivery

  // ----- Strings of the guest -----

  /** The guest has this string, NUL and all in at most `capacity` mapped bytes, at a. */
  ghost predicate StringIs(memory: seq<u8>, ms: seq<Mapping>, a: u64, capacity: nat, name: seq<u8>)
    requires InMemory(ms, |memory|)
  {
    |name| < capacity && StringPrefix(memory, ms, a, name) && StringByte(memory, ms, a, |name|, 0)
  }

  /** The string at a runs into an unmapped byte behind these characters. */
  ghost predicate StringFaults(memory: seq<u8>, ms: seq<Mapping>, a: u64, capacity: nat, read: seq<u8>)
    requires InMemory(ms, |memory|)
  {
    |read| < capacity && StringPrefix(memory, ms, a, read) && !Backed(ms, Wrap64(a + |read|))
  }

  /** The string at a has these characters and no NUL among `capacity` bytes. */
  ghost predicate StringTooLong(memory: seq<u8>, ms: seq<Mapping>, a: u64, capacity: nat, read: seq<u8>)
    requires InMemory(ms, |memory|)
  {
    |read| == capacity && StringPrefix(memory, ms, a, read)
  }

  ghost predicate Stops(memory: seq<u8>, ms: seq<Mapping>, a: u64, capacity: nat, read: seq<u8>)
    requires InMemory(ms, |memory|)
  {
    || StringIs(memory, ms, a, capacity, read) || StringFaults(memory, ms, a, capacity, read)
    || StringTooLong(memory, ms, a, capacity, read)
  }

  lemma OneStop(memory: seq<u8>, ms: seq<Mapping>, a: u64, capacity: nat, x: seq<u8>, y: seq<u8>)
    requires InMemory(ms, |memory|) && Stops(memory, ms, a, capacity, x) && Stops(memory, ms, a, capacity, y)
    ensures x == y
  {
    hide Backed, InMemory, HostOf, Wrap64;
    assert |x| < |y| ==> y[|x|] != 0 && StringByte(memory, ms, a, |x|, y[|x|]);
    assert |y| < |x| ==> x[|y|] != 0 && StringByte(memory, ms, a, |y|, x[|y|]);
    assert forall k :: 0 <= k < |x| && k < |y| ==> StringByte(memory, ms, a, k, x[k]) && StringByte(memory, ms, a, k, y[k]);
  }

  /** A string copy answers by where the guest's string stops, and an OK has its characters. */
  lemma StringRead(memory: seq<u8>, ms: seq<Mapping>, a: u64, capacity: nat)
    requires InMemory(ms, |memory|)
    ensures var r := UserString(memory, ms, a, capacity);
            && (r.status == STATUS_OK <==> exists name: seq<u8> :: StringIs(memory, ms, a, capacity, name))
            && (forall name: seq<u8> :: StringIs(memory, ms, a, capacity, name) ==> r.bytes == name)
            && (r.status == STATUS_FAULT <==> exists read: seq<u8> :: StringFaults(memory, ms, a, capacity, read))
            && (r.status == STATUS_BUFFER_TOO_SMALL <==>
                exists read: seq<u8> :: StringTooLong(memory, ms, a, capacity, read))
            && r.status in {STATUS_OK, STATUS_FAULT, STATUS_BUFFER_TOO_SMALL}
  {
    var r := UserString(memory, ms, a, capacity);
    StringStops(memory, ms, a, capacity);
    hide UserString, StringIs, StringFaults, StringTooLong, InMemory;
    forall x: seq<u8> | Stops(memory, ms, a, capacity, x) ensures x == r.bytes {
      OneStop(memory, ms, a, capacity, x, r.bytes);
    }
    assert forall x: seq<u8> :: StringIs(memory, ms, a, capacity, x) ==> Stops(memory, ms, a, capacity, x);
    assert forall x: seq<u8> :: StringFaults(memory, ms, a, capacity, x) ==> Stops(memory, ms, a, capacity, x);
    assert forall x: seq<u8> :: StringTooLong(memory, ms, a, capacity, x) ==> Stops(memory, ms, a, capacity, x);
  }

  lemma StringStops(memory: seq<u8>, ms: seq<Mapping>, a: u64, capacity: nat)
    requires InMemory(ms, |memory|)
    ensures var r := UserString(memory, ms, a, capacity);
            && Stops(memory, ms, a, capacity, r.bytes)
            && (r.status == STATUS_OK <==> StringIs(memory, ms, a, capacity, r.bytes))
            && (r.status == STATUS_FAULT <==> StringFaults(memory, ms, a, capacity, r.bytes))
            && (r.status == STATUS_BUFFER_TOO_SMALL <==> StringTooLong(memory, ms, a, capacity, r.bytes))
            && r.status in {STATUS_OK, STATUS_FAULT, STATUS_BUFFER_TOO_SMALL}
  {
    UserStringMeaning(memory, ms, a, [], capacity);
    hide UserStringFrom, StringPrefix, StringByte, InMemory, Backed;
  }

  ghost function MapsOf(s: KernelState, active: nat): (ms: seq<Mapping>)
    requires Shape(s) && active < |s.threads|
    ensures InMemory(ms, |s.memory|)
  {
    assert ThreadShape(s.threads[active], |s.processes|);
    s.processes[s.threads[active].process].mappings
  }

  /** The thread's string at a is this name. */
  ghost predicate Says(s: KernelState, active: nat, a: u64, name: seq<u8>)
    requires Shape(s) && active < |s.threads|
  {
    StringIs(s.memory, MapsOf(s, active), a, NAME_BUFFER_SIZE, name)
  }

  ghost predicate Faults(s: KernelState, active: nat, a: u64)
    requires Shape(s) && active < |s.threads|
  {
    exists read: seq<u8> :: StringFaults(s.memory, MapsOf(s, active), a, NAME_BUFFER_SIZE, read)
  }

  ghost predicate TooLong(s: KernelState, active: nat, a: u64)
    requires Shape(s) && active < |s.threads|
  {
    exists read: seq<u8> :: StringTooLong(s.memory, MapsOf(s, active), a, NAME_BUFFER_SIZE, read)
  }

  /** An endpoint is registered under this name. */
  ghost predicate Taken(s: KernelState, name: seq<u8>) {
    exists e :: 0 <= e < |s.endpoints| && s.endpoints[e].inUse && s.endpoints[e].name == name
  }

  ghost predicate NoFreeChannel(s: KernelState) {
    forall k :: 0 <= k < |s.channels| ==> s.channels[k].Some?
  }

  ghost predicate NoFreeEndpoint(s: KernelState) {
    forall e :: 0 <= e < |s.endpoints| ==> s.endpoints[e].inUse
  }

  // ----- RPC_OPEN -----

  /** What RPC_OPEN answers: both arguments, the name's string, the endpoint of that name, a free channel slot, eight
      mapped bytes for the handle, in this order. No open finds its peer gone. */
  ghost predicate OpenAnswer(s: KernelState, active: nat, name: u64, target: u64, status: i32)
    requires Shape(s) && active < |s.threads|
  {
    var given := name != 0 && target != 0;
    var writable := RangeBacked(MapsOf(s, active), target, 8);
    && (status == STATUS_INVALID_ARGUMENT <==> !given)
    && (status == STATUS_BUFFER_TOO_SMALL <==> given && TooLong(s, active, name))
    && (status == STATUS_NOT_FOUND <==> given && exists x :: Says(s, active, name, x) && !Taken(s, x))
    && (status == STATUS_NO_MEMORY <==> given && NoFreeChannel(s) && exists x :: Says(s, active, name, x) && Taken(s, x))
    && (status == STATUS_FAULT <==>
        given && (Faults(s, active, name)
                  || (!writable && !NoFreeChannel(s) && exists x :: Says(s, active, name, x) && Taken(s, x))))
    && status != STATUS_PEER_CLOSED
    && (status == STATUS_OK <==>
        given && writable && !NoFreeChannel(s) && exists x :: Says(s, active, name, x) && Taken(s, x))
  }

  lemma OwnerAlive(s: KernelState, e: nat)
    requires EndpointOwners(s) && e < |s.endpoints| && s.endpoints[e].inUse
    ensures var t := s.endpoints[e].ownerThread; t.Some? && t.value < |s.threads| && s.threads[t.value].state != Exited
  {
  }

  lemma IssueAnswers(s: KernelState, k: nat, owner: nat, e: nat, target: u64)
    requires Shape(s) && k < |s.channels| && owner < |s.processes| && e < |s.endpoints|
    ensures var status := Issue(s, k, owner, e, target).status;
            status == if RangeBacked(s.processes[owner].mappings, target, 8) then STATUS_OK else STATUS_FAULT
  {
    var ms := s.processes[owner].mappings;
    WriteUserMeaning(s.memory, ms, target, LittleEndian(s.nextHandle, 8));
    hide Shape, WriteUser, LittleEndian, EraseChannel, NewChannel, Wrap64, Backed;
  }

  lemma OpenNamedAnswers(s: KernelState, owner: nat, name: seq<u8>, target: u64)
    requires Shape(s) && EndpointOwners(s) && owner < |s.processes|
    ensures OpenNamed(s, owner, name, target).status ==
            if !Taken(s, name) then STATUS_NOT_FOUND
            else if NoFreeChannel(s) then STATUS_NO_MEMORY
            else if RangeBacked(s.processes[owner].mappings, target, 8) then STATUS_OK else STATUS_FAULT
  {
    hide Shape, Issue, FirstIn, RangeBacked;
    var e, k := EndpointByName(s, name), FreeChannel(s);
    assert e.Some? <==> Taken(s, name);
    assert k.None? <==> NoFreeChannel(s);
    if e.Some? {
      OwnerAlive(s, e.value);
      if k.Some? {
        IssueAnswers(s, k.value, owner, e.value, target);
      }
    }
    hide EndpointOwners;
  }

  lemma OpenStatus(s: KernelState, active: nat, call: SyscallContext)
    requires Executing(s, active)
    ensures OpenAnswer(s, active, call.argument0, call.argument1, Open(s, active, call).status)
  {
    hide UserString, OpenNamed, StringIs, StringFaults, StringTooLong, Taken, NoFreeChannel, RangeBacked, Handles;
    var owner := s.threads[active].process;
    var ms := MapsOf(s, active);
    StringRead(s.memory, ms, call.argument0, NAME_BUFFER_SIZE);
    assert EndpointOwners(s) && owner < |s.processes|;
    var name := UserString(s.memory, ms, call.argument0, NAME_BUFFER_SIZE);
    OpenNamedAnswers(s, owner, name.bytes, call.argument1);
    hide Shape, Rpc;
    assert forall x :: Says(s, active, call.argument0, x) ==> x == name.bytes;
  }

  /** From s to s', slot k has come to hold an idle channel of process `owner` to endpoint e under handle h; h named
      nothing before, and now names that channel to its owner; no other table entry differs. */
  ghost predicate Opened(s: KernelState, s': KernelState, owner: nat, k: nat, e: nat, h: u64) {
    && k < |s.channels| == |s'.channels| && s.channels[k].None? && Live(s', k)
    && s'.channels == s.channels[k := s'.channels[k]]
    && s'.channels[k].value.handle == h && s'.channels[k].value.clientProcess == owner
    && s'.channels[k].value.endpoint == e && !ChannelBusy(s'.channels[k].value)
    && 0 < s.nextHandle <= h < s'.nextHandle
    && !ObjectExists(s, h) && (forall j :: Live(s, j) ==> s.channels[j].value.handle != h)
    && LookupChannel(s', owner, h) == Found(k)
    && s'.endpoints == s.endpoints && s'.processes == s.processes && s'.otherHandles == s.otherHandles
    && s'.current == s.current && |s'.threads| == |s.threads| && |s'.memory| == |s.memory|
  }

  /** The caller reads the handle h at `target`, if the eight bytes there are eight distinct host bytes, and no byte of
      memory elsewhere has changed. */
  ghost predicate HandleWritten(memory: seq<u8>, memory': seq<u8>, ms: seq<Mapping>, target: u64, h: u64)
    requires InMemory(ms, |memory'|)
  {
    && |memory'| == |memory|
    && (HostInjective(ms, target, 8) ==> GuestBytes(memory', ms, target, LittleEndian(h, 8)))
    && forall x :: 0 <= x < |memory| && !HostTarget(ms, target, 8, x) ==> memory'[x] == memory[x]
  }

  lemma IssueWrites(s: KernelState, k: nat, owner: nat, e: nat, target: u64)
    requires Shape(s) && s.nextHandle < U64_MAX && k < |s.channels| && owner < |s.processes| && e < |s.endpoints|
    requires Issue(s, k, owner, e, target).status == STATUS_OK
    ensures var r := Issue(s, k, owner, e, target).state;
            && r.nextHandle == s.nextHandle + 1 && r.threads == s.threads && r.endpoints == s.endpoints
            && r.current == s.current
            && HandleWritten(s.memory, r.memory, s.processes[owner].mappings, target, s.nextHandle)
  {
    var ms := s.processes[owner].mappings;
    IssueIs(s, k, owner, e, target);
    WriteUserMeaning(s.memory, ms, target, LittleEndian(s.nextHandle, 8));
    hide WriteUser, LittleEndian, Shape, Issue, Backed, RangeBacked, HostInjective, GuestBytes, HostTarget;
  }

  lemma IssueIs(s: KernelState, k: nat, owner: nat, e: nat, target: u64)
    requires Shape(s) && s.nextHandle < U64_MAX && k < |s.channels| && owner < |s.processes| && e < |s.endpoints|
    requires Issue(s, k, owner, e, target).status == STATUS_OK
    ensures var r := Issue(s, k, owner, e, target).state;
            var write := WriteUser(s.memory, s.processes[owner].mappings, target, LittleEndian(s.nextHandle, 8));
            && write.ok && r.memory == write.memory
            && r == s.(nextHandle := s.nextHandle + 1, channels := r.channels, memory := r.memory)
  {
    hide WriteUser, LittleEndian, EraseChannel, NewChannel, Shape;
  }

  lemma IssueOpens(s: KernelState, active: nat, k: nat, owner: nat, e: nat, target: u64)
    requires Executing(s, active) && s.nextHandle < U64_MAX
    requires k < |s.channels| && s.channels[k].None? && owner < |s.processes| && e < |s.endpoints|
    requires Issue(s, k, owner, e, target).status == STATUS_OK
    ensures var r := Issue(s, k, owner, e, target).state;
            && Opened(s, r, owner, k, e, s.nextHandle) && r.threads == s.threads
            && HandleWritten(s.memory, r.memory, s.processes[owner].mappings, target, s.nextHandle)
  {
    IssueWrites(s, k, owner, e, target);
    IssueKeeps(s, active, k, owner, e, target);
    var r := Issue(s, k, owner, e, target).state;
    LookupIsExact(r, owner, s.nextHandle);
    hide Rpc, Shape, Issue, HandleWritten, LookupChannel, ObjectExists, HostInjective;
  }

  /** An RPC_OPEN that answers OK: there is a handle, not live before, that from now on names to the caller's process a
      channel to the endpoint in use under the caller's string; the handle is what the caller reads at argument 1. */
  lemma OpenGives(s: KernelState, active: nat, call: SyscallContext) returns (k: nat, e: nat, h: u64)
    requires Executing(s, active) && s.nextHandle < U64_MAX && Open(s, active, call).status == STATUS_OK
    ensures var r := Open(s, active, call).state;
            && Opened(s, r, s.threads[active].process, k, e, h) && r.threads == s.threads
            && HandleWritten(s.memory, r.memory, MapsOf(s, active), call.argument1, h)
    ensures e < |s.endpoints| && s.endpoints[e].inUse && Says(s, active, call.argument0, s.endpoints[e].name)
  {
    var owner, ms := s.threads[active].process, MapsOf(s, active);
    assert ThreadShape(s.threads[active], |s.processes|);
    hide UserString, Rpc, Handles, Shape, Issue, FirstIn, StringIs, StringFaults, StringTooLong, Opened, HandleWritten;
    StringRead(s.memory, ms, call.argument0, NAME_BUFFER_SIZE);
    var name := UserString(s.memory, ms, call.argument0, NAME_BUFFER_SIZE);
    e, k, h := EndpointByName(s, name.bytes).value, FreeChannel(s).value, s.nextHandle;
    IssueOpens(s, active, k, owner, e, call.argument1);
    var x :| StringIs(s.memory, ms, call.argument0, NAME_BUFFER_SIZE, x);
  }

  /** An RPC_OPEN that does not answer OK leaves every table as it was; memory too, unless it answers FAULT, and then but
      for the bytes the handle was meant for. */
  lemma OpenRefuses(s: KernelState, active: nat, call: SyscallContext)
    requires Executing(s, active) && s.nextHandle < U64_MAX && Open(s, active, call).status != STATUS_OK
    ensures var r := Open(s, active, call);
            && r.state == s.(memory := r.state.memory, nextHandle := r.state.nextHandle)
            && (r.status != STATUS_FAULT ==> r.state == s)
            && forall x :: 0 <= x < |s.memory| && !HostTarget(MapsOf(s, active), call.argument1, 8, x) ==>
                 r.state.memory[x] == s.memory[x]
  {
    var owner, ms := s.threads[active].process, MapsOf(s, active);
    assert ThreadShape(s.threads[active], |s.processes|);
    hide UserString, Rpc, Handles, Shape, OpenNamed, HostTarget, StringIs, StringFaults, StringTooLong, Runnable;
    var name := UserString(s.memory, ms, call.argument0, NAME_BUFFER_SIZE);
    if call.argument0 != 0 && call.argument1 != 0 && name.status == STATUS_OK {
      OpenNamedRefuses(s, active, owner, name.bytes, call.argument1);
    }
  }

  lemma OpenNamedRefuses(s: KernelState, active: nat, owner: nat, name: seq<u8>, target: u64)
    requires Executing(s, active) && s.nextHandle < U64_MAX && owner < |s.processes|
    requires OpenNamed(s, owner, name, target).status != STATUS_OK
    ensures var r := OpenNamed(s, owner, name, target);
            && r.state == s.(memory := r.state.memory, nextHandle := r.state.nextHandle)
            && (r.status != STATUS_FAULT ==> r.state == s)
            && forall x :: 0 <= x < |s.memory| && !HostTarget(s.processes[owner].mappings, target, 8, x) ==>
                 r.state.memory[x] == s.memory[x]
  {
    hide Rpc, Handles, Shape, Issue, FirstIn, HostTarget, Runnable;
    var e, k := EndpointByName(s, name), FreeChannel(s);
    if e.Some? && k.Some? {
      IssueRefuses(s, active, k.value, owner, e.value, target);
    }
  }

  lemma IssueRefuses(s: KernelState, active: nat, k: nat, owner: nat, e: nat, target: u64)
    requires Executing(s, active) && s.nextHandle < U64_MAX
    requires k < |s.channels| && s.channels[k].None? && owner < |s.processes| && e < |s.endpoints|
    ensures var r := Issue(s, k, owner, e, target);
            r.status != STATUS_OK ==>
              && r.status == STATUS_FAULT
              && r.state == s.(memory := r.state.memory, nextHandle := r.state.nextHandle)
              && forall x :: 0 <= x < |s.memory| && !HostTarget(s.processes[owner].mappings, target, 8, x) ==>
                   r.state.memory[x] == s.memory[x]
  {
    hide Rpc, Handles, Shape, Issue, HostTarget, Runnable;
    IssueTouches(s, k, owner, e, target);
    IssueKeeps(s, active, k, owner, e, target);
    assert s.channels[k := None] == s.channels;
  }

  lemma IssueTouches(s: KernelState, k: nat, owner: nat, e: nat, target: u64)
    requires Shape(s) && k < |s.channels| && owner < |s.processes| && e < |s.endpoints|
    ensures var r := Issue(s, k, owner, e, target);
            && r.status in {STATUS_OK, STATUS_FAULT}
            && r.state == s.(memory := r.state.memory, nextHandle := r.state.nextHandle, channels := r.state.channels)
            && forall x :: 0 <= x < |s.memory| && !HostTarget(s.processes[owner].mappings, target, 8, x) ==>
                 r.state.memory[x] == s.memory[x]
  {
    WriteUserMeaning(s.memory, s.processes[owner].mappings, target, LittleEndian(s.nextHandle, 8));
    hide Shape, FirstIn, HostTarget, WriteUser, LittleEndian, Backed, HostInjective, GuestBytes, RangeBacked, NewChannel;
  }

  // ----- RPC_REGISTER -----

  /** What RPC_REGISTER answers: three arguments, both addresses mapped, the name's string, the name free, an endpoint
      free, in this order. */
  ghost predicate RegisterAnswer(s: KernelState, active: nat, name: u64, callback: u64, completion: u64, status: i32)
    requires Shape(s) && active < |s.threads|
  {
    var given := name != 0 && callback != 0 && completion != 0;
    var mapped := Backed(MapsOf(s, active), callback) && Backed(MapsOf(s, active), completion);
    && (status == STATUS_INVALID_ARGUMENT <==> !given)
    && (status == STATUS_FAULT <==> given && (!mapped || Faults(s, active, name)))
    && (status == STATUS_BUFFER_TOO_SMALL <==> given && mapped && TooLong(s, active, name))
    && (status == STATUS_BAD_STATE <==> given && mapped && exists x :: Says(s, active, name, x) && Taken(s, x))
    && (status == STATUS_NO_MEMORY <==>
        given && mapped && NoFreeEndpoint(s) && exists x :: Says(s, active, name, x) && !Taken(s, x))
    && (status == STATUS_OK <==>
        given && mapped && !NoFreeEndpoint(s) && exists x :: Says(s, active, name, x) && !Taken(s, x))
  }

  lemma RegisterNamedAnswers(s: KernelState, active: nat, name: seq<u8>, callback: u64, completion: u64)
    requires Shape(s) && active < |s.threads|
    ensures RegisterNamed(s, active, name, callback, completion).status ==
            if Taken(s, name) then STATUS_BAD_STATE
            else if NoFreeEndpoint(s) then STATUS_NO_MEMORY else STATUS_OK
  {
    hide Shape, FirstIn, YieldUnlessServing;
    var e, f := EndpointByName(s, name), FreeEndpoint(s);
    assert e.Some? <==> Taken(s, name);
    assert f.None? <==> NoFreeEndpoint(s);
  }

  lemma RegisterStatus(s: KernelState, active: nat, call: SyscallContext)
    requires Shape(s) && active < |s.threads|
    ensures RegisterAnswer(s, active, call.argument0, call.argument1, call.argument2, Register(s, active, call).status)
  {
    hide UserString, RegisterNamed, StringIs, StringFaults, StringTooLong, Taken, NoFreeEndpoint, Backed;
    var ms := MapsOf(s, active);
    StringRead(s.memory, ms, call.argument0, NAME_BUFFER_SIZE);
    var name := UserString(s.memory, ms, call.argument0, NAME_BUFFER_SIZE);
    RegisterNamedAnswers(s, active, name.bytes, call.argument1, call.argument2);
    hide Shape;
    assert forall x :: Says(s, active, call.argument0, x) ==> x == name.bytes;
  }

  /** Thread t is the READY one that comes first in cyclic order after `after`. */
  ghost predicate FirstReady(s: KernelState, after: nat, t: nat) {
    Is(s, t, Ready) && forall u :: Is(s, u, Ready) ==>
      Distance(|s.threads|, after + 1, t) <= Distance(|s.threads|, after + 1, u)
  }

  /** The caller goes on, unless a thread is READY and the caller serves no pending call: then that READY thread runs,
      the caller is READY with an OK to return, and no other thread is touched. */
  ghost predicate Yielded(s: KernelState, s': KernelState, active: nat)
    requires active < |s.threads|
  {
    if (exists t :: Is(s, t, Ready)) && !(exists k :: IsServer(s, k, active)) then
      && s'.current.Some? && FirstReady(s, active, s'.current.value) && s'.current.value != active
      && s'.threads == s.threads[active := PrepareSyscallResume(s.threads[active], STATUS_OK).(state := Ready)]
                                [s'.current.value := s.threads[s'.current.value].(state := Running)]
    else s'.threads == s.threads && s'.current == s.current
  }

  lemma YieldIs(s: KernelState, active: nat)
    requires Shape(s) && s.current == Some(active) && Is(s, active, Running)
    ensures var r := YieldUnlessServing(s, active);
            Yielded(s, r, active) && r == s.(threads := r.threads, current := r.current)
  {
    var next := NextReady(s.threads, Some(active));
    NextReadyIsCyclicFirst(s.threads, Some(active));
    PendingByServerFinds(s, active);
    assert ThreadShape(s.threads[active], |s.processes|);
    hide Shape, NextReady, PendingByServer, IsServer;
    assert next.Some? ==> Is(s, next.value, Ready) && FirstReady(s, active, next.value);
  }

  /** An RPC_REGISTER that answers OK turns a free endpoint into one of the caller under its string, with argument 1 as
      callback and argument 2 as completion address; the rest of the kernel's tables stays. */
  lemma RegisterGives(s: KernelState, active: nat, call: SyscallContext) returns (e: nat, name: seq<u8>)
    requires Executing(s, active) && Register(s, active, call).status == STATUS_OK
    ensures e < |s.endpoints| && !s.endpoints[e].inUse && Says(s, active, call.argument0, name)
    ensures var r := Register(s, active, call).state;
            && r == s.(endpoints := r.endpoints, threads := r.threads, current := r.current)
            && r.endpoints == s.endpoints[e := EndpointRecord(
                 true, false, name, Some(s.threads[active].process), Some(active), call.argument1, call.argument2)]
            && Yielded(s, r, active)
  {
    var ms := MapsOf(s, active);
    hide UserString, Rpc, Handles, FirstIn, StringIs, StringFaults, StringTooLong, YieldUnlessServing, Backed;
    StringRead(s.memory, ms, call.argument0, NAME_BUFFER_SIZE);
    name := UserString(s.memory, ms, call.argument0, NAME_BUFFER_SIZE).bytes;
    e := FreeEndpoint(s).value;
    InstallIs(s, e, active, name, call.argument1, call.argument2);
    hide Shape, Yielded, Install;
    var x :| StringIs(s.memory, ms, call.argument0, NAME_BUFFER_SIZE, x);
  }

  lemma InstallIs(s: KernelState, e: nat, active: nat, name: seq<u8>, callback: u64, completion: u64)
    requires Shape(s) && s.current == Some(active) && Is(s, active, Running) && e < |s.endpoints|
    ensures var r := Install(s, e, active, name, callback, completion).state;
            && r == s.(endpoints := r.endpoints, threads := r.threads, current := r.current)
            && r.endpoints == s.endpoints[e := EndpointRecord(
                 true, false, name, Some(s.threads[active].process), Some(active), callback, completion)]
            && Yielded(s, r, active)
  {
    assert ThreadShape(s.threads[active], |s.processes|);
    var s1 := PutEndpoint(s, e, EndpointRecord(true, false, name, Some(s.threads[active].process), Some(active),
                                               callback, completion));
    YieldIs(s1, active);
    hide Shape, YieldUnlessServing;
    assert forall t, st :: Is(s1, t, st) == Is(s, t, st);
    assert forall k :: IsServer(s1, k, active) == IsServer(s, k, active);
    assert forall t: nat :: FirstReady(s1, active, t) == FirstReady(s, active, t);
  }

  lemma RegisterRefuses(s: KernelState, active: nat, call: SyscallContext)
    requires Shape(s) && active < |s.threads| && Register(s, active, call).status != STATUS_OK
    ensures Register(s, active, call).state == s
  {
    hide UserString, FirstIn, YieldUnlessServing, Backed;
    assert ThreadShape(s.threads[active], |s.processes|);
    hide Shape;
  }

  // ----- RPC_CLOSE -----

  /** Channel k is the one the thread's process holds under this handle. */
  ghost predicate Owns(s: KernelState, active: nat, k: int, handle: u64)
    requires active < |s.threads|
  {
    Live(s, k) && s.channels[k].value.handle == handle && s.channels[k].value.clientProcess == s.threads[active].process
  }

  ghost predicate Idle(s: KernelState, k: int) {
    Live(s, k) && s.channels[k].value.pendingClient.None? && s.channels[k].value.pendingServer.None?
  }

  /** What RPC_CLOSE answers. */
  ghost predicate CloseAnswer(s: KernelState, active: nat, handle: u64, status: i32)
    requires active < |s.threads|
  {
    && (status == STATUS_INVALID_ARGUMENT <==> handle == 0)
    && (status == STATUS_WRONG_TYPE <==> handle != 0 && NamesOther(s, handle))
    && (status == STATUS_BAD_HANDLE <==>
        handle != 0 && !NamesOther(s, handle) && forall k :: !Owns(s, active, k, handle))
    && (status == STATUS_BAD_STATE <==> handle != 0 && exists k :: Owns(s, active, k, handle) && !Idle(s, k))
    && (status == STATUS_OK <==> handle != 0 && exists k :: Owns(s, active, k, handle) && Idle(s, k))
  }

  lemma LookupByOwner(s: KernelState, active: nat, handle: u64)
    requires Handles(s) && active < |s.threads|
    ensures var r := LookupChannel(s, s.threads[active].process, handle);
            && (r == Refused(STATUS_WRONG_TYPE) <==> NamesOther(s, handle))
            && (r == Refused(STATUS_BAD_HANDLE) <==> !NamesOther(s, handle) && forall k :: !Owns(s, active, k, handle))
            && (forall k: nat :: r == Found(k) <==> Owns(s, active, k, handle))
            && (r.Refused? ==> r.status in {STATUS_WRONG_TYPE, STATUS_BAD_HANDLE})
  {
    var owner := s.threads[active].process;
    LookupIsExact(s, owner, handle);
    assert forall k :: Live(s, k) && s.channels[k].value.handle == handle && s.channels[k].value.clientProcess == owner ==>
      Owns(s, active, k, handle);
    hide ObjectExists, FirstIn, Handles;
  }

  lemma CloseStatus(s: KernelState, active: nat, call: SyscallContext)
    requires Executing(s, active)
    ensures CloseAnswer(s, active, call.argument0, Close(s, active, call).status)
  {
    LookupByOwner(s, active, call.argument0);
    hide Rpc, Handles, Shape, NamesOther, LookupChannel, EraseChannel, Owns;
  }

  /** An RPC_CLOSE that answers OK empties the slot of the caller's channel, and its handle names nothing any more. */
  lemma CloseGives(s: KernelState, active: nat, call: SyscallContext) returns (k: nat)
    requires Executing(s, active) && Close(s, active, call).status == STATUS_OK
    ensures Owns(s, active, k, call.argument0)
    ensures Close(s, active, call).state == s.(channels := s.channels[k := None])
    ensures forall p: nat :: LookupChannel(Close(s, active, call).state, p, call.argument0) == Refused(STATUS_BAD_HANDLE)
  {
    hide Rpc, Handles, Shape, NamesOther, FirstIn, ObjectExists, EraseChannel;
    k := ClosedSlot(s, active, call);
    EraseKeeps(s, active, k);
    ClosedNamesNothing(s, k);
    ClosedFindsNothing(PutChannel(s, k, None), call.argument0);
  }

  lemma ClosedSlot(s: KernelState, active: nat, call: SyscallContext) returns (k: nat)
    requires Executing(s, active) && Close(s, active, call).status == STATUS_OK
    ensures Owns(s, active, k, call.argument0) && Idle(s, k)
    ensures Close(s, active, call).state == PutChannel(s, k, None) == s.(channels := s.channels[k := None])
  {
    LookupByOwner(s, active, call.argument0);
    k := LookupChannel(s, s.threads[active].process, call.argument0).slot;
    EraseKeeps(s, active, k);
    hide Rpc, Handles, Shape, NamesOther, LookupChannel, EraseChannel, Owns;
  }

  lemma ClosedNamesNothing(s: KernelState, k: nat)
    requires Handles(s) && Live(s, k)
    ensures var s', h := s.(channels := s.channels[k := None]), s.channels[k].value.handle;
            !NamesOther(s', h) && forall j :: Live(s', j) ==> s'.channels[j].value.handle != h
  {
    var s' := s.(channels := s.channels[k := None]);
    ObjectsUnchanged(s, s');
    hide ObjectExists;
    assert forall j :: Live(s', j) ==> Live(s, j) && j != k;
  }

  lemma ClosedFindsNothing(s: KernelState, h: u64)
    requires Handles(s) && !NamesOther(s, h) && forall j :: Live(s, j) ==> s.channels[j].value.handle != h
    ensures forall p: nat :: LookupChannel(s, p, h) == Refused(STATUS_BAD_HANDLE)
  {
    hide Handles, NamesOther, LookupChannel;
    forall p: nat ensures LookupChannel(s, p, h) == Refused(STATUS_BAD_HANDLE) {
      LookupIsExact(s, p, h);
    }
  }

  lemma CloseRefuses(s: KernelState, active: nat, call: SyscallContext)
    requires Shape(s) && active < |s.threads| && Close(s, active, call).status != STATUS_OK
    ensures Close(s, active, call).state == s
  {
    hide Shape, EraseChannel, LookupChannel;
  }

  // ----- RPC_CALL -----

  ghost function EndpointOf(s: KernelState, k: int): (e: EndpointRecord)
    requires Shape(s) && Live(s, k)
    ensures EndpointShape(e, |s.processes|, |s.threads|)
  {
    assert ChannelShape(s.channels[k].value, |s.processes|, |s.threads|, |s.endpoints|);
    s.endpoints[s.channels[k].value.endpoint]
  }

  /** A call on channel k could start now: its endpoint is registered and idle, and so is the channel. */
  ghost predicate CanStart(s: KernelState, k: int)
    requires Shape(s) && Live(s, k)
  {
    EndpointOf(s, k).inUse && !EndpointOf(s, k).busy && Idle(s, k)
  }

  /** The endpoint's process still has both addresses of the endpoint mapped. */
  ghost predicate CanEnter(s: KernelState, k: int)
    requires Shape(s) && Live(s, k)
  {
    var e := EndpointOf(s, k);
    && e.ownerProcess.Some? && e.callback != 0 && e.completion != 0
    && Backed(s.processes[e.ownerProcess.value].mappings, e.callback)
    && Backed(s.processes[e.ownerProcess.value].mappings, e.completion)
  }

  ghost predicate NoStack(s: KernelState, k: int)
    requires Shape(s) && Live(s, k)
  {
    EndpointOf(s, k).ownerThread.Some? && s.threads[EndpointOf(s, k).ownerThread.value].context.stackPointer == 0
  }

  /** The highest multiple of 16 at which the request ends at or below the server's stack pointer. */
  function RequestPlace(sp: u64, size: u64): int {
    (sp - size) / 16 * 16
  }

  /** There is room for a request of `size` bytes and a return address below the server's stack pointer, and all bytes
      involved are mapped. */
  ghost predicate CanDeliver(s: KernelState, k: int, request: u64, size: u64)
    requires Shape(s) && Live(s, k)
  {
    var e := EndpointOf(s, k);
    && e.ownerProcess.Some? && e.ownerThread.Some?
    && var target := s.processes[e.ownerProcess.value].mappings;
       var sp := s.threads[e.ownerThread.value].context.stackPointer;
       var address := RequestPlace(sp, size);
       && sp > size + 8 && address > 8
       && RangeBacked(ClientMaps(s, k), request, size)
       && RangeBacked(target, address, size) && RangeBacked(target, address - 8, 8)
  }

  ghost function ClientMaps(s: KernelState, k: int): seq<Mapping>
    requires Shape(s) && Live(s, k)
  {
    assert ChannelShape(s.channels[k].value, |s.processes|, |s.threads|, |s.endpoints|);
    s.processes[s.channels[k].value.clientProcess].mappings
  }

  /** What a call on the caller's channel k answers, its arguments being acceptable. */
  ghost predicate CallOnAnswer(s: KernelState, k: int, request: u64, size: u64, status: i32)
    requires Shape(s) && Live(s, k)
  {
    && (status == STATUS_PEER_CLOSED <==> !EndpointOf(s, k).inUse)
    && (status == STATUS_WOULD_BLOCK <==> EndpointOf(s, k).inUse && !CanStart(s, k))
    && (status == STATUS_BAD_STATE <==> CanStart(s, k) && CanEnter(s, k) && NoStack(s, k))
    && (status == STATUS_OK <==> CanStart(s, k) && CanEnter(s, k) && CanDeliver(s, k, request, size))
    && (status == STATUS_FAULT <==>
        CanStart(s, k) && !(CanEnter(s, k) && (NoStack(s, k) || CanDeliver(s, k, request, size))))
  }

  ghost predicate CallAnswer(s: KernelState, active: nat, handle: u64, request: u64, size: u64, status: i32)
    requires Shape(s) && active < |s.threads|
  {
    var given := handle != 0 && request != 0 && 0 < size <= MAX_REQUEST_SIZE;
    && (status == STATUS_INVALID_ARGUMENT <==> !given)
    && (status == STATUS_WRONG_TYPE <==> given && NamesOther(s, handle))
    && (status == STATUS_BAD_HANDLE <==> given && !NamesOther(s, handle) && forall k :: !Owns(s, active, k, handle))
    && forall k :: given && Owns(s, active, k, handle) ==> CallOnAnswer(s, k, request, size, status)
  }

  lemma PlaceStatus(s: KernelState, e: nat, server: nat, client: nat, request: u64, size: u64, address: u64)
    requires Shape(s) && e < |s.endpoints| && server < |s.threads| && client < |s.processes| && address > 8
    requires s.endpoints[e].ownerProcess.Some? && s.endpoints[e].ownerProcess.value < |s.processes|
    ensures var target := s.processes[s.endpoints[e].ownerProcess.value].mappings;
            PlaceRequest(s, e, server, client, request, size, address).status ==
            if RangeBacked(s.processes[client].mappings, request, size) && RangeBacked(target, address, size)
               && RangeBacked(target, address - 8, 8)
            then STATUS_OK else STATUS_FAULT
  {
    var source := s.processes[client].mappings;
    var target := s.processes[s.endpoints[e].ownerProcess.value].mappings;
    assert InMemory(source, |s.memory|) && InMemory(target, |s.memory|);
    CopyUserMeaning(s.memory, source, request, target, address, size);
    var copy := CopyUser(s.memory, source, request, target, address, size);
    WriteUserMeaning(copy.memory, target, address - 8, LittleEndian(s.endpoints[e].completion, 8));
    hide Shape, InMemory, CopyUser, WriteUser, LittleEndian, RangeBacked, HostInjective, HostSeparate, HostTarget,
      GuestBytes;
  }

  /** prepare_server_thread's checks, up to the copying. */
  lemma PrepareChecks(s: KernelState, e: nat, server: nat, client: nat, request: u64, size: u64)
    requires Shape(s) && e < |s.endpoints| && server < |s.threads| && client < |s.processes|
    requires s.endpoints[e].ownerProcess.Some? && s.endpoints[e].ownerProcess.value < |s.processes|
    requires request != 0 && 0 < size <= MAX_REQUEST_SIZE
    ensures var ep, sp := s.endpoints[e], s.threads[server].context.stackPointer;
            var target := s.processes[ep.ownerProcess.value].mappings;
            var status := PrepareServer(s, e, server, client, request, size).status;
            && (ep.callback == 0 || ep.completion == 0 || !Backed(target, ep.callback) || !Backed(target, ep.completion)
                ==> status == STATUS_FAULT)
            && (ep.callback != 0 && ep.completion != 0 && Backed(target, ep.callback) && Backed(target, ep.completion) ==>
                  status == if sp == 0 then STATUS_BAD_STATE
                            else if sp <= size + 8 || AlignDown16(sp - size) <= 8 then STATUS_FAULT
                            else PlaceRequest(s, e, server, client, request, size, AlignDown16(sp - size)).status)
  {
    hide Shape, Backed, PlaceRequest, SameTables;
  }

  lemma PrepareStatus(s: KernelState, k: nat, request: u64, size: u64)
    requires Shape(s) && Live(s, k) && EndpointOf(s, k).ownerProcess.Some? && EndpointOf(s, k).ownerThread.Some?
    requires request != 0 && 0 < size <= MAX_REQUEST_SIZE
    ensures var c := s.channels[k].value;
            && c.endpoint < |s.endpoints| && c.clientProcess < |s.processes|
            && PrepareServer(s, c.endpoint, EndpointOf(s, k).ownerThread.value, c.clientProcess, request, size).status
               == if !CanEnter(s, k) then STATUS_FAULT
                  else if NoStack(s, k) then STATUS_BAD_STATE
                  else if CanDeliver(s, k, request, size) then STATUS_OK else STATUS_FAULT
  {
    var c, e := s.channels[k].value, EndpointOf(s, k);
    assert ChannelShape(c, |s.processes|, |s.threads|, |s.endpoints|);
    var server := e.ownerThread.value;
    hide Shape, Backed, CanDeliver, PlaceRequest, AlignDown16, PrepareServer;
    PrepareChecks(s, c.endpoint, server, c.clientProcess, request, size);
    DeliverStatus(s, k, request, size);
  }

  lemma DeliverStatus(s: KernelState, k: nat, request: u64, size: u64)
    requires Shape(s) && Live(s, k) && EndpointOf(s, k).ownerProcess.Some? && EndpointOf(s, k).ownerThread.Some?
    ensures var c, server := s.channels[k].value, EndpointOf(s, k).ownerThread.value;
            var sp := s.threads[server].context.stackPointer;
            && c.endpoint < |s.endpoints| && c.clientProcess < |s.processes|
            && (sp <= size + 8 || AlignDown16(sp - size) <= 8 ==> !CanDeliver(s, k, request, size))
            && (sp > size + 8 && AlignDown16(sp - size) > 8 ==>
                  PlaceRequest(s, c.endpoint, server, c.clientProcess, request, size, AlignDown16(sp - size)).status
                  == if CanDeliver(s, k, request, size) then STATUS_OK else STATUS_FAULT)
  {
    var c, e := s.channels[k].value, EndpointOf(s, k);
    assert ChannelShape(c, |s.processes|, |s.threads|, |s.endpoints|);
    var server := e.ownerThread.value;
    var sp := s.threads[server].context.stackPointer;
    PlaceIsAligned(sp, size);
    hide Shape, RangeBacked, PlaceRequest, AlignDown16, RequestPlace;
    if sp > size + 8 && AlignDown16(sp - size) > 8 {
      PlaceStatus(s, c.endpoint, server, c.clientProcess, request, size, AlignDown16(sp - size));
    }
  }

  lemma PlaceIsAligned(sp: u64, size: u64)
    ensures sp >= size ==> AlignDown16(sp - size) == RequestPlace(sp, size)
  {
  }

  lemma CallOnStatus(s: KernelState, active: nat, k: nat, request: u64, size: u64)
    requires Executing(s, active) && Live(s, k) && request != 0 && 0 < size <= MAX_REQUEST_SIZE
    ensures CallOnAnswer(s, k, request, size, CallOn(s, active, k, request, size).status)
  {
    var c, e := s.channels[k].value, EndpointOf(s, k);
    assert ChannelShape(c, |s.processes|, |s.threads|, |s.endpoints|);
    assert EndpointOwners(s);
    if e.inUse {
      OwnerAlive(s, c.endpoint);
      PrepareStatus(s, k, request, size);
    }
    hide Shape, Rpc, Handles, PrepareServer, Accept, CanEnter, NoStack, CanDeliver;
    assert CanStart(s, k) <==> e.inUse && !e.busy && !ChannelBusy(c);
    assert CanDeliver(s, k, request, size) ==> !NoStack(s, k) by { DeliveryNeedsStack(s, k, request, size); }
  }

  lemma DeliveryNeedsStack(s: KernelState, k: nat, request: u64, size: u64)
    requires Shape(s) && Live(s, k)
    ensures CanDeliver(s, k, request, size) ==> !NoStack(s, k)
  {
    hide Shape, RangeBacked;
  }

  lemma CallStatus(s: KernelState, active: nat, call: SyscallContext)
    requires Executing(s, active)
    ensures CallAnswer(s, active, call.argument0, call.argument1, call.argument2, Call(s, active, call).status)
  {
    hide Rpc, Shape, NamesOther, CallOn, CallOnAnswer, LookupChannel;
    LookupByOwner(s, active, call.argument0);
    hide Handles, Owns;
    var given := call.argument0 != 0 && call.argument1 != 0 && 0 < call.argument2 <= MAX_REQUEST_SIZE;
    var found := LookupChannel(s, s.threads[active].process, call.argument0);
    if given && found.Found? {
      CallOnStatus(s, active, found.slot, call.argument1, call.argument2);
      CallOnAnswers(s, active, found.slot, call.argument1, call.argument2);
    }
  }

  lemma CallOnAnswers(s: KernelState, active: nat, k: nat, request: u64, size: u64)
    requires Executing(s, active) && Live(s, k) && request != 0 && 0 < size <= MAX_REQUEST_SIZE
    ensures CallOn(s, active, k, request, size).status
            in {STATUS_OK, STATUS_PEER_CLOSED, STATUS_WOULD_BLOCK, STATUS_BAD_STATE, STATUS_FAULT}
  {
    CallOnStatus(s, active, k, request, size);
    hide Shape, Rpc, Handles, CanEnter, NoStack, CanDeliver, CanStart, CallOn;
  }

  // ----- RPC_COMPLETE -----

  /** Channel k is the lowest that is pending on the thread. */
  ghost predicate Serves(s: KernelState, active: nat, k: nat) {
    IsServer(s, k, active) && forall j: nat :: j < k ==> !IsServer(s, j, active)
  }

  /** The channel is idle again, its endpoint free for the next call, and no other channel or endpoint differs. */
  ghost predicate Freed(s: KernelState, s': KernelState, k: nat)
    requires Live(s, k)
  {
    var c := s.channels[k].value;
    && Idle(s', k) && |s'.channels| == |s.channels| && s'.channels == s.channels[k := s'.channels[k]]
    && s'.channels[k].value.handle == c.handle && s'.channels[k].value.clientProcess == c.clientProcess
    && s'.channels[k].value.endpoint == c.endpoint < |s.endpoints|
    && s'.endpoints == s.endpoints[c.endpoint := s.endpoints[c.endpoint].(busy := false)]
    && s'.memory == s.memory
  }

  lemma CancelFrees(s: KernelState, k: nat)
    requires Shape(s) && Live(s, k)
    ensures Freed(s, CancelCall(s, k), k) && CancelCall(s, k).threads == s.threads && CancelCall(s, k).current == s.current
  {
    assert ChannelShape(s.channels[k].value, |s.processes|, |s.threads|, |s.endpoints|);
    hide Shape;
  }

  lemma WakeKeepsFreed(s: KernelState, s2: KernelState, k: nat, client: nat, status: i32)
    requires Live(s, k) && Freed(s, s2, k) && Shape(s2) && client < |s2.threads|
    ensures Freed(s, SetCurrent(WakeClient(s2, client, status), Some(client)), k)
  {
    SetCurrentExact(WakeClient(s2, client, status), Some(client));
    hide Shape, SetCurrent;
  }

  /** RPC_COMPLETE of a thread that serves no call answers BAD_STATE and changes nothing; otherwise it frees the lowest
      pending channel and its endpoint, and answers OK, or to a thread that called itself the status it passed. */
  lemma CompleteAnswers(s: KernelState, active: nat, status: i32)
    requires Executing(s, active)
    ensures var r := CompleteCall(s, active, status);
            && ((forall k :: !IsServer(s, k, active)) ==> r == Outcome(s, STATUS_BAD_STATE))
            && forall k: nat :: Serves(s, active, k) ==>
                 && Freed(s, r.state, k)
                 && r.status == if s.channels[k].value.pendingClient == Some(active) then status else STATUS_OK
  {
    hide Handles, SavedReady;
    PendingByServerFinds(s, active);
    match PendingByServer(s, active)
    case None =>
      hide Rpc, Shape;
    case Some(k) =>
      assert s.channels[k].value.pendingClient.Some?;
      CompleteCases(s, active, status, k);
      var c := s.channels[k].value;
      assert ChannelShape(c, |s.processes|, |s.threads|, |s.endpoints|);
      var s1 := PutThread(s, active, Restored(s.threads[active], c));
      CancelFrees(s1, k);
      var s2 := CancelCall(s1, k);
      hide Rpc, Shape, CancelCall, SetCurrent, WakeClient, CompleteCall, PendingByServer;
      assert Freed(s, s2, k);
      if c.pendingClient != Some(active) {
        WakeKeepsFreed(s, s2, k, c.pendingClient.value, status);
      }
      hide Freed;
      assert forall j: nat :: Serves(s, active, j) ==> j == k;
  }

  // ----- THREAD_EXIT -----

  /** A thread that exits keeps its exit status and loses its endpoints; the endpoints of the others stay as they are. */
  ghost predicate Left(s: KernelState, s': KernelState, active: nat, exitStatus: u64) {
    && Is(s', active, Exited) && s'.threads[active].exitStatus == exitStatus
    && |s'.endpoints| == |s.endpoints| && s'.memory == s.memory
    && (forall e :: 0 <= e < |s.endpoints| && s.endpoints[e].ownerThread != Some(active) ==>
          s'.endpoints[e] == s.endpoints[e])
    && (forall e :: 0 <= e < |s.endpoints| && s.endpoints[e].ownerThread == Some(active) ==>
          !s'.endpoints[e].inUse && !s'.endpoints[e].busy && s'.endpoints[e].ownerThread == None)
  }

  /** What the scheduler does when the current thread has left: the READY thread that comes first in cyclic order runs,
      and only without one does no thread run. */
  ghost predicate HandedOver(s': KernelState, active: nat) {
    && (s'.current.None? ==> forall u :: !Is(s', u, Ready))
    && (s'.current.Some? ==>
          && Is(s', s'.current.value, Running) && s'.current.value != active
          && forall u :: Is(s', u, Ready) ==>
               Distance(|s'.threads|, active + 1, s'.current.value) < Distance(|s'.threads|, active + 1, u))
  }

  lemma HandsOver(s: KernelState, active: nat)
    requires Shape(s) && s.current == Some(active) && Is(s, active, Exited)
    ensures var r := ScheduleNext(s);
            && HandedOver(r, active) && r.endpoints == s.endpoints && r.memory == s.memory && |r.threads| == |s.threads|
            && r.threads[active] == s.threads[active]
  {
    var next := NextReady(s.threads, s.current);
    NextReadyIsCyclicFirst(s.threads, s.current);
    if next.Some? {
      SetCurrentExact(s, next);
    }
    hide Shape, SetCurrent, NextReady;
  }

  /** The endpoint of a call a live thread serves is that thread's. */
  lemma ServedEndpoint(s: KernelState, k: nat, active: nat)
    requires Executing(s, active) && IsServer(s, k, active)
    ensures s.channels[k].value.endpoint < |s.endpoints|
    ensures s.endpoints[s.channels[k].value.endpoint].ownerThread == Some(active)
  {
    assert PendingIsBusy(s);
    hide Shape, Handles, SavedReady, OneRunning, PendingEnds, OneReply, BlockedWaits, EndpointOwners, DistinctNames;
  }

  lemma FailTouches(s: KernelState, active: nat, status: i32)
    requires Executing(s, active)
    ensures var r := FailPendingCall(s, active, status);
            && r.memory == s.memory && |r.endpoints| == |s.endpoints|
            && forall e :: 0 <= e < |s.endpoints| ==>
                 && r.endpoints[e].ownerThread == s.endpoints[e].ownerThread
                 && (s.endpoints[e].ownerThread != Some(active) ==> r.endpoints[e] == s.endpoints[e])
  {
    PendingByServerFinds(s, active);
    match PendingByServer(s, active)
    case None =>
      hide Rpc, Shape;
    case Some(k) =>
      ServedEndpoint(s, k, active);
      hide Rpc, Handles;
      CancelFrees(s, k);
      hide CancelCall, Shape;
  }

  lemma ExitLeaves(s: KernelState, active: nat, exitStatus: u64)
    requires Executing(s, active)
    ensures var s1 := HandleThreadExit(s, active, STATUS_PEER_CLOSED);
            var t := s1.threads[active].(state := Exited, exitStatus := exitStatus);
            ThreadShape(t, |s.processes|) && Left(s, PutThread(s1, active, t), active, exitStatus)
            && s1.current == Some(active)
  {
    FailTouches(s, active, STATUS_PEER_CLOSED);
    FailEffect(s, active, STATUS_PEER_CLOSED);
    hide Rpc, Handles, FailPendingCall, Slots, CrossClient, PendingByServer, Awake;
    var s1 := HandleThreadExit(s, active, STATUS_PEER_CLOSED);
    assert ThreadShape(s1.threads[active], |s1.processes|);
    hide Shape;
  }

  lemma ExitAnswers(s: KernelState, active: nat, exitStatus: u64)
    requires Executing(s, active)
    ensures var r := TerminateCurrent(s, exitStatus, STATUS_PEER_CLOSED);
            Left(s, r, active, exitStatus) && HandedOver(r, active)
  {
    ExitLeaves(s, active, exitStatus);
    hide Rpc, Handles, HandleThreadExit, ScheduleNext, Shape, HandedOver, Runnable;
    var s1 := HandleThreadExit(s, active, STATUS_PEER_CLOSED);
    HandsOver(PutThread(s1, active, s1.threads[active].(state := Exited, exitStatus := exitStatus)), active);
  }
}