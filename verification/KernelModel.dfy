/**
 The kernel's threads, endpoints and channels as values, and one trap as a function on them: save the frame,
 dispatch the system call, pass the runnable gate, load the next frame. Slots stand for objects, for any number
 of slots. KernelRuntime proves that the kernel's objects, updated in place, follow these functions.
 */
module KernelModel {
  import opened Words
  import opened Status
  import opened Search
  import opened AddressSpaces
  import opened UserCopy

  const NAME_BUFFER_SIZE: nat := 32
  const LOG_BUFFER_SIZE: nat := 96
  const MAX_REQUEST_SIZE: nat := 256
  const REGISTER_COUNT: nat := 12
  const SIMD_QWORD_COUNT: nat := 20

  datatype ThreadState = Empty | Ready | Running | Blocked | Exited

  datatype ThreadContext = ThreadContext(instructionPointer: u64, stackPointer: u64, flags: u64, argument0: u64)

  datatype ResumeKind = ResumeSyscall | ResumeRpc

  datatype Resume = Resume(kind: ResumeKind, instructionPointer: u64, stackPointer: u64, flags: u64,
                           argument0: u64, argument1: u64, status: i32, completion: u64)

  datatype ThreadRecord = ThreadRecord(
    handle: u64, process: nat, state: ThreadState, context: ThreadContext, resume: Resume, exitStatus: u64,
    pendingStatus: i32, registers: seq<u64>, simd: seq<u64>)

  datatype ProcessRecord = ProcessRecord(handle: u64, mappings: seq<Mapping>)

  datatype EndpointRecord = EndpointRecord(
    inUse: bool, busy: bool, name: seq<u8>, ownerProcess: Option<nat>, ownerThread: Option<nat>,
    callback: u64, completion: u64)

  datatype ChannelRecord = ChannelRecord(
    handle: u64, clientProcess: nat, endpoint: nat, pendingClient: Option<nat>, pendingServer: Option<nat>,
    savedState: ThreadState, savedContext: ThreadContext, savedRegisters: seq<u64>, savedSimd: seq<u64>)

  datatype KernelState = KernelState(
    processes: seq<ProcessRecord>, threads: seq<ThreadRecord>, endpoints: seq<EndpointRecord>,
    channels: seq<Option<ChannelRecord>>, otherHandles: set<u64>, current: Option<nat>, nextHandle: u64,
    memory: seq<u8>)

  /** struct x64_syscall_frame. */
  datatype Frame = Frame(r9: u64, r8: u64, r10: u64, rdx: u64, rsi: u64, rdi: u64, rax: u64, rcx: u64, r11: u64,
                         rsp: u64, r15: u64, r14: u64, r13: u64, r12: u64, rbp: u64, rbx: u64, xmm: seq<u64>)

  datatype SyscallContext = SyscallContext(
    number: u64, instructionPointer: u64, stackPointer: u64, flags: u64, argument0: u64, argument1: u64, argument2: u64)

  datatype Outcome = Outcome(state: KernelState, status: i32)

  /** What one trap does: the new kernel state, the status of the call, and the frame loaded for the thread that
      runs next, absent when no thread is runnable and the run ends. */
  datatype TrapResult = TrapResult(state: KernelState, status: i32, frame: Option<Frame>)

  // ----- Shape: every slot reference names a slot, every table can be copied through -----

  predicate SlotInRange(slot: Option<nat>, count: nat) {
    slot.Some? ==> slot.value < count
  }

  predicate ThreadShape(t: ThreadRecord, processes: nat) {
    t.process < processes && |t.registers| == REGISTER_COUNT && |t.simd| == SIMD_QWORD_COUNT
  }

  predicate EndpointShape(e: EndpointRecord, processes: nat, threads: nat) {
    SlotInRange(e.ownerProcess, processes) && SlotInRange(e.ownerThread, threads)
  }

  predicate ChannelShape(c: ChannelRecord, processes: nat, threads: nat, endpoints: nat) {
    && c.clientProcess < processes && c.endpoint < endpoints
    && SlotInRange(c.pendingClient, threads) && SlotInRange(c.pendingServer, threads)
    && |c.savedRegisters| == REGISTER_COUNT && |c.savedSimd| == SIMD_QWORD_COUNT
  }

  ghost predicate Shape(s: KernelState) {
    && (forall p :: 0 <= p < |s.processes| ==> InMemory(s.processes[p].mappings, |s.memory|))
    && (forall t :: 0 <= t < |s.threads| ==> ThreadShape(s.threads[t], |s.processes|))
    && (forall e :: 0 <= e < |s.endpoints| ==> EndpointShape(s.endpoints[e], |s.processes|, |s.threads|))
    && (forall c :: 0 <= c < |s.channels| && s.channels[c].Some? ==>
          ChannelShape(s.channels[c].value, |s.processes|, |s.threads|, |s.endpoints|))
    && SlotInRange(s.current, |s.threads|)
  }

  /** Processes, memory objects, table sizes and the handle counter stay. */
  ghost predicate SameTables(s: KernelState, s': KernelState) {
    && s'.processes == s.processes && s'.otherHandles == s.otherHandles && s'.nextHandle == s.nextHandle
    && |s'.threads| == |s.threads| && |s'.endpoints| == |s.endpoints| && |s'.channels| == |s.channels|
    && |s'.memory| == |s.memory|
  }

  /** As SameTables, but one handle may have been issued. */
  ghost predicate SameTablesIssuing(s: KernelState, s': KernelState) {
    && (s'.nextHandle == s.nextHandle || s'.nextHandle == Wrap64(s.nextHandle + 1))
    && SameTables(s.(nextHandle := s'.nextHandle), s')
  }

  // ----- Threads (kernel/thread.cpp) -----

  function SyncResume(t: ThreadRecord): ThreadRecord {
    t.(resume := Resume(ResumeSyscall, t.context.instructionPointer, t.context.stackPointer, t.context.flags,
                        t.context.argument0, 0, t.pendingStatus, 0))
  }

  function SetUserContext(t: ThreadRecord, context: ThreadContext): ThreadRecord {
    SyncResume(t.(context := context))
  }

  function PrepareSyscallResume(t: ThreadRecord, status: i32): ThreadRecord {
    SyncResume(t.(pendingStatus := status))
  }

  function PrepareRpcResume(t: ThreadRecord, callback: u64, completion: u64, argument0: u64, argument1: u64, sp: u64)
    : ThreadRecord
  {
    t.(resume := Resume(ResumeRpc, callback, sp, t.context.flags, argument0, argument1, STATUS_OK, completion))
  }

  // ----- Slot updates -----

  ghost function PutThread(s: KernelState, i: nat, t: ThreadRecord): (r: KernelState)
    requires Shape(s) && i < |s.threads| && ThreadShape(t, |s.processes|)
    ensures Shape(r) && SameTables(s, r)
  {
    s.(threads := s.threads[i := t])
  }

  ghost function PutEndpoint(s: KernelState, i: nat, e: EndpointRecord): (r: KernelState)
    requires Shape(s) && i < |s.endpoints| && EndpointShape(e, |s.processes|, |s.threads|)
    ensures Shape(r) && SameTables(s, r)
  {
    s.(endpoints := s.endpoints[i := e])
  }

  ghost function PutChannel(s: KernelState, i: nat, c: Option<ChannelRecord>): (r: KernelState)
    requires Shape(s) && i < |s.channels|
    requires c.Some? ==> ChannelShape(c.value, |s.processes|, |s.threads|, |s.endpoints|)
    ensures Shape(r) && SameTables(s, r)
  {
    s.(channels := s.channels[i := c])
  }

  ghost function PutMemory(s: KernelState, memory: seq<u8>): (r: KernelState)
    requires Shape(s) && |memory| == |s.memory|
    ensures Shape(r) && SameTables(s, r)
  {
    s.(memory := memory)
  }

  // ----- Scheduler (kernel/user_runtime.cpp) -----

  predicate IsReady(t: ThreadRecord) {
    t.state == Ready
  }

  /** The first READY thread after slot `after`, wrapping around and trying `after` itself last. */
  function NextReady(threads: seq<ThreadRecord>, after: Option<nat>): (r: Option<nat>)
    requires SlotInRange(after, |threads|)
    ensures r.Some? ==> r.value < |threads| && IsReady(threads[r.value])
    ensures r.None? ==> forall i :: 0 <= i < |threads| ==> !IsReady(threads[i])
  {
    var start := if after.Some? then after.value + 1 else 0;
    var ahead := FirstIn(threads, IsReady, start, |threads|);
    if ahead.Some? then ahead else FirstIn(threads, IsReady, 0, start)
  }

  ghost function SetCurrent(s: KernelState, next: Option<nat>): (r: KernelState)
    requires Shape(s) && SlotInRange(next, |s.threads|)
    ensures Shape(r) && SameTables(s, r)
  {
    var s1 :=
      if s.current.Some? && s.current != next && s.threads[s.current.value].state == Running
      then PutThread(s, s.current.value, s.threads[s.current.value].(state := Ready))
      else s;
    var s2 := s1.(current := next);
    if next.Some? && s2.threads[next.value].state == Ready
    then PutThread(s2, next.value, s2.threads[next.value].(state := Running))
    else s2
  }

  predicate Runnable(s: KernelState) {
    && s.current.Some? && s.current.value < |s.threads|
    && s.threads[s.current.value].state != Blocked
    && s.threads[s.current.value].state != Exited
  }

  // ----- Endpoints and channels (kernel/rpc.cpp) -----

  const CLEAR_ENDPOINT: EndpointRecord := EndpointRecord(false, false, [], None, None, 0, 0)
  const NO_CONTEXT: ThreadContext := ThreadContext(0, 0, 0, 0)

  function Zeros(n: nat): (r: seq<u64>)
    ensures |r| == n
  {
    seq(n, _ => 0)
  }

  predicate HasName(e: EndpointRecord, name: seq<u8>) {
    e.inUse && e.name == name
  }

  predicate HasHandle(c: Option<ChannelRecord>, handle: u64) {
    c.Some? && c.value.handle == handle
  }

  predicate PendingOn(c: Option<ChannelRecord>, server: nat) {
    c.Some? && c.value.pendingServer == Some(server)
  }

  function EndpointByName(s: KernelState, name: seq<u8>): Option<nat> {
    First(s.endpoints, (e: EndpointRecord) => HasName(e, name))
  }

  function FreeEndpoint(s: KernelState): Option<nat> {
    First(s.endpoints, (e: EndpointRecord) => !e.inUse)
  }

  function ChannelByHandle(s: KernelState, handle: u64): Option<nat> {
    First(s.channels, (c: Option<ChannelRecord>) => HasHandle(c, handle))
  }

  function FreeChannel(s: KernelState): Option<nat> {
    First(s.channels, (c: Option<ChannelRecord>) => c.None?)
  }

  function PendingByServer(s: KernelState, server: nat): Option<nat> {
    First(s.channels, (c: Option<ChannelRecord>) => PendingOn(c, server))
  }

  /** find_object_by_handle: processes, threads and memory objects, never channels. */
  predicate ObjectExists(s: KernelState, handle: u64) {
    || (exists p :: 0 <= p < |s.processes| && s.processes[p].handle == handle)
    || (exists t :: 0 <= t < |s.threads| && s.threads[t].handle == handle)
    || handle in s.otherHandles
  }

  predicate ChannelBusy(c: ChannelRecord) {
    c.pendingClient.Some? || c.pendingServer.Some?
  }

  function NewChannel(handle: u64, clientProcess: nat, endpoint: nat): ChannelRecord {
    ChannelRecord(handle, clientProcess, endpoint, None, None, Empty, NO_CONTEXT,
                  Zeros(REGISTER_COUNT), Zeros(SIMD_QWORD_COUNT))
  }

  function IdleChannel(c: ChannelRecord): ChannelRecord {
    NewChannel(c.handle, c.clientProcess, c.endpoint)
  }

  ghost function SetBusy(s: KernelState, e: nat, busy: bool): (r: KernelState)
    requires Shape(s) && e < |s.endpoints|
    ensures Shape(r) && SameTables(s, r)
  {
    PutEndpoint(s, e, s.endpoints[e].(busy := busy))
  }

  ghost function BeginCall(s: KernelState, k: nat, client: nat, server: nat): (r: KernelState)
    requires Shape(s) && k < |s.channels| && s.channels[k].Some?
    requires client < |s.threads| && server < |s.threads|
    ensures Shape(r) && SameTables(s, r)
  {
    var c := s.channels[k].value;
    var t := s.threads[server];
    SetBusy(PutChannel(s, k, Some(c.(pendingClient := Some(client), pendingServer := Some(server),
                                     savedState := t.state, savedContext := t.context,
                                     savedRegisters := t.registers, savedSimd := t.simd))),
            c.endpoint, true)
  }

  ghost function CancelCall(s: KernelState, k: nat): (r: KernelState)
    requires Shape(s) && k < |s.channels| && s.channels[k].Some?
    ensures Shape(r) && SameTables(s, r)
  {
    var c := s.channels[k].value;
    PutChannel(SetBusy(s, c.endpoint, false), k, Some(IdleChannel(c)))
  }

  /** The server's record as finish_call restores it. */
  function Restored(t: ThreadRecord, c: ChannelRecord): ThreadRecord {
    SetUserContext(t, c.savedContext).(state := c.savedState, registers := c.savedRegisters, simd := c.savedSimd)
  }

  ghost function FinishCall(s: KernelState, k: nat): (r: KernelState)
    requires Shape(s) && k < |s.channels| && s.channels[k].Some?
    ensures Shape(r) && SameTables(s, r)
  {
    var c := s.channels[k].value;
    CancelCall(if c.pendingServer.Some?
               then PutThread(s, c.pendingServer.value, Restored(s.threads[c.pendingServer.value], c))
               else s,
               k)
  }

  ghost function WakeClient(s: KernelState, client: nat, status: i32): (r: KernelState)
    requires Shape(s) && client < |s.threads|
    ensures Shape(r) && SameTables(s, r)
  {
    PutThread(s, client, PrepareSyscallResume(s.threads[client].(state := Ready), status))
  }

  ghost function CompleteCall(s: KernelState, server: nat, status: i32): (r: Outcome)
    requires Shape(s) && server < |s.threads|
    ensures Shape(r.state) && SameTables(s, r.state)
  {
    match PendingByServer(s, server)
    case None => Outcome(s, STATUS_BAD_STATE)
    case Some(k) =>
      var client := s.channels[k].value.pendingClient;
      var s1 := FinishCall(s, k);
      if client == Some(server) then Outcome(s1, status)
      else if client.None? then Outcome(s1, STATUS_BAD_STATE)
      else Outcome(SetCurrent(WakeClient(s1, client.value, status), client), STATUS_OK)
  }

  ghost function FailPendingCall(s: KernelState, server: nat, status: i32): (r: KernelState)
    requires Shape(s) && server < |s.threads|
    ensures Shape(r) && SameTables(s, r)
  {
    match PendingByServer(s, server)
    case None => s
    case Some(k) =>
      var client := s.channels[k].value.pendingClient;
      var s1 := CancelCall(s, k);
      if client != Some(server) && client.Some? then WakeClient(s1, client.value, status) else s1
  }

  function ClearedEndpoints(endpoints: seq<EndpointRecord>, owner: nat): (r: seq<EndpointRecord>)
    ensures |r| == |endpoints|
    ensures forall e :: 0 <= e < |r| ==>
                          r[e] == if endpoints[e].ownerThread == Some(owner) then CLEAR_ENDPOINT else endpoints[e]
  {
    seq(|endpoints|, e requires 0 <= e < |endpoints| =>
      if endpoints[e].ownerThread == Some(owner) then CLEAR_ENDPOINT else endpoints[e])
  }

  ghost function HandleThreadExit(s: KernelState, active: nat, status: i32): (r: KernelState)
    requires Shape(s) && active < |s.threads|
    ensures Shape(r) && SameTables(s, r)
  {
    var s1 := FailPendingCall(s, active, status);
    s1.(endpoints := ClearedEndpoints(s1.endpoints, active))
  }

  ghost function ScheduleNext(s: KernelState): (r: KernelState)
    requires Shape(s)
    ensures Shape(r) && SameTables(s, r)
  {
    var next := NextReady(s.threads, s.current);
    if next.None? then s.(current := None) else SetCurrent(s, next)
  }

  ghost function TerminateCurrent(s: KernelState, exitStatus: u64, peerStatus: i32): (r: KernelState)
    requires Shape(s)
    ensures Shape(r) && SameTables(s, r)
  {
    if s.current.None? then s
    else
      var active := s.current.value;
      var s1 := HandleThreadExit(s, active, peerStatus);
      ScheduleNext(PutThread(s1, active, s1.threads[active].(state := Exited, exitStatus := exitStatus)))
  }

  // ----- System calls -----

  ghost function Register(s: KernelState, active: nat, call: SyscallContext): (r: Outcome)
    requires Shape(s) && active < |s.threads|
    ensures Shape(r.state) && SameTables(s, r.state)
  {
    var owner := s.threads[active].process;
    var mappings := s.processes[owner].mappings;
    if call.argument0 == 0 || call.argument1 == 0 || call.argument2 == 0 then Outcome(s, STATUS_INVALID_ARGUMENT)
    else if !Backed(mappings, call.argument1) || !Backed(mappings, call.argument2) then Outcome(s, STATUS_FAULT)
    else
      var name := UserString(s.memory, mappings, call.argument0, NAME_BUFFER_SIZE);
      if name.status != STATUS_OK then Outcome(s, name.status)
      else RegisterNamed(s, active, name.bytes, call.argument1, call.argument2)
  }

  ghost function RegisterNamed(s: KernelState, active: nat, name: seq<u8>, callback: u64, completion: u64): (r: Outcome)
    requires Shape(s) && active < |s.threads|
    ensures Shape(r.state) && SameTables(s, r.state)
  {
    if EndpointByName(s, name).Some? then Outcome(s, STATUS_BAD_STATE)
    else
      match FreeEndpoint(s)
      case None => Outcome(s, STATUS_NO_MEMORY)
      case Some(e) => Install(s, e, active, name, callback, completion)
  }

  /** The end of an accepted registration: the endpoint is filled, and a thread that serves no pending call yields to
      the next READY one. */
  ghost function Install(s: KernelState, e: nat, active: nat, name: seq<u8>, callback: u64, completion: u64): (r: Outcome)
    requires Shape(s) && e < |s.endpoints| && active < |s.threads|
    ensures Shape(r.state) && SameTables(s, r.state)
  {
    var s1 := PutEndpoint(s, e, EndpointRecord(true, false, name, Some(s.threads[active].process), Some(active),
                                               callback, completion));
    Outcome(YieldUnlessServing(s1, active), STATUS_OK)
  }

  ghost function YieldUnlessServing(s: KernelState, active: nat): (r: KernelState)
    requires Shape(s) && active < |s.threads|
    ensures Shape(r) && SameTables(s, r)
  {
    var next := NextReady(s.threads, Some(active));
    if next.Some? && PendingByServer(s, active).None?
    then SetCurrent(PutThread(s, active, PrepareSyscallResume(s.threads[active], STATUS_OK)), next)
    else s
  }

  ghost function Open(s: KernelState, active: nat, call: SyscallContext): (r: Outcome)
    requires Shape(s) && active < |s.threads|
    ensures Shape(r.state) && SameTablesIssuing(s, r.state)
  {
    var owner := s.threads[active].process;
    var mappings := s.processes[owner].mappings;
    if call.argument0 == 0 || call.argument1 == 0 then Outcome(s, STATUS_INVALID_ARGUMENT)
    else
      var name := UserString(s.memory, mappings, call.argument0, NAME_BUFFER_SIZE);
      if name.status != STATUS_OK then Outcome(s, name.status)
      else OpenNamed(s, owner, name.bytes, call.argument1)
  }

  ghost function OpenNamed(s: KernelState, owner: nat, name: seq<u8>, target: u64): (r: Outcome)
    requires Shape(s) && owner < |s.processes|
    ensures Shape(r.state) && SameTablesIssuing(s, r.state)
  {
    match EndpointByName(s, name)
    case None => Outcome(s, STATUS_NOT_FOUND)
    case Some(e) =>
      var server := s.endpoints[e].ownerThread;
      if server.None? || s.threads[server.value].state == Exited then Outcome(s, STATUS_PEER_CLOSED)
      else
        match FreeChannel(s)
        case None => Outcome(s, STATUS_NO_MEMORY)
        case Some(k) => Issue(s, k, owner, e, target)
  }

  /** The end of an accepted open: a channel with a fresh handle fills slot k, the handle is written to the caller,
      and a fault takes the channel back. */
  ghost function Issue(s: KernelState, k: nat, owner: nat, e: nat, target: u64): (r: Outcome)
    requires Shape(s) && k < |s.channels| && owner < |s.processes| && e < |s.endpoints|
    ensures Shape(r.state) && SameTablesIssuing(s, r.state)
  {
    var handle := s.nextHandle;
    var s1 := PutChannel(s.(nextHandle := Wrap64(handle + 1)), k, Some(NewChannel(handle, owner, e)));
    var write := WriteUser(s1.memory, s.processes[owner].mappings, target, LittleEndian(handle, 8));
    var s2 := PutMemory(s1, write.memory);
    if write.ok then Outcome(s2, STATUS_OK) else Outcome(EraseChannel(s2, handle), STATUS_FAULT)
  }

  /** erase_by_handle on the channel pool. */
  ghost function EraseChannel(s: KernelState, handle: u64): (r: KernelState)
    requires Shape(s)
    ensures Shape(r) && SameTables(s, r)
  {
    match ChannelByHandle(s, handle)
    case None => s
    case Some(k) => PutChannel(s, k, None)
  }

  function AlignDown16(x: u64): u64 {
    x - x % 16
  }

  /** prepare_server_thread on x64: the request goes below the server's stack pointer, 16-byte aligned, with the
      completion address as return address right under it. */
  ghost function PrepareServer(s: KernelState, e: nat, server: nat, client: nat, request: u64, size: u64): (r: Outcome)
    requires Shape(s) && e < |s.endpoints| && server < |s.threads| && client < |s.processes|
    ensures Shape(r.state) && SameTables(s, r.state)
    ensures r.status != STATUS_OK ==> r.state == s.(memory := r.state.memory)
  {
    var endpoint := s.endpoints[e];
    if endpoint.ownerProcess.None? then Outcome(s, STATUS_BAD_STATE)
    else if request == 0 || size == 0 || size > MAX_REQUEST_SIZE then Outcome(s, STATUS_INVALID_ARGUMENT)
    else
      var mappings := s.processes[endpoint.ownerProcess.value].mappings;
      var callback, completion := endpoint.callback, endpoint.completion;
      if callback == 0 || completion == 0 || !Backed(mappings, callback) || !Backed(mappings, completion)
      then Outcome(s, STATUS_FAULT)
      else
        var sp := s.threads[server].context.stackPointer;
        if sp == 0 then Outcome(s, STATUS_BAD_STATE)
        else if sp <= size + 8 then Outcome(s, STATUS_FAULT)
        else
          var requestAddress := AlignDown16(sp - size);
          if requestAddress <= 8 then Outcome(s, STATUS_FAULT)
          else PlaceRequest(s, e, server, client, request, size, requestAddress)
  }

  /** Copy the request to its place, write the return address under it, and aim the server at its callback. */
  ghost function PlaceRequest(s: KernelState, e: nat, server: nat, client: nat, request: u64, size: u64, address: u64)
    : (r: Outcome)
    requires Shape(s) && e < |s.endpoints| && server < |s.threads| && client < |s.processes|
    requires s.endpoints[e].ownerProcess.Some? && address > 8
    ensures Shape(r.state) && SameTables(s, r.state)
    ensures r.status != STATUS_OK ==> r.state == s.(memory := r.state.memory)
  {
    var mappings := s.processes[s.endpoints[e].ownerProcess.value].mappings;
    var callback, completion := s.endpoints[e].callback, s.endpoints[e].completion;
    var copy := CopyUser(s.memory, s.processes[client].mappings, request, mappings, address, size);
    var s1 := PutMemory(s, copy.memory);
    if !copy.ok then Outcome(s1, STATUS_FAULT)
    else
      var write := WriteUser(s1.memory, mappings, address - 8, LittleEndian(completion, 8));
      var s2 := PutMemory(s1, write.memory);
      if !write.ok then Outcome(s2, STATUS_FAULT)
      else
        Outcome(PutThread(s2, server, PrepareRpcResume(s2.threads[server], callback, completion, address, size, address - 8)),
                STATUS_OK)
  }

  /** The channel a handle names for a caller, or the status that refuses it. */
  datatype ChannelLookup = Found(slot: nat) | Refused(status: i32)

  ghost function LookupChannel(s: KernelState, owner: nat, handle: u64): (r: ChannelLookup)
    ensures r.Found? ==> r.slot < |s.channels| && s.channels[r.slot].Some?
                         && s.channels[r.slot].value.handle == handle && s.channels[r.slot].value.clientProcess == owner
  {
    match ChannelByHandle(s, handle)
    case None => Refused(if ObjectExists(s, handle) then STATUS_WRONG_TYPE else STATUS_BAD_HANDLE)
    case Some(k) => if s.channels[k].value.clientProcess != owner then Refused(STATUS_BAD_HANDLE) else Found(k)
  }

  ghost function Call(s: KernelState, active: nat, call: SyscallContext): (r: Outcome)
    requires Shape(s) && active < |s.threads|
    ensures Shape(r.state) && SameTables(s, r.state)
  {
    var owner := s.threads[active].process;
    if call.argument0 == 0 || call.argument1 == 0 || call.argument2 == 0 then Outcome(s, STATUS_INVALID_ARGUMENT)
    else if call.argument2 > MAX_REQUEST_SIZE then Outcome(s, STATUS_INVALID_ARGUMENT)
    else
      match LookupChannel(s, owner, call.argument0)
      case Refused(status) => Outcome(s, status)
      case Found(k) => CallOn(s, active, k, call.argument1, call.argument2)
  }

  /** A call on the caller's own channel k. */
  ghost function CallOn(s: KernelState, active: nat, k: nat, request: u64, size: u64): (r: Outcome)
    requires Shape(s) && active < |s.threads| && k < |s.channels| && s.channels[k].Some?
    ensures Shape(r.state) && SameTables(s, r.state)
  {
    var c := s.channels[k].value;
    var endpoint := s.endpoints[c.endpoint];
    var server := endpoint.ownerThread;
    if server.None? || s.threads[server.value].state == Exited then Outcome(s, STATUS_PEER_CLOSED)
    else if !endpoint.inUse || endpoint.busy || ChannelBusy(c) then Outcome(s, STATUS_WOULD_BLOCK)
    else
      var prepared := PrepareServer(s, c.endpoint, server.value, c.clientProcess, request, size);
      if prepared.status != STATUS_OK then prepared
      else Outcome(Accept(prepared.state, k, active, server.value), STATUS_OK)
  }

  /** The end of an accepted call: the channel becomes pending, and a caller that is not the server itself blocks
      and hands over to it. */
  ghost function Accept(s: KernelState, k: nat, active: nat, server: nat): (r: KernelState)
    requires Shape(s) && k < |s.channels| && s.channels[k].Some? && active < |s.threads| && server < |s.threads|
    ensures Shape(r) && SameTables(s, r)
  {
    var s1 := BeginCall(s, k, active, server);
    if server != active then SetCurrent(PutThread(s1, active, s1.threads[active].(state := Blocked)), Some(server))
    else s1
  }

  ghost function Close(s: KernelState, active: nat, call: SyscallContext): (r: Outcome)
    requires Shape(s) && active < |s.threads|
    ensures Shape(r.state) && SameTables(s, r.state)
  {
    if call.argument0 == 0 then Outcome(s, STATUS_INVALID_ARGUMENT)
    else
      match LookupChannel(s, s.threads[active].process, call.argument0)
      case Refused(status) => Outcome(s, status)
      case Found(k) =>
        if ChannelBusy(s.channels[k].value) then Outcome(s, STATUS_BAD_STATE)
        else Outcome(EraseChannel(s, call.argument0), STATUS_OK)
  }

  ghost function DebugLog(s: KernelState, active: nat, call: SyscallContext): i32
    requires Shape(s) && active < |s.threads|
  {
    if call.argument0 == 0 then STATUS_INVALID_ARGUMENT
    else UserString(s.memory, s.processes[s.threads[active].process].mappings, call.argument0, LOG_BUFFER_SIZE).status
  }

  function ContextOf(call: SyscallContext): ThreadContext {
    ThreadContext(call.instructionPointer, call.stackPointer, call.flags, call.argument0)
  }

  /** The system call proper, once the caller's context is recorded. */
  ghost function Serve(s: KernelState, active: nat, call: SyscallContext): (r: Outcome)
    requires Shape(s) && active < |s.threads|
    ensures Shape(r.state) && SameTablesIssuing(s, r.state)
  {
    if call.number == SYSCALL_DEBUG_LOG then Outcome(s, DebugLog(s, active, call))
    else if call.number == SYSCALL_THREAD_EXIT
    then Outcome(TerminateCurrent(s, call.argument0, STATUS_PEER_CLOSED), STATUS_OK)
    else if call.number == SYSCALL_RPC_REGISTER then Register(s, active, call)
    else if call.number == SYSCALL_RPC_OPEN then Open(s, active, call)
    else if call.number == SYSCALL_RPC_CALL then Call(s, active, call)
    else if call.number == SYSCALL_RPC_CLOSE then Close(s, active, call)
    else if call.number == SYSCALL_RPC_COMPLETE then CompleteCall(s, active, ToSigned32(call.argument0))
    else if call.number == SYSCALL_DEVICE_MEMORY_MAP
    then Outcome(s, if call.argument0 == 0 || call.argument1 == 0 then STATUS_INVALID_ARGUMENT else STATUS_NOT_FOUND)
    else Outcome(s, STATUS_NOT_SUPPORTED)
  }

  /** user_runtime::dispatch_syscall. */
  ghost function Dispatch(s: KernelState, call: SyscallContext): (r: Outcome)
    requires Shape(s)
    ensures Shape(r.state) && SameTablesIssuing(s, r.state)
  {
    if s.current.None? then Outcome(s, STATUS_BAD_STATE)
    else
      var active := s.current.value;
      Serve(PutThread(s, active, SetUserContext(s.threads[active], ContextOf(call))), active, call)
  }

  // ----- One trap (arch/x64/user_runtime.cpp) -----

  /** The eight preserved general registers a trap saves; the other four slots are never written. */
  function SavedRegisters(registers: seq<u64>, f: Frame): (r: seq<u64>)
    requires |registers| == REGISTER_COUNT
    ensures |r| == REGISTER_COUNT
  {
    [f.rsi, f.rdi, f.rbx, f.rbp, f.r12, f.r13, f.r14, f.r15] + registers[8..]
  }

  function SaveFrame(t: ThreadRecord, f: Frame): ThreadRecord
    requires |t.registers| == REGISTER_COUNT
  {
    t.(registers := SavedRegisters(t.registers, f), simd := f.xmm)
  }

  function CallOf(f: Frame): SyscallContext {
    SyscallContext(f.rax, f.rcx, f.rsp, f.r11, f.rdi, f.rsi, f.rdx)
  }

  /** load_user_thread_frame. */
  function LoadFrame(t: ThreadRecord): Frame
    requires |t.registers| == REGISTER_COUNT
  {
    var r := t.resume;
    Frame(0, 0, 0, 0,
          if r.kind == ResumeRpc then r.argument1 else t.registers[0],
          if r.kind == ResumeRpc then r.argument0 else t.registers[1],
          SignExtend(r.status), r.instructionPointer, r.flags, r.stackPointer,
          t.registers[7], t.registers[6], t.registers[5], t.registers[4], t.registers[3], t.registers[2], t.simd)
  }

  predicate FrameShape(f: Frame) {
    |f.xmm| == SIMD_QWORD_COUNT
  }

  /** x64_handle_syscall. */
  ghost function HandleTrap(s: KernelState, f: Frame): (r: TrapResult)
    requires Shape(s) && s.current.Some? && FrameShape(f)
    ensures Shape(r.state) && SameTablesIssuing(s, r.state)
    ensures r.frame.Some? <==> Runnable(r.state)
  {
    var active := s.current.value;
    var saved := PutThread(s, active, SaveFrame(s.threads[active], f));
    var Outcome(after, status) := Dispatch(saved, CallOf(f));
    if !Runnable(after) then TrapResult(after, status, None)
    else
      var next := after.current.value;
      var final :=
        if next == active then PutThread(after, next, PrepareSyscallResume(after.threads[next], status)) else after;
      TrapResult(final, status, Some(LoadFrame(final.threads[next])))
  }
}
