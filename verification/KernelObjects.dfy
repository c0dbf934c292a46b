/**
 The kernel's threads, endpoints and channels as objects updated in place (kernel/thread.cpp, kernel/rpc.cpp). Every
 method is proved to do to its object what the value-level function of KernelModel says. Record() is an object's value.
 */
module KernelObjects {
  import opened Words
  import opened Status
  import opened KernelModel

  class Thread {
    const slot: nat
    const handle: u64
    const process: nat
    var state: ThreadState
    var context: ThreadContext
    var resume: Resume
    var exitStatus: u64
    var pendingStatus: i32
    var registers: seq<u64>
    var simd: seq<u64>

    function Record(): ThreadRecord
      reads this
    {
      ThreadRecord(handle, process, state, context, resume, exitStatus, pendingStatus, registers, simd)
    }

    constructor (slot: nat, handle: u64, process: nat, context: ThreadContext)
      ensures this.slot == slot
      ensures Record() == ThreadRecord(handle, process, Ready, context,
                                       Resume(ResumeSyscall, context.instructionPointer, context.stackPointer,
                                              context.flags, context.argument0, 0, STATUS_OK, 0),
                                       0, STATUS_OK, Zeros(REGISTER_COUNT), Zeros(SIMD_QWORD_COUNT))
    {
      this.slot, this.handle, this.process := slot, handle, process;
      this.state, this.context := Ready, context;
      resume := Resume(ResumeSyscall, context.instructionPointer, context.stackPointer, context.flags,
                       context.argument0, 0, STATUS_OK, 0);
      exitStatus, pendingStatus := 0, STATUS_OK;
      registers, simd := Zeros(REGISTER_COUNT), Zeros(SIMD_QWORD_COUNT);
    }

    /** sync_resume_to_user_context. */
    method SyncResumeToUserContext()
      modifies this
      ensures Record() == SyncResume(old(Record()))
    {
      resume := resume.(kind := ResumeSyscall);
      resume := resume.(instructionPointer := context.instructionPointer);
      resume := resume.(stackPointer := context.stackPointer);
      resume := resume.(flags := context.flags);
      resume := resume.(argument0 := context.argument0);
      resume := resume.(argument1 := 0);
      resume := resume.(status := pendingStatus);
      resume := resume.(completion := 0);
    }

    method SetContext(context: ThreadContext)
      modifies this
      ensures Record() == SetUserContext(old(Record()), context)
    {
      this.context := context;
      SyncResumeToUserContext();
    }

    method PrepareReturn(status: i32)
      modifies this
      ensures Record() == PrepareSyscallResume(old(Record()), status)
    {
      pendingStatus := status;
      SyncResumeToUserContext();
      resume := resume.(status := status);
    }

    /** The start of a trap: the frame's preserved registers replace the thread's. */
    method SaveRegisters(f: Frame)
      requires |registers| == REGISTER_COUNT
      modifies this
      ensures Record() == SaveFrame(old(Record()), f)
    {
      ghost var before := registers;
      registers := registers[0 := f.rsi];
      registers := registers[1 := f.rdi];
      registers := registers[2 := f.rbx];
      registers := registers[3 := f.rbp];
      registers := registers[4 := f.r12];
      registers := registers[5 := f.r13];
      registers := registers[6 := f.r14];
      registers := registers[7 := f.r15];
      simd := f.xmm;
      assert registers == SavedRegisters(before, f);
    }

    method PrepareCallback(callback: u64, completion: u64, argument0: u64, argument1: u64, stackPointer: u64)
      modifies this
      ensures Record() == PrepareRpcResume(old(Record()), callback, completion, argument0, argument1, stackPointer)
    {
      resume := resume.(kind := ResumeRpc);
      resume := resume.(instructionPointer := callback);
      resume := resume.(stackPointer := stackPointer);
      resume := resume.(flags := context.flags);
      resume := resume.(argument0 := argument0);
      resume := resume.(argument1 := argument1);
      resume := resume.(status := STATUS_OK);
      resume := resume.(completion := completion);
    }
  }

  function SlotOf(t: Thread?): Option<nat> {
    if t == null then None else Some(t.slot)
  }

  class RpcEndpoint {
    const slot: nat
    var inUse: bool
    var busy: bool
    var name: seq<u8>
    var ownerProcess: Option<nat>
    var ownerThread: Thread?
    var callback: u64
    var completion: u64

    function Record(): EndpointRecord
      reads this
    {
      EndpointRecord(inUse, busy, name, ownerProcess, SlotOf(ownerThread), callback, completion)
    }

    constructor (slot: nat)
      ensures this.slot == slot && Record() == CLEAR_ENDPOINT && ownerThread == null
    {
      this.slot := slot;
      inUse, busy, name, ownerProcess, ownerThread, callback, completion := false, false, [], None, null, 0, 0;
    }

    method Clear()
      modifies this
      ensures Record() == CLEAR_ENDPOINT && ownerThread == null
    {
      inUse := false;
      busy := false;
      name := [];
      ownerProcess := None;
      ownerThread := null;
      callback := 0;
      completion := 0;
    }

    method Initialize(ownerProcess: nat, ownerThread: Thread, name: seq<u8>, callback: u64, completion: u64)
      modifies this
      ensures Record() == EndpointRecord(true, false, name, Some(ownerProcess), Some(ownerThread.slot), callback, completion)
      ensures this.ownerThread == ownerThread
    {
      Clear();
      inUse := true;
      this.name := name;
      this.ownerProcess := Some(ownerProcess);
      this.ownerThread := ownerThread;
      this.callback := callback;
      this.completion := completion;
    }
  }

  class RpcChannel {
    const handle: u64
    const clientProcess: nat
    const endpoint: RpcEndpoint
    var pendingClient: Thread?
    var pendingServer: Thread?
    var savedState: ThreadState
    var savedContext: ThreadContext
    var savedRegisters: seq<u64>
    var savedSimd: seq<u64>

    function Record(): ChannelRecord
      reads this
    {
      ChannelRecord(handle, clientProcess, endpoint.slot, SlotOf(pendingClient), SlotOf(pendingServer),
                    savedState, savedContext, savedRegisters, savedSimd)
    }

    constructor (handle: u64, clientProcess: nat, endpoint: RpcEndpoint)
      ensures Record() == NewChannel(handle, clientProcess, endpoint.slot)
      ensures this.endpoint == endpoint && pendingClient == null && pendingServer == null
    {
      this.handle, this.clientProcess, this.endpoint := handle, clientProcess, endpoint;
      pendingClient, pendingServer := null, null;
      savedState, savedContext := Empty, NO_CONTEXT;
      savedRegisters, savedSimd := Zeros(REGISTER_COUNT), Zeros(SIMD_QWORD_COUNT);
    }

    predicate IsBusy()
      reads this
      ensures IsBusy() == ChannelBusy(Record())
    {
      pendingClient != null || pendingServer != null
    }

    /** begin_call. */
    method Begin(client: Thread, server: Thread)
      modifies this, endpoint
      ensures Record() == old(Record()).(pendingClient := Some(client.slot), pendingServer := Some(server.slot),
                                         savedState := server.state, savedContext := server.context,
                                         savedRegisters := server.registers, savedSimd := server.simd)
      ensures endpoint.Record() == old(endpoint.Record()).(busy := true)
      ensures pendingClient == client && pendingServer == server && endpoint.ownerThread == old(endpoint.ownerThread)
    {
      pendingClient := client;
      pendingServer := server;
      savedState := server.state;
      savedContext := server.context;
      savedRegisters := server.registers;
      savedSimd := server.simd;
      endpoint.busy := true;
    }

    /** cancel_call. */
    method Cancel()
      modifies this, endpoint
      ensures Record() == IdleChannel(old(Record())) && pendingClient == null && pendingServer == null
      ensures endpoint.Record() == old(endpoint.Record()).(busy := false)
      ensures endpoint.ownerThread == old(endpoint.ownerThread)
    {
      endpoint.busy := false;
      pendingClient := null;
      pendingServer := null;
      savedState := Empty;
      savedContext := NO_CONTEXT;
      savedRegisters := Zeros(REGISTER_COUNT);
      savedSimd := Zeros(SIMD_QWORD_COUNT);
    }

    /** finish_call. */
    method Finish()
      modifies this, endpoint, pendingServer
      ensures old(pendingServer) != null ==>
                old(pendingServer).Record() == Restored(old(pendingServer.Record()), old(Record()))
      ensures Record() == IdleChannel(old(Record())) && pendingClient == null && pendingServer == null
      ensures endpoint.Record() == old(endpoint.Record()).(busy := false)
      ensures endpoint.ownerThread == old(endpoint.ownerThread)
    {
      if pendingServer != null {
        pendingServer.SetContext(savedContext);
        pendingServer.state := savedState;
        pendingServer.registers := savedRegisters;
        pendingServer.simd := savedSimd;
      }
      Cancel();
    }
  }
}
