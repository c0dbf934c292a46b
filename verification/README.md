# Verified model of ringos-ng

This project models, in Dafny, the parts of ringos-ng where state is shared, rewritten or translated, and proves what
they promise. Four cores are covered.

**The kernel's RPC, threads and scheduler** (`Kernel*.dfy`, `HandlePools.dfy`). One trap (save the frame, dispatch the
system call, pass the runnable gate, load the next frame) is a function on the value of the whole kernel, for any
number of thread, endpoint and channel slots (`KernelModel.HandleTrap`). `KernelObjects` and `KernelRuntime` hold the
same code in its own form, classes whose methods update fields and loop over tables, and prove that each method takes
the kernel's value where the function takes it. A run (`KernelRuns.Run`) is a boot followed by traps with arbitrary
frames, between which user code may rewrite user memory in any way. Over runs the project proves the kernel invariant,
scheduler safety, endpoint exclusion, reply accounting, request delivery, and the two transparency theorems: to its
client a call behaves like a function call, and to the thread it interrupts it leaves no trace in context, state or
registers. `KernelEvolution` proves what a thread keeps for life, `KernelExit` exactly whom a server's exit releases,
`KernelHalt` exactly when a run ends. `KernelBoot` and `KernelMachine` boot the objects and carry them along runs, so
that what holds of runs holds of the objects. `HandlePools` proves that the five object pools over one handle counter
act as one map; `KernelHandles` and `KernelDirectory` that in every run the pools hold the kernel's objects and the
system calls' lookups are lookups in that map. `KernelAnswers` gives every status of the RPC system calls its exact
condition and says what an OK brings its caller; `KernelOpening` carries that to traps and runs: the handle an open
hands out names the opened endpoint's channel, as the client reads it, until the client closes it. `KernelScenes`
moves small concrete states from system call to system call, and `KernelExample` builds three runs from them.

**The x64 emulator** (`X64*.dfy`). `X64Machine` and `X64Instructions` define the instruction set as functions on guest
state, with one operand decoder. `X64Context`, `X64Alu`, `X64DataMovement`, `X64Simd` and `X64Interpreter` hold the
emulator's own handlers, its four separately written operand decoders, the prefix loop, the dispatch tables and the
budget loop, each proved to follow those functions. `X64Properties` proves fault precision, consistent reports and
budget splitting for every program. The functions are in turn measured against definitions of their own: `X64Manual`
reads prefixes, ModRM and SIB bytes as the Intel manual lays them out and says exactly where the emulator agrees,
`X64Flags` says what the flags mean in integers, `X64Laws` and `X64VectorLaws` when each opcode completes and what
guest it then leaves, in integers, bytes and bits, and `X64Sequences` what a jump behind a comparison or a test, a
return behind a call and a pop behind a push do.

**User address spaces and chunked copies** (`AddressSpace.dfy`, `UserCopy.dfy`). The chunk loops are proved equal to
byte-at-a-time guest copies, faults included, and those copies are proved to deliver.

**Import stubs, terminal lines, bounded printf** (`ImportStubs.dfy`, `Win32Imports.dfy`, `PeImports.dfy`,
`PeTables.dfy`, `ImportCalls.dfy`, `Stdio.dfy`, `Formats.dfy`, `Terminal.dfy`, `KernelLog.dfy`). The stub generator is
a small compiler: its output gets its meaning from the emulator's own semantics (`ImportStubs.StubRuns`). `PeImports`
walks import tables and proves what binding leaves behind; `PeTables` that a load succeeds iff there are bindings as
the image's tables ask for, and has made exactly those; `ImportCalls` that a guest which calls through a bound slot
makes the import's system call and returns. `Stdio` proves `vsnprintf` against a reference meaning of formats,
`Formats` what every directive renders by reading its text back, `Terminal` the line buffer against a reference that
cleans, splits and cuts its input, and `KernelLog` which of their output the kernel's log accepts.

`Words`, `Status` and `Search` hold machine words, status codes and the table scan. Integers are mathematical with their
range in the type; every wrap-around is written out.

## What the code does that a reader might not expect

- The pending system call status is not part of the server snapshot (kernel/thread.cpp:151-161, kernel/rpc.cpp:148-196).
  An interrupted server gets back its context and registers, but the status its own system call will return is the one
  its callback left. `KernelResume.ServerResumeSurvives` gives the exact condition, `KernelExample.StatusIsLost` a
  concrete run where an OK turns into NOT_SUPPORTED.
- A server's exit fails only the pending channel with the lowest slot (kernel/rpc.cpp:538-558). It releases every client
  that waits for the thread iff none waits in a channel above another one pending on the thread
  (`KernelExit.ExitReleasesAll`), and a client it does not release stays BLOCKED in every later state
  (`KernelExit.StrandedForever`). With the sizes the kernel has (`KernelBoot.CONFIGURED`), two processes are enough
  (`KernelExample.ClientIsStranded`): a server that exits while a call of itself is pending in a lower slot leaves its
  client BLOCKED.
- A call of a thread that is itself BLOCKED is accepted (kernel/rpc.cpp:385-393), and nothing is left to run
  (kernel/user_runtime.cpp:484-488): two threads that call each other stop the machine (`KernelExample.CallEachOther`).
  `KernelHalt.RunStops` proves that a trap of a run loads no frame only then, or on an exit that leaves no thread READY.
- Two kinds of memory operand are decoded otherwise than the manual says (emulator/x64/x64_alu_instructions.cpp:16-187,
  and the decoders like it). With REX.B set, mod 0 and base field 5, the emulator takes R13 as base where the manual takes
  a displacement alone, or the instruction pointer. And a RIP-relative operand counts from the byte behind the
  displacement, where the manual counts from the next instruction; the two differ when immediate bytes follow, as in
  C7 /0. `X64Manual.RexBTakesR13` and `X64Manual.StoreBehindImmediate` show one input each, and `X64Manual.DecodesAsManual`
  proves that there are no other kinds.
- The kernel's log takes strings of at most 95 characters (kernel/user_runtime.cpp:431-450). vprintf hands it up to 511
  and ignores the refusal (user/libc/src/stdio.cpp:168-183), so of a longer text nothing is logged
  (`KernelLog.PrintedTextIsAccepted`); every terminal line fits (`KernelLog.TerminalLinesAreAccepted`).
- A format that ends inside a directive, such as "%ll", prints a single percent sign (user/libc/src/stdio.cpp:249-252).

Reading guide: the file of each class opens with what its `State()` or `Record()` stands for; a method's `ensures` ties it
to the specification function of the same name, and the lemmas in the property files are about those functions.

## Model

| member | source | states |
|---|---|---|
| `KernelRuns.RunInv` | kernel/rpc.cpp:332-558 | the kernel invariant (shape, one RUNNING thread, pending ends, one reply per client, busy endpoints, distinct names, handles) holds in every state of every run, for any number of slots, and the handle counter advances at most once a trap |
| `KernelRuns.ReachableInv` | kernel/user_runtime.cpp:411-482 | every reachable state satisfies the kernel invariant |
| `KernelRuns.SchedulerSafety` | kernel/user_runtime.cpp:376-409 | in every reachable state at most one thread is RUNNING, it is the current one, and the current thread is RUNNING whenever a thread is runnable |
| `KernelRuns.NextReadyIsCyclicFirst` | kernel/user_runtime.cpp:327-360 | the thread picked next is the READY one closest after the given slot in cyclic order, and none iff no thread is READY |
| `KernelRuns.ExitLeavesNoneReady` | kernel/user_runtime.cpp:396-409 | after THREAD_EXIT the current thread is null only if no thread is READY |
| `KernelRuns.EndpointExclusion` | kernel/rpc.cpp:148-177 | in every reachable state an endpoint is busy iff a channel is pending on it with its owner as server, at most one is, in-use names are pairwise distinct, and unused endpoints are not busy |
| `KernelRuns.BlockedAwaitsOneReply` | kernel/rpc.cpp:373-393 | in every reachable state a thread is BLOCKED iff it is the pending client of a channel that another thread serves, and of exactly one |
| `KernelInvariant.TrapKeeps` | kernel/user_runtime.cpp:411-488 | one trap keeps the invariant, whatever the frame and the memory |
| `KernelInvariant.CompleteKeeps` | kernel/rpc.cpp:509-536 | RPC_COMPLETE keeps the invariant |
| `KernelInvariant.TerminateKeeps` | kernel/rpc.cpp:496-558 | a thread exit (endpoints cleared, pending call failed, next READY thread scheduled) keeps the invariant |
| `KernelInvariant.RegisterKeeps` | kernel/rpc.cpp:226-278 | RPC_REGISTER keeps the invariant |
| `KernelInvariant.OpenKeeps` | kernel/rpc.cpp:280-330 | RPC_OPEN keeps the invariant below counter wrap, also when the handle cannot be written back |
| `KernelInvariant.CallKeeps` | kernel/rpc.cpp:332-396 | RPC_CALL keeps the invariant, self-calls and refusals included |
| `KernelInvariant.CloseKeeps` | kernel/rpc.cpp:398-424 | RPC_CLOSE keeps the invariant |
| `KernelEffects.TrapEffect` | arch/x64/user_runtime.cpp:93-151 | every trap starts at most one call, ends at most one call, never both, and leaves every other channel, every waiting client and every other thread as it was |
| `KernelEffects.CallEffect` | kernel/rpc.cpp:332-396 | an RPC_CALL that answers OK starts exactly one call: the channel snapshots the server, a cross-thread caller blocks and hands over |
| `KernelEffects.CompleteEffect` | kernel/rpc.cpp:509-536 | RPC_COMPLETE on the channel it resolves restores the server from the snapshot and wakes a waiting client, current, with the callback status; a self-call goes on with it |
| `KernelEffects.FailEffect` | kernel/rpc.cpp:538-558 | a failing exit ends exactly one pending call of the server and wakes its client READY with the failure status |
| `KernelTransparency.ClientTransparency` | arch/x64/user_runtime.cpp:93-151 | over whole runs, for client != server: from the RPC_CALL to the trap that ends it the client record does not change; on RPC_COMPLETE the client runs next from its own trap frame with rax = callback status and rdx, r8, r9, r10 zero; on server exit the frame it will load is the same with PEER_CLOSED |
| `KernelTransparency.ServerTransparency` | kernel/rpc.cpp:148-196 | over whole runs, for client != server: after the RPC_COMPLETE that resolves the channel the server context, state, preserved registers and SIMD registers are those at the accepted call, whatever the callback did |
| `KernelTransparency.ReplyAccounting` | kernel/rpc.cpp:332-558 | over whole runs: accepted cross-thread calls = completions + failures + BLOCKED threads |
| `KernelTransparency.PendingIsNotErased` | kernel/rpc.cpp:398-424 | no step of a run erases a pending channel or changes its handle |
| `KernelExit.PendingIsLowest` | kernel/rpc.cpp:538-558 | the channel an exit fails is the lowest one pending on the thread, and there is none iff nothing is pending on it |
| `KernelExit.ExitEndsLowest` | kernel/rpc.cpp:538-558 | over whole runs: of the channels pending on an exiting thread, a channel ends iff it is the lowest |
| `KernelExit.ExitReleasesLowest` | kernel/rpc.cpp:538-558 | over whole runs: a client that waits for an exiting thread is released iff no lower channel is pending on that thread |
| `KernelExit.ExitReleasesAll` | kernel/rpc.cpp:538-558 | the exit of a thread releases every client that waits for it iff none of them waits in a channel above another one pending on the thread |
| `KernelExit.StrandedForever` | kernel/rpc.cpp:538-558 | a client that the exit does not release is BLOCKED in every later state of the run, its channel pending on the EXITED thread |
| `KernelExample.ServerExitsBusy` | kernel/rpc.cpp:538-558 | such an exit happens: a run of eight traps, booted with two processes and the table sizes of the kernel, in which a server exits while a call of itself is pending below the call of its client |
| `KernelExample.ClientIsStranded` | kernel/rpc.cpp:538-558 | in that run the exit leaves the client BLOCKED, and loads no frame |
| `KernelHalt.RunStops` | arch/x64/user_runtime.cpp:93-151 | over whole runs: a trap loads no frame iff it is an exit when no thread is READY and the exit releases no client, or an accepted RPC_CALL whose channel leads to a BLOCKED thread |
| `KernelHalt.CallStops` | kernel/rpc.cpp:332-396 | after RPC_CALL a thread is runnable unless the call is accepted and the thread it leads to is BLOCKED |
| `KernelHalt.ExitStops` | kernel/user_runtime.cpp:396-409 | after THREAD_EXIT a thread is runnable iff another thread was READY or the exit released a client |
| `KernelExample.CallEachOther` | kernel/rpc.cpp:385-393 | a run of seven traps from the same boot: a callback calls the client it serves, the call is accepted, both threads are BLOCKED, and no frame is loaded |
| `KernelEvolution.TrapCrosses` | arch/x64/user_runtime.cpp:93-151 | across any trap every thread keeps handle and process, an EXITED thread stays EXITED, and the pending status changes exactly to the status of a system call of that thread that returns |
| `KernelEvolution.ExitedForever` | kernel/user_runtime.cpp:396-409 | a thread that is EXITED in some state of a run is EXITED in every later one |
| `KernelEvolution.PendingStatusIsLastAnswer` | kernel/thread.cpp:123-161 | between two states of a run the pending status of a thread becomes the status of its last system call to return, and stays if none does |
| `KernelResume.ServerResumeSurvives` | kernel/thread.cpp:151-161 | after RPC_COMPLETE the interrupted server resumes exactly as it would have without the call iff the callback let no system call return before RPC_COMPLETE, or the last one that did returned the status the server was waiting to see |
| `KernelResume.SilentCallbackHides` | kernel/thread.cpp:123-161 | a callback without system calls of its own hides the call completely |
| `KernelResume.UnknownCallLeaks` | kernel/thread.cpp:123-161 | the pending status is not restored: a callback whose last system call is unknown makes a server that waits for OK see NOT_SUPPORTED |
| `KernelExample.RunOfACall` | kernel/rpc.cpp:226-558 | a run from the same boot in which a server registers, a client opens and calls, the callback makes an unknown system call and completes: a call from step 2 to step 4 exists |
| `KernelExample.StatusIsLost` | kernel/thread.cpp:123-161 | in that run the server, interrupted while it waits to see OK, will see NOT_SUPPORTED |
| `KernelResume.InterruptedWasReady` | kernel/user_runtime.cpp:376-394 | a server interrupted by a cross-thread call was READY, with its resume record in step with its context |
| `KernelDelivery.RequestDelivery` | kernel/rpc.cpp:560-655 | over whole runs: an accepted cross-thread call puts the request 16-byte aligned at or below the server stack pointer, over the completion address; the server reads the client bytes when host backings are disjoint; no other memory changes; the server enters its callback with address and size |
| `KernelDelivery.CopyThenWrite` | kernel/rpc.cpp:609-629 | copying the request and then writing the return address delivers both, byte by byte, and touches only their span |
| `KernelDelivery.LookupIsExact` | kernel/rpc.cpp:346-357 | the channel lookup of a system call answers WRONG_TYPE, BAD_HANDLE or the channel, each under an exact condition on live handles |
| `KernelDelivery.WrongTypeIsExact` | kernel/rpc.cpp:346-424 | RPC_CALL and RPC_CLOSE answer WRONG_TYPE iff the handle, past the argument checks, names a live object that is not a channel |
| `KernelAnswers.StringRead` | kernel/user_runtime.cpp:286-320 | a string copy answers OK, FAULT or BUFFER_TOO_SMALL iff the guest's string stops at a NUL, at an unmapped byte, or not within the buffer; an OK has its characters |
| `KernelAnswers.OpenStatus` | kernel/rpc.cpp:280-330 | every status of RPC_OPEN with its exact condition on arguments, string, registered names, channel slots and target bytes; PEER_CLOSED is never answered |
| `KernelAnswers.OpenGives` | kernel/rpc.cpp:280-330 | an RPC_OPEN that answers OK: there is a handle, new and not live before, that from now on names to the caller's process a channel to the endpoint in use under the caller's string; in distinct host bytes the caller reads that handle at argument 1; no other byte and no other table entry changes |
| `KernelAnswers.OpenRefuses` | kernel/rpc.cpp:280-330 | an RPC_OPEN that does not answer OK leaves every table as it was, and memory too, unless it answers FAULT, and then but for the handle's target bytes |
| `KernelAnswers.RegisterStatus` | kernel/rpc.cpp:226-278 | every status of RPC_REGISTER with its exact condition on arguments, mapped addresses, string, registered names and endpoint slots |
| `KernelAnswers.RegisterGives` | kernel/rpc.cpp:226-278 | an RPC_REGISTER that answers OK makes one free endpoint the caller's, under its string, with argument 1 as callback and argument 2 as completion address; the caller yields to the READY thread first in cyclic order iff there is one and it serves no call; nothing else changes |
| `KernelAnswers.RegisterRefuses` | kernel/rpc.cpp:226-278 | an RPC_REGISTER that does not answer OK changes nothing |
| `KernelAnswers.CloseStatus` | kernel/rpc.cpp:398-424 | every status of RPC_CLOSE with its exact condition on the handle and the channel it names |
| `KernelAnswers.CloseGives` | kernel/rpc.cpp:398-424 | an RPC_CLOSE that answers OK empties the slot of the caller's channel and changes nothing else; its handle is BAD_HANDLE to every process |
| `KernelAnswers.CloseRefuses` | kernel/rpc.cpp:398-424 | an RPC_CLOSE that does not answer OK changes nothing |
| `KernelAnswers.CallStatus` | kernel/rpc.cpp:332-396 | every status of RPC_CALL with its exact condition: arguments, handle, endpoint still registered, endpoint and channel idle, callback and completion mapped, a stack, room and mapped bytes for request and return address |
| `KernelAnswers.CompleteAnswers` | kernel/rpc.cpp:509-536 | RPC_COMPLETE of a thread that serves no call answers BAD_STATE and changes nothing; otherwise the lowest pending channel is idle and its endpoint free again, no other channel or endpoint changes, and the answer is OK, or to a thread that called itself the status it passed |
| `KernelAnswers.ExitAnswers` | kernel/rpc.cpp:496-558 | a thread that exits keeps its exit status, loses exactly its own endpoints, and hands over to the READY thread first in cyclic order, or to none iff none is READY |
| `KernelOpening.TrapAnswers` | arch/x64/user_runtime.cpp:93-151 | at a trap those statuses are the answers, with the call number in rax and the arguments in rdi, rsi and rdx |
| `KernelOpening.TrapOpens` | kernel/rpc.cpp:280-330 | OpenGives at a trap: name at rdi, handle at rsi |
| `KernelOpening.TrapRegisters` | kernel/rpc.cpp:226-278 | RegisterGives at a trap: name at rdi, callback in rsi, completion address in rdx |
| `KernelOpening.TrapExits` | kernel/user_runtime.cpp:396-409 | ExitAnswers at a trap: exit status in rdi |
| `KernelOpening.TrapHolds` | kernel/rpc.cpp:398-424 | a channel keeps handle, client and endpoint over every trap but an RPC_CLOSE of that handle by its process that answers OK |
| `KernelOpening.TrapCloses` | kernel/rpc.cpp:398-424 | after such an RPC_CLOSE the handle is BAD_HANDLE to every process |
| `KernelOpening.OpenInRun` | kernel/rpc.cpp:280-330 | OpenGives at a step of a run |
| `KernelOpening.NamedUntilClosed` | kernel/rpc.cpp:346-424 | over runs: a handle names its channel to the same endpoint until its process closes it, and is BAD_HANDLE ever after |
| `KernelOpening.OpenThenCall` | kernel/rpc.cpp:280-396 | over runs: the word an accepted RPC_OPEN left at its target, read by its process and passed to a later RPC_CALL, names a channel to the endpoint that was registered under the opened name iff the process has not closed it in between |
| `KernelOpening.OpenThenCallAnswer` | kernel/rpc.cpp:332-396 | that RPC_CALL, its other arguments acceptable, is answered BAD_HANDLE iff the handle has been closed, and never WRONG_TYPE |
| `KernelOpening.TrapReturns` | arch/x64/user_runtime.cpp:93-151 | a system call that returns to its caller, RPC_COMPLETE aside, loads the caller's own frame with the status sign-extended in rax and rdx, r8, r9, r10 zero |
| `KernelBoot.BootStateIsBooted` | kernel/user_runtime.cpp:500-546 | every boot that does not panic, with any number of processes, leaves a state that runs start from: one RUNNING thread, the others READY, no endpoint, no channel, no handle shared |
| `KernelBoot.BootRunsConfigurations` | kernel/user_runtime.cpp:500-546 | each configuration becomes a process with its mappings and a thread of it, under the next two handles; the frame a trap first loads for the thread has the configured instruction pointer, stack pointer and flags, and zeros elsewhere |
| `KernelMachine.CreateInitialProcesses` | kernel/user_runtime.cpp:518-538 | a process and a thread per configuration under consecutive handles, as long as both tables have room |
| `KernelMachine.RunInitialUserRuntime` | kernel/user_runtime.cpp:500-546 | the boot panics iff the number of processes or the initial index is out of range or a table is too small; otherwise the kernel objects are consistent and their value is the boot state |
| `KernelMachine.ServeTrap` | arch/x64/user_runtime.cpp:93-151 | objects that a run has brought to their state are taken by a trap to the next state of that run, whatever user code did to user memory since |
| `KernelMachine.UserCodeKeeps` | kernel/user_runtime.cpp:500-546 | between traps the user threads may do anything to user memory: objects that only user memory has changed around are still where their run brought them |
| `KernelMachine.OneThreadRuns` | kernel/user_runtime.cpp:376-409 | after any run of the objects at most one thread object is RUNNING, it is the current one, and the current one is RUNNING whenever a thread is runnable |
| `KernelMachine.BusyEndpointsServe` | kernel/rpc.cpp:148-177 | after any run an endpoint object is busy iff a channel object is pending on it with its owner as server, and then it is in use |
| `KernelMachine.BlockedThreadsAwait` | kernel/rpc.cpp:373-393 | after any run a thread object is BLOCKED iff a channel object waits for the reply of another thread to it, and at most one does |
| `KernelRuntime.UserRuntime.constructor` | kernel/user_runtime.cpp:13-22 | tables without channels and without a current thread |
| `KernelObjects.Thread.constructor` | kernel/thread.cpp:6-20 | a new thread is READY with its resume record taken from its initial context |
| `KernelObjects.Thread.SyncResumeToUserContext` | kernel/thread.cpp:151-161 | the resume record becomes the one of a system call return |
| `KernelObjects.Thread.SetContext` | kernel/thread.cpp:96-100 | the context is replaced and the resume record follows it |
| `KernelObjects.Thread.PrepareReturn` | kernel/thread.cpp:123-132 | the pending status and the resume record take the status |
| `KernelObjects.Thread.PrepareCallback` | kernel/thread.cpp:134-149 | the resume record aims at the callback with its two arguments and stack pointer; flags stay |
| `KernelObjects.Thread.SaveRegisters` | arch/x64/user_runtime.cpp:105-118 | the preserved registers and SIMD registers are those of the frame, in the source order |
| `KernelObjects.RpcEndpoint.Clear` | kernel/rpc.cpp:79-88 | the endpoint returns to its unused value |
| `KernelObjects.RpcEndpoint.Initialize` | kernel/rpc.cpp:90-104 | the endpoint is in use, idle, with this owner, name and addresses |
| `KernelObjects.RpcChannel.Begin` | kernel/rpc.cpp:148-162 | the channel is pending between the two threads and holds the server snapshot; its endpoint is busy |
| `KernelObjects.RpcChannel.Cancel` | kernel/rpc.cpp:164-177 | the channel is idle again and its endpoint free |
| `KernelObjects.RpcChannel.Finish` | kernel/rpc.cpp:179-196 | the server is restored from the snapshot, then the channel is idle |
| `KernelRuntime.UserRuntime.FindNextReadyThread` | kernel/user_runtime.cpp:327-360 | the two scans return the thread the cyclic specification picks |
| `KernelRuntime.UserRuntime.SetCurrentThread` | kernel/user_runtime.cpp:376-394 | the whole kernel value changes as the specification says: old RUNNING thread to READY, new READY thread to RUNNING |
| `KernelRuntime.UserRuntime.FindPendingChannelByServerThread` | kernel/rpc.cpp:476-494 | the lowest pending channel of a server |
| `KernelRuntime.UserRuntime.CompleteCall` | kernel/rpc.cpp:509-536 | the kernel value after RPC_COMPLETE is the specified one |
| `KernelRuntime.UserRuntime.FailPendingCall` | kernel/rpc.cpp:538-558 | the kernel value after a failed pending call is the specified one |
| `KernelRuntime.UserRuntime.ClearEndpointsOwnedBy` | kernel/rpc.cpp:496-507 | exactly the endpoints of the thread are cleared |
| `KernelRuntime.UserRuntime.HandleThreadExit` | kernel/rpc.cpp:208-212 | endpoints cleared, pending call failed |
| `KernelRuntime.UserRuntime.ScheduleNextReadyThread` | kernel/user_runtime.cpp:362-374 | the next READY thread becomes current, or none |
| `KernelRuntime.UserRuntime.TerminateCurrentThread` | kernel/user_runtime.cpp:396-409 | the kernel value after an exit is the specified one, and whether a thread was scheduled |
| `KernelRuntime.UserRuntime.FindEndpointByName` | kernel/rpc.cpp:443-461 | the first in-use endpoint of that name |
| `KernelRuntime.UserRuntime.FindFreeEndpoint` | kernel/rpc.cpp:463-474 | the first unused endpoint |
| `KernelRuntime.UserRuntime.FindChannelByHandle` | kernel/rpc.cpp:438-441 | the channel slot that holds the handle |
| `KernelRuntime.UserRuntime.FindObjectByHandle` | kernel/user_runtime.cpp:117-141 | whether a process, thread or memory object has the handle |
| `KernelRuntime.UserRuntime.PrepareServerThread` | kernel/rpc.cpp:560-655 | each refusal and the delivered request, as the specification says, on the kernel value |
| `KernelRuntime.UserRuntime.Register` | kernel/rpc.cpp:226-278 | status and kernel value of RPC_REGISTER |
| `KernelRuntime.UserRuntime.Open` | kernel/rpc.cpp:280-330 | status and kernel value of RPC_OPEN, for which KernelAnswers.OpenStatus and OpenGives hold |
| `KernelRuntime.UserRuntime.IssueOn` | kernel/rpc.cpp:306-330 | the channel is installed under a fresh handle, and taken out again when the handle cannot be written |
| `KernelRuntime.UserRuntime.Call` | kernel/rpc.cpp:332-396 | status and kernel value of RPC_CALL |
| `KernelRuntime.UserRuntime.Accept` | kernel/rpc.cpp:385-396 | the call begins; a cross-thread caller blocks and the server becomes current |
| `KernelRuntime.UserRuntime.Close` | kernel/rpc.cpp:398-424 | status and kernel value of RPC_CLOSE |
| `KernelRuntime.UserRuntime.DebugLog` | kernel/user_runtime.cpp:431-450 | status of DEBUG_LOG, with an unchanged kernel value |
| `KernelRuntime.UserRuntime.Serve` | kernel/user_runtime.cpp:429-480 | the system call switch, on the kernel value |
| `KernelRuntime.UserRuntime.Dispatch` | kernel/user_runtime.cpp:411-482 | the caller context is recorded, then the call is served |
| `KernelRuntime.UserRuntime.HandleSyscall` | arch/x64/user_runtime.cpp:93-151 | one trap of the class runtime is one trap of the specification: same kernel value, same loaded frame |
| `HandlePools.ObjectPool.Reset` | kernel/kernel_object_pool.inl:8-13 | every slot is free, ids start at 1, handles come from the given counter |
| `HandlePools.ObjectPool.Emplace` | kernel/kernel_object_pool.inl:17-39 | the first free slot takes the object under the next handle; a full or never reset pool draws no handle and changes nothing |
| `HandlePools.ObjectPool.HasFreeItems` | kernel/kernel_object_pool.inl:42-60 | true iff at least the required number of slots is free |
| `HandlePools.ObjectPool.EraseByHandle` | kernel/kernel_object_pool.inl:63-85 | the slot of the handle is freed; true iff there was one |
| `HandlePools.ObjectPool.FindByHandle` | kernel/kernel_object_pool.inl:88-106 | the slot of the handle, if any |
| `HandlePools.ObjectTables.Reset` | kernel/user_runtime.cpp:13-22 | the five pools are empty and share one counter that starts at 1 |
| `HandlePools.ObjectTables.CreateObject` | kernel/user_runtime.cpp:24-95 | creating an object is the specified creation in its pool; the other pools keep their value |
| `HandlePools.ObjectTables.EraseObject` | kernel/rpc.cpp:398-424 | erasing by handle is the specified erasure in its pool, true iff the pool held the handle; the other pools keep their value |
| `HandlePools.ObjectTables.FindObjectByHandle` | kernel/user_runtime.cpp:117-141 | the four-pool search returns the specified slot |
| `HandlePools.RunRefinesMap` | kernel/kernel_object_pool.inl:15-182 | over any run of creations and erasures below counter wrap the five tables are one map from handles to objects; live handles are non-zero and distinct across pools; a creation is refused iff its kind is full |
| `HandlePools.FreshRunsAreTheMap` | kernel/user_runtime.cpp:13-22 | the same from reset on: the tables represent the map the operations build |
| `HandlePools.NeverReused` | kernel/kernel_object_pool.inl:179-182 | what an already issued handle names after any operations below counter wrap, it named before them |
| `HandlePools.LookupIsMapLookup` | kernel/kernel_object_pool.inl:88-106 | looking a handle up in one pool is looking it up in the map |
| `HandlePools.FindObjectIsMapLookup` | kernel/user_runtime.cpp:117-141 | find_object_by_handle succeeds iff the handle names a live object that is not a channel, and returns that object |
| `HandlePools.FreeCountIsRoom` | kernel/kernel_object_pool.inl:42-60 | the free slots of a pool are its capacity less the live objects of its kind |
| `KernelHandles.IssueFollowsPool` | kernel/rpc.cpp:306-330 | opening a channel is creating in the channel pool; when the handle cannot be written, creating and erasing |
| `KernelHandles.EraseFollowsPool` | kernel/rpc.cpp:398-424 | closing a channel is erasing in the channel pool |
| `KernelHandles.LookupByDirectory` | kernel/rpc.cpp:346-357 | the channel lookup by the map of live handles: WRONG_TYPE iff a live non-channel, BAD_HANDLE iff nothing or another process's channel |
| `KernelDirectory.BootHolds` | kernel/user_runtime.cpp:500-538 | the pools that boot leaves hold the booted objects and stand for a map of live handles |
| `KernelDirectory.TrapWork` | kernel/rpc.cpp:280-424 | what a trap does to the pools is nothing, or creating a channel, or erasing one, or creating one and taking it back |
| `KernelDirectory.RunFollowsPools` | kernel/rpc.cpp:280-424 | in every run there are, at every state, pools that hold the objects and one map they stand for; a trap takes pools and map on by the same channel operations; every handle lookup of a system call answers by that map |
| `KernelDirectory.LiveHandlesDistinct` | kernel/kernel_object_pool.inl:17-39 | at every state of a run no two processes, threads, memory objects or channels share a handle |
| `KernelDirectory.HandleNeverReused` | kernel/kernel_object_pool.inl:17-39 | over a run, what an already issued handle answers later is what it answers now, but that a channel may have gone; a channel found later has the same client and endpoint |
| `AddressSpaces.OverlapIsIntersection` | kernel/address_space.cpp:10-15 | the two-comparison overlap test is intersection of the byte ranges |
| `Words.SignsAreCongruent` | arch/x64/user_runtime.cpp:36-75 | the status in rax, and the status read from a register, are congruent to what they come from, and each undoes the other |
| `Words.LittleEndianAt` | emulator/x64/x64_execution_context.cpp:278-303 | byte k of a stored word is its k-th digit in base 256 |
| `Words.WrapIsCongruent` | emulator/x64/x64_control_flow_instructions.cpp:215-233 | a wrapped address is the one 64-bit word that differs by a multiple of 2^64 |
| `AddressSpaces.AddressSpace.AddMapping` | kernel/address_space.cpp:46-75 | accepts iff the mapping is non-empty, does not wrap, fits the table and meets no other; mappings stay disjoint; a refusal changes nothing |
| `AddressSpaces.FindAddressSpaceMapping` | kernel/address_space.cpp:17-43 | the first mapping that holds the address (or ends at it, when that is allowed) |
| `AddressSpaces.ValidateRange` | kernel/address_space.cpp:77-113 | for length > 0, true iff every byte lies in a mapping with a non-zero host address |
| `AddressSpaces.TryTranslateAddress` | kernel/address_space.cpp:115-132 | for length > 0, succeeds iff one such mapping covers the whole range, with the host address of its first byte |
| `AddressSpaces.TryTranslateChunk` | kernel/address_space.cpp:134-172 | the longest part of the request inside one mapping, with consecutive host bytes; fails iff the first byte is unmapped |
| `UserCopy.CopyUserBytes` | kernel/user_runtime.cpp:155-192 | OK iff every source byte is mapped, and then the buffer holds exactly the guest bytes, across any split into mappings |
| `UserCopy.WriteUserBytes` | kernel/user_runtime.cpp:194-231 | memory and status equal those of a byte-at-a-time guest write, the partial write before a fault included |
| `UserCopy.CopyBetweenUserProcesses` | kernel/user_runtime.cpp:233-284 | memory and status equal those of a byte-at-a-time copy from guest to guest, under two-sided chunking |
| `UserCopy.CopyUserString` | kernel/user_runtime.cpp:286-320 | OK iff the mapped bytes reach a NUL within the buffer, which then starts with the string and its NUL; FAULT and BUFFER_TOO_SMALL otherwise, exactly |
| `UserCopy.WriteUserMeaning` | kernel/user_runtime.cpp:194-231 | the byte-at-a-time write succeeds iff the range is mapped; when host bytes are distinct the guest then reads back what was written; nothing outside changes |
| `UserCopy.CopyUserMeaning` | kernel/user_runtime.cpp:233-284 | the byte-at-a-time copy succeeds iff both ranges are mapped, and when host backings are disjoint the destination reads as the source did |
| `UserCopy.UserStringMeaning` | kernel/user_runtime.cpp:286-320 | the string read is the bytes before the first NUL, with each outcome characterized |
| `X64Context.ExecutionContext.Translate` | emulator/x64/x64_execution_context.cpp:435-464 | an access is allowed iff it lies in guest memory, and otherwise is reported at its address |
| `X64Context.ExecutionContext.ReadU8` | emulator/x64/x64_execution_context.cpp:187-198 | the byte, or a reported fault |
| `X64Context.ExecutionContext.ReadU32` | emulator/x64/x64_execution_context.cpp:213-224 | the little-endian word, or a reported fault |
| `X64Context.ExecutionContext.ReadU64` | emulator/x64/x64_execution_context.cpp:239-250 | the little-endian word, or a reported fault |
| `X64Context.ExecutionContext.WriteU32` | emulator/x64/x64_execution_context.cpp:278-289 | four bytes change, or a reported fault and none does |
| `X64Context.ExecutionContext.WriteU64` | emulator/x64/x64_execution_context.cpp:291-302 | eight bytes change, or a reported fault and none does |
| `X64Context.ExecutionContext.SetLogicFlags` | emulator/x64/x64_execution_context.cpp:317-334 | flags after a logic operation |
| `X64Context.ExecutionContext.SetCompareFlags` | emulator/x64/x64_execution_context.cpp:336-370 | flags after a comparison, set bit by bit |
| `X64Context.ExecutionContext.SetAddFlags` | emulator/x64/x64_execution_context.cpp:372-406 | flags after an addition, set bit by bit |
| `X64Context.ExecutionContext.PushU64` | emulator/x64/x64_execution_context.cpp:408-420 | RSP moves down first; a fault leaves it moved |
| `X64Context.ExecutionContext.PopU64` | emulator/x64/x64_execution_context.cpp:422-433 | the word and RSP moved up, or a fault and RSP as it was |
| `X64Context.ExecutionContext.SetBackendFailure` | emulator/x64/x64_execution_context.cpp:131-150 | completion and failure of the report agree |
| `X64Alu.TryDecodeRmOperand` | emulator/x64/x64_alu_instructions.cpp:101-187 | the ALU decoder yields the one reference operand (the manual's, by X64Manual.DecodesAsManual), or faults at the same address |
| `X64Alu.ExecuteXorRegister` | emulator/x64/x64_alu_instructions.cpp:190-222 | the instruction takes the machine where the reference does |
| `X64Alu.ExecuteOrRegisterByte` | emulator/x64/x64_alu_instructions.cpp:224-251 | as above, byte OR |
| `X64Alu.ExecuteOrRm` | emulator/x64/x64_alu_instructions.cpp:253-308 | as above, OR from register or memory |
| `X64Alu.ExecuteTestRegister` | emulator/x64/x64_alu_instructions.cpp:310-346 | as above, TEST |
| `X64Alu.ExecuteTestAccumulator` | emulator/x64/x64_alu_instructions.cpp:348-373 | as above, TEST with an immediate |
| `X64Alu.ExecuteGroupF6` | emulator/x64/x64_alu_instructions.cpp:375-409 | as above, byte TEST |
| `X64Alu.ExecuteGroupF7` | emulator/x64/x64_alu_instructions.cpp:411-486 | as above, NEG |
| `X64Alu.ExecuteGroup83` | emulator/x64/x64_alu_instructions.cpp:488-620 | as above, ADD, SUB and CMP with a byte immediate |
| `X64Alu.ExecuteGroup81` | emulator/x64/x64_alu_instructions.cpp:677-809 | as above, with a double word immediate |
| `X64Alu.ExecuteCompareRmWithRegister` | emulator/x64/x64_alu_instructions.cpp:622-675 | as above, CMP |
| `X64DataMovement.TryGetMemoryOperandAddress` | emulator/x64/x64_data_movement_instructions.cpp:95-182 | the data-movement decoder yields the same reference address, or faults at the same address |
| `X64DataMovement.ExecuteMovImmediate32` | emulator/x64/x64_data_movement_instructions.cpp:196-216 | the instruction takes the machine where the reference does |
| `X64DataMovement.ExecuteMovImmediateToRm` | emulator/x64/x64_data_movement_instructions.cpp:218-303 | as above |
| `X64DataMovement.ExecuteMovRegister` | emulator/x64/x64_data_movement_instructions.cpp:305-428 | as above, both directions, register and memory |
| `X64DataMovement.ExecuteLea` | emulator/x64/x64_data_movement_instructions.cpp:430-475 | as above |
| `X64DataMovement.ExecuteGroup80` | emulator/x64/x64_data_movement_instructions.cpp:477-538 | as above, byte CMP |
| `X64DataMovement.ExecuteSecondarySetCondition` | emulator/x64/x64_data_movement_instructions.cpp:540-568 | as above, SETcc |
| `X64DataMovement.ExecuteSecondaryMovZeroExtendByte` | emulator/x64/x64_data_movement_instructions.cpp:570-617 | as above, MOVZX |
| `X64Simd.TryDecodeModrmOperand` | emulator/x64/x64_simd_instructions.cpp:102-188 | the SIMD decoder yields the reference operand, or faults at the same address |
| `X64Simd.ExecuteSecondaryMovXmm` | emulator/x64/x64_simd_instructions.cpp:250-276 | the instruction takes the machine where the reference does |
| `X64Simd.ExecuteSecondaryStoreXmm` | emulator/x64/x64_simd_instructions.cpp:278-319 | as above |
| `X64Simd.ExecuteSecondaryXorps` | emulator/x64/x64_simd_instructions.cpp:321-353 | as above: the in-place loop computes the bytewise XOR |
| `X64Simd.ExecuteSecondaryMovd` | emulator/x64/x64_simd_instructions.cpp:355-383 | as above |
| `X64Simd.ExecuteSecondaryPunpcklbw` | emulator/x64/x64_simd_instructions.cpp:385-420 | as above: the loop interleaves the low halves |
| `X64Simd.ExecuteSecondaryShuffle` | emulator/x64/x64_simd_instructions.cpp:422-478 | as above: the loops select double words or low words by the immediate |
| `X64Simd.ExecuteSecondaryMovqStore` | emulator/x64/x64_simd_instructions.cpp:480-512 | as above |
| `X64Interpreter.ExecuteReturn` | emulator/x64/x64_control_flow_instructions.cpp:55-72 | the instruction takes the machine where the reference does |
| `X64Interpreter.ExecuteCallRelative` | emulator/x64/x64_control_flow_instructions.cpp:74-100 | as above |
| `X64Interpreter.ExecuteGroupFF` | emulator/x64/x64_control_flow_instructions.cpp:102-193 | as above, INC, DEC and indirect CALL |
| `X64Interpreter.ExecuteJumpRelativeNear` | emulator/x64/x64_control_flow_instructions.cpp:195-213 | as above |
| `X64Interpreter.ExecuteJumpRelativeShort` | emulator/x64/x64_control_flow_instructions.cpp:215-233 | as above |
| `X64Interpreter.ExecuteJumpShortCondition` | emulator/x64/x64_control_flow_instructions.cpp:235-256 | as above |
| `X64Interpreter.ExecuteJumpNearCondition` | emulator/x64/x64_control_flow_instructions.cpp:258-277 | as above |
| `X64Interpreter.ExecutePushRegister` | emulator/x64/x64_stack_instructions.cpp:18-37 | as above |
| `X64Interpreter.ExecutePopRegister` | emulator/x64/x64_stack_instructions.cpp:39-59 | as above |
| `X64Interpreter.TrySkipModrmOperand` | emulator/x64/x64_system_instructions.cpp:6-97 | the NOP skipper declines a reg field other than 0, and otherwise agrees with the reference operand on success and on where the next bytes start |
| `X64Interpreter.ExecuteSecondaryNop` | emulator/x64/x64_system_instructions.cpp:131-144 | the instruction takes the machine where the reference does |
| `X64Interpreter.ExecuteSyscall` | emulator/x64/x64_system_instructions.cpp:107-129 | one call of the handler with the guest as it stands; its status in rax, its action in the outcome and the report |
| `X64Interpreter.DecodeInstruction` | emulator/x64/x64_decoder.cpp:5-73 | the prefix loop terminates and reads the instruction the recursive reference reads |
| `X64Interpreter.DispatchInstruction` | emulator/x64/x64_instruction_dispatch.cpp:11-22 | fault record first, then the handler of either table |
| `X64Interpreter.RunInterpreter` | emulator/x64/x64_interpreter.cpp:15-49 | the budget loop ends in the guest, report and retired count of the reference run |
| `X64Properties.FaultPrecision` | emulator/x64/x64_instruction_dispatch.cpp:11-108 | for every opcode of both tables: an instruction that stops without retiring leaves memory, instruction pointer, flags, vectors and registers unchanged, except that RSP may be one word lower after a push (PUSH, CALL, CALL through group FF) |
| `X64Properties.RunIsConsistent` | emulator/x64/x64_interpreter.cpp:15-49 | every run terminates, retires at most its budget, and ends with a consistent completion, stop reason and failure |
| `X64Properties.BudgetSplitting` | emulator/x64/x64_interpreter.cpp:15-49 | a run that exhausts budget n, resumed with budget k, ends in the same guest, system calls, report (fault instruction pointer aside) and total retired count as one run with n + k |
| `X64Properties.LoopReports` | emulator/x64/x64_interpreter.cpp:15-49 | the report of a run says limit reached iff the budget was exhausted |
| `X64Manual.DecodesExactly` | emulator/x64/x64_decoder.cpp:5-73 | the decoder yields exactly the instruction that the bytes at the instruction pointer encode: prefixes 66, F2, F3, 2E and REX, the last REX byte giving W, R, X and B, then the opcode; it fails iff memory ends within the prefixes |
| `X64Manual.DecodesAsManual` | emulator/x64/x64_alu_instructions.cpp:16-187 | with n immediate bytes behind the operand, the emulator decodes it as Intel SDM Vol. 2A sections 2.1.5 and 2.2.1.6 do (fields, scale 2^ss, displacement and base spelled out by arithmetic of their own) iff it is neither REX.B with mod 0 and base field 5 nor a readable RIP-relative operand with n > 0 |
| `X64Manual.OpcodeDecodesAsManual` | emulator/x64/x64_instruction_dispatch.cpp:11-108 | the same for the opcodes of both tables, with the immediate bytes each of them has, by reg field and operand size |
| `X64Manual.DeviationIs` | emulator/x64/x64_alu_instructions.cpp:16-187 | with REX.B, mod 0 and base field 5 the emulator's operand is R13 plus the scaled index, without displacement |
| `X64Manual.RexBTakesR13` | emulator/x64/x64_alu_instructions.cpp:16-187 | the first exception is real: for 41 8B 05 with displacement 0 the emulator addresses what R13 points to, and the manual the byte behind the instruction |
| `X64Manual.StoreBehindImmediate` | emulator/x64/x64_data_movement_instructions.cpp:218-303 | the second exception is real: for C7 05 with displacement 0 the emulator addresses the immediate, and the manual the byte four further on, behind the instruction |
| `X64Flags.CompareOrders` | emulator/x64/x64_execution_context.cpp:336-370 | after a comparison ZF iff equal, CF iff unsigned less, SF != OF iff signed less, in 32 and 64 bits |
| `X64Flags.AddOverflows` | emulator/x64/x64_execution_context.cpp:372-406 | after an addition CF iff unsigned overflow, OF iff signed overflow, ZF and SF of the sum |
| `X64Flags.IncDecSteps` | emulator/x64/x64_control_flow_instructions.cpp:12-41 | INC and DEC keep CF; OF iff signed overflow |
| `X64Flags.LogicMeaning` | emulator/x64/x64_execution_context.cpp:317-334 | after a bitwise result CF and OF are clear, ZF iff it is zero, SF its sign |
| `X64Flags.StatusFlagsOnly` | emulator/x64/x64_execution_context.cpp:317-406 | sums, differences and bitwise results leave every flag bit but the four status flags and bit 1 alone |
| `X64Laws.JumpsOnZero` | emulator/x64/x64_control_flow_instructions.cpp:235-256 | JE and JNE, short, over Execute: taken iff ZF is set (74) or clear (75), to the byte behind the instruction plus the signed displacement; nothing else changes |
| `X64Laws.JumpsNearOnZero` | emulator/x64/x64_control_flow_instructions.cpp:258-277 | the same for 0F 84 and 0F 85 |
| `X64Laws.JumpsAlways` | emulator/x64/x64_control_flow_instructions.cpp:195-233 | JMP goes on behind the instruction plus the signed displacement, NOP behind it; nothing else changes |
| `X64Laws.ReturnsToTop` | emulator/x64/x64_control_flow_instructions.cpp:55-72 | RET goes on at the word RSP points at, and RSP moves up one word |
| `X64Laws.CallsRelative` | emulator/x64/x64_control_flow_instructions.cpp:74-100 | CALL pushes the address behind it and goes on the signed displacement further |
| `X64Laws.CallsThrough` | emulator/x64/x64_control_flow_instructions.cpp:102-193 | CALL through a register or a RIP-relative slot pushes the address behind it and goes on at the word found; other forms stop |
| `X64Laws.FFNeedsOperation` | emulator/x64/x64_control_flow_instructions.cpp:102-193 | group FF stops without a ModRM byte, and on reg fields above 2 |
| `X64Laws.StepsRegister` | emulator/x64/x64_control_flow_instructions.cpp:102-193 | INC and DEC of group FF step the register by one modulo the operand size, keep CF, set OF, ZF and SF by the result, and change nothing else |
| `X64Laws.PushesRegister` | emulator/x64/x64_stack_instructions.cpp:18-37 | PUSH moves RSP down one word and leaves the register there; no other byte changes |
| `X64Laws.PopsRegister` | emulator/x64/x64_stack_instructions.cpp:39-59 | POP takes the word RSP points at and moves RSP up; POP RSP keeps the word |
| `X64Laws.CallsHandler` | emulator/x64/x64_system_instructions.cpp:107-129 | SYSCALL shows the handler the guest behind the instruction; rax takes its status, sign-extended, and its action decides how execution goes on |
| `X64Laws.SkipsOperand` | emulator/x64/x64_system_instructions.cpp:131-144 | long NOP moves the instruction pointer over its operand, and nothing else |
| `X64Laws.MovesRegister` | emulator/x64/x64_data_movement_instructions.cpp:305-428 | MOV between register and operand: the low 4 or 8 bytes, zero-extended into a register; no other byte, register or flag changes |
| `X64Laws.LoadsAddress` | emulator/x64/x64_data_movement_instructions.cpp:430-475 | LEA stores the address of a memory operand, cut to the operand size |
| `X64Laws.MovesImmediate` | emulator/x64/x64_data_movement_instructions.cpp:196-216 | MOV of the 32-bit immediate into the register the opcode and REX.B number |
| `X64Laws.MovesImmediateToOperand` | emulator/x64/x64_data_movement_instructions.cpp:218-303 | MOV of the sign-extended immediate into an operand |
| `X64Laws.SetsOnZero` | emulator/x64/x64_data_movement_instructions.cpp:540-568 | SETE and SETNE: the low byte becomes 1 iff ZF is set, or clear; the upper bits stay |
| `X64Laws.ExtendsByte` | emulator/x64/x64_data_movement_instructions.cpp:570-617 | MOVZX: the register becomes the operand's byte |
| `X64Laws.ComparesByte` | emulator/x64/x64_data_movement_instructions.cpp:477-538 | byte CMP: ZF iff equal, CF iff below, SF and OF clear; nothing is stored |
| `X64Laws.XorsRegister` | emulator/x64/x64_alu_instructions.cpp:190-222 | 32-bit XOR, bit by bit, with the flags of the result |
| `X64Laws.OrsByteRegister` | emulator/x64/x64_alu_instructions.cpp:224-251 | byte OR, bit by bit; the upper bits stay |
| `X64Laws.OrsOperand` | emulator/x64/x64_alu_instructions.cpp:253-308 | OR of an operand into a register, bit by bit |
| `X64Laws.TestsRegister` | emulator/x64/x64_alu_instructions.cpp:310-346 | TEST of two registers sets the flags of their AND, taken bit by bit, and changes nothing else |
| `X64Laws.TestsAccumulator` | emulator/x64/x64_alu_instructions.cpp:348-373 | the same for the accumulator and a sign-extended immediate |
| `X64Laws.TestsByte` | emulator/x64/x64_alu_instructions.cpp:375-409 | the same for a byte operand and an immediate |
| `X64Laws.Negates` | emulator/x64/x64_alu_instructions.cpp:411-486 | NEG stores minus the operand; the flags order zero and the operand; CF iff it was not zero, OF iff it was the least integer |
| `X64Laws.CombinesImmediate` | emulator/x64/x64_alu_instructions.cpp:488-809 | groups 81 and 83: ADD stores the sum with its overflow flags, SUB the difference, SUB and CMP order operand and immediate, CMP stores nothing; other operations stop |
| `X64Laws.ComparesRegister` | emulator/x64/x64_alu_instructions.cpp:622-675 | CMP of opcode 39 orders the operands and changes only flags and instruction pointer |
| `X64Laws.OthersStop` | emulator/x64/x64_instruction_dispatch.cpp:11-108 | every other opcode of either table stops as unsupported and changes nothing |
| `X64VectorLaws.LoadsVector` | emulator/x64/x64_simd_instructions.cpp:250-276 | MOVUPS from an operand: its sixteen bytes |
| `X64VectorLaws.StoresVector` | emulator/x64/x64_simd_instructions.cpp:278-319 | MOVUPS, MOVAPS and MOVDQU to an operand: the sixteen bytes, and no other |
| `X64VectorLaws.XorsVector` | emulator/x64/x64_simd_instructions.cpp:321-353 | XORPS: every byte is the XOR of the operands' bytes, bit by bit |
| `X64VectorLaws.MovesDword` | emulator/x64/x64_simd_instructions.cpp:355-383 | MOVD: the operand's dword below twelve zero bytes |
| `X64VectorLaws.InterleavesBytes` | emulator/x64/x64_simd_instructions.cpp:385-420 | PUNPCKLBW: x0 y0 x1 y1 .. x7 y7 |
| `X64VectorLaws.Shuffles` | emulator/x64/x64_simd_instructions.cpp:422-478 | PSHUFD and PSHUFLW: unit j of the result is the operand's unit that bits 2j and 2j + 1 of the selector number; PSHUFLW keeps the high half |
| `X64VectorLaws.StoresLowQword` | emulator/x64/x64_simd_instructions.cpp:480-512 | MOVQ: the eight low bytes, and no other byte changes |
| `X64Sequences.CompareThenJump` | emulator/x64/x64_control_flow_instructions.cpp:235-256 | CMP with a register, then JE or JNE: JE branches iff the operands are equal; only flags and instruction pointer change |
| `X64Sequences.CompareImmediateThenJump` | emulator/x64/x64_control_flow_instructions.cpp:235-256 | the same for CMP with an immediate |
| `X64Sequences.TestThenJump` | emulator/x64/x64_control_flow_instructions.cpp:235-256 | TEST of two registers, then JE or JNE: JE branches iff they have no bit in common |
| `X64Sequences.TestByteThenJump` | emulator/x64/x64_control_flow_instructions.cpp:235-256 | the same for TEST of a byte operand with an immediate |
| `X64Sequences.CallThenReturn` | emulator/x64/x64_control_flow_instructions.cpp:55-100 | a RET that finds RSP and the word at it as a CALL left them goes on behind the call, with RSP as before it |
| `X64Sequences.PushThenPop` | emulator/x64/x64_stack_instructions.cpp:18-60 | a POP that finds RSP and the word at it as a PUSH left them takes the pushed value, with RSP as before it |
| `ImportStubs.StubRuns` | win32/x64_win32_emulation.cpp:139-158 | for every number, address and guest with a readable return slot, an emitted stub issues exactly one system call with rax = number and rdi = entry rcx; on CONTINUE, four instructions later, the guest is at its return address with RSP + 8, rax = the sign-extended status, rdi = entry rcx, and everything else kept; otherwise the run ends there |
| `ImportStubs.StubInOnePiece` | win32/x64_win32_emulation.cpp:139-158 | eleven bytes at an address inside guest memory can be fetched one by one |
| `Win32Imports.AlignUpMeaning` | win32/x64_win32_emulation.cpp:9-18 | the next multiple of 16 |
| `Win32Imports.HasDllSuffix` | win32/x64_win32_emulation.cpp:25-30 | true iff exactly "dll" in any case remains |
| `Win32Imports.SameInAnyCase` | win32/x64_win32_emulation.cpp:20-23 | two characters agree iff they are equal or one letter in its two cases |
| `Win32Imports.MatchDllNames` | win32/x64_win32_emulation.cpp:32-58 | true iff the names agree in any case, with or without ".dll" on the imported one |
| `Win32Imports.MatchSymbolNames` | win32/x64_win32_emulation.cpp:60-80 | true iff the names are equal |
| `Win32Imports.LookUpExport` | win32/x64_win32_emulation.cpp:113-127 | the first export of that DLL and symbol |
| `Win32Imports.EmitStub` | win32/x64_win32_emulation.cpp:146-154 | the image is patched with exactly the stub bytes |
| `Win32Imports.ResolveImport` | win32/x64_win32_emulation.cpp:90-159 | each refusal under its exact condition, with the image unchanged; on OK the stub for the first matching export stands at the next multiple of 16 |
| `PeImports.ReadLoadedString` | win32/x64_pe64_image.cpp:126-153 | succeeds iff a string of fewer than 64 characters and its NUL stand at the address, and returns it |
| `PeImports.ResolveRva` | win32/x64_pe64_image.cpp:155-183 | an RVA below the image size, or an address inside the image; nothing else |
| `PeImports.BindThunk` | win32/x64_pe64_image.cpp:368-411 | one import: refused with its exact status and no change, or bound with its stub and slot written |
| `PeImports.BindThunks` | win32/x64_pe64_image.cpp:343-412 | the thunk loop terminates and ends where the reference walk does, each entry read from the image as the bindings before left it |
| `PeImports.BindImports` | win32/x64_pe64_image.cpp:289-419 | the descriptor loop terminates with the status, image and import count of the reference walk |
| `PeImports.ThunkWalkBinds` | win32/x64_pe64_image.cpp:343-412 | whatever its outcome, a walk over thunks keeps earlier bindings well bound and fills the address slots in order, eight bytes apart |
| `PeImports.ImportWalkBinds` | win32/x64_pe64_image.cpp:289-419 | whatever the outcome: import_count stubs, 16-aligned, pairwise disjoint, behind the image, inside the loaded region and byte-intact; slots no later binding overlaps hold base + stub; no other byte changes |
| `PeTables.LoadBindsTheTable` | win32/x64_pe64_image.cpp:289-419 | a load that reports OK has bound, in order, exactly one import for each lookup entry before the first zero entry of each descriptor before the first empty one: dll the string at the descriptor's name field, symbol the string two bytes behind what the entry refers to, slot firstThunk + 8 * index, stub the next multiple of 16 with the first matching export's code; the image is the one these bindings make |
| `PeTables.TableLoads` | win32/x64_pe64_image.cpp:289-419 | and whenever bindings like that exist the load reports OK with exactly them |
| `ImportCalls.BoundIsCallable` | win32/x64_pe64_image.cpp:289-419 | a bound import's stub is code the emulated guest can fetch, and its slot, unless a later import overlapped it, reads as the stub's guest address |
| `ImportCalls.BoundImportsRun` | win32/x64_pe64_image.cpp:289-419 | a guest that calls (FF 15) through a bound slot that no later import overlaps, with a writable stack word that does not meet the stub, makes the import's system call once, with entry rcx as first argument; if the handler continues it, five instructions later it is behind the call with the status in rax, rdi = entry rcx, its stack pointer back and only the word under the stack overwritten; otherwise the run ends there |
| `Stdio.Output.AppendCharacter` | user/libc/src/stdio.cpp:21-35 | the total counts every character, the buffer takes those that leave room for the NUL |
| `Stdio.Output.AppendString` | user/libc/src/stdio.cpp:37-46 | appends the string, "(null)" for a null pointer |
| `Stdio.CollectDigits` | user/libc/src/stdio.cpp:58-71 | the digits, low one first; 32 places always suffice |
| `Stdio.Output.AppendUnsignedValue` | user/libc/src/stdio.cpp:48-78 | appends the numeral of the value in the base |
| `Stdio.Output.AppendSignedValue` | user/libc/src/stdio.cpp:80-91 | appends sign and magnitude, without overflow for the least integer |
| `Stdio.ParseFormatLength` | user/libc/src/stdio.cpp:93-115 | the length modifier and where it ends |
| `Stdio.Output.Convert` | user/libc/src/stdio.cpp:216-258 | appends what the conversion stands for and takes an argument iff it has one |
| `Stdio.PrintDirective` | user/libc/src/stdio.cpp:198-264 | one turn of the format loop puts out one directive and leaves the rest standing for the rest of the text |
| `Stdio.Vsnprintf` | user/libc/src/stdio.cpp:185-279 | returns the full length of the rendered text, stores its first min(n - 1, length) characters and a NUL and nothing else; EINVAL and -1 without a format or a needed buffer (C11 sections 7.21.6.5 and 7.21.6.12) |
| `Stdio.Vprintf` | user/libc/src/stdio.cpp:168-183 | hands to the debug-log call at most the first 511 characters of the text, none from a NUL on, and returns the full length whatever the call answers |
| `Stdio.IntegersParseBack` | user/libc/src/stdio.cpp:48-91 | printed integers read back as themselves, without leading zeros, negative ones and INT64_MIN included |
| `Stdio.EscapedTextRendersAsItself` | user/libc/src/stdio.cpp:198-213 | a text with its percent signs doubled is a format that renders as the text, whatever the arguments |
| `Formats.FormatsFollow` | user/libc/src/stdio.cpp:198-264 | a format that does not end inside a directive renders as it would alone, and what follows it renders from the arguments it leaves: the k-th directive that takes an argument takes the k-th argument |
| `Formats.DirectiveInContext` | user/libc/src/stdio.cpp:198-264 | around one directive: prefix, directive and suffix render separately, each from the arguments left |
| `Formats.DirectiveParses` | user/libc/src/stdio.cpp:93-258 | percent sign, modifier (none, l, ll, z) and specifier are one conversion that takes an argument iff the specifier is one of c d i p s u x X |
| `Formats.UnsignedDirective` | user/libc/src/stdio.cpp:117-249 | %u reads back in decimal, %x and %X in lower and upper case hexadecimal, as the argument: its low 32 bits, or 64 with l, ll or z; no leading zeros |
| `Formats.SignedDirective` | user/libc/src/stdio.cpp:133-227 | %d and %i read back as the two's complement value of those bits |
| `Formats.PointerDirective` | user/libc/src/stdio.cpp:228-237 | %p is 0x and the whole word in lower case hexadecimal |
| `Formats.TextDirectives` | user/libc/src/stdio.cpp:216-258 | %s is the string, or (null); %c the one character; an unknown specifier prints itself behind a percent sign |
| `Formats.PlainTexts` | user/libc/src/stdio.cpp:198-264 | other characters stand for themselves, two percent signs for one, and so does one that the format ends behind, with or without a length modifier |
| `Terminal.TerminalService.FlushLine` | services/terminal/srv_terminal_main.cpp:15-26 | a pending line goes to the log, and the buffer is empty whatever the log answers |
| `Terminal.TerminalService.WriteCharacter` | services/terminal/srv_terminal_main.cpp:29-44 | as long as it reports OK the service has logged and buffered exactly what the input asks for; when the log refuses, that line was still put out and only the character is lost |
| `Terminal.TerminalService.WriteBuffer` | services/terminal/srv_terminal_main.cpp:46-61 | the same for a buffer of 1 to 240 bytes; after a refusal the bytes consumed up to it are named, every line of theirs has been put out and nothing is pending; other sizes are refused without effect |
| `Terminal.TextStep` | services/terminal/srv_terminal_main.cpp:29-44 | the reference (input less NUL and CR, split at LF, cut into 95-byte pieces, empties dropped) one byte at a time |
| `Terminal.CutPieces` | services/terminal/srv_terminal_main.cpp:29-44 | the pieces of a segment are non-empty, at most 95 bytes, all but the last exactly 95, and join to the segment |
| `Terminal.NothingLost` | services/terminal/srv_terminal_main.cpp:15-44 | logged lines and pending buffer join to the clean input less its LFs: nothing lost, reordered or made up |
| `KernelLog.LogAccepts` | kernel/user_runtime.cpp:431-450 | DEBUG_LOG answers OK iff the string is shorter than 96 characters, and BUFFER_TOO_SMALL otherwise |
| `KernelLog.TerminalLinesAreAccepted` | services/terminal/srv_terminal_main.cpp:15-44 | DEBUG_LOG accepts every line the terminal service puts out |
| `KernelLog.PrintedTextIsAccepted` | user/libc/src/stdio.cpp:168-183 | DEBUG_LOG accepts what vprintf hands to it iff the printed text is shorter than 96 characters |

## Left out

Boundaries of the model:

- Page tables, MSRs, MMU and TLB setup, assembly, and address-space activation: hardware effects.
- arm64 frames and bootstrap; initial user argument delivery, device and shared memory contents, debug output. What a
  platform puts into the boot configurations (images, page tables, stacks) is any mapping and context; the boot is
  modelled from there on, and a panic as no runtime.
- User code between traps is arbitrary: it may rewrite any byte of the modelled memory, not the kernel's own tables. Host
  memory that backs user mappings is one byte array, apart from the kernel objects.
- Checks for null processes and frames, and panics other than the boot's: objects here always have their process, and traps
  a current thread.
- Self-calls and nested calls are part of the step and of the invariant; last-in-first-out completion is not claimed for
  them. The transparency theorems speak of the completion that resolves a given channel, for client and server distinct.
- Runs stay below the wrap of the handle counter (2^64 handles).
- Endpoint and log strings are byte sequences without their NUL once read.
- The preserved registers and SIMD qwords of a thread, and the x64 frame, are sequences and records, not arrays at fixed
  offsets. The channel pool inside `KernelRuntime.UserRuntime` is a sequence of object references; `HandlePools` models the
  pool's storage, ids and counter, and `KernelDirectory` ties the two.
- Process reference counts of kernel objects: nothing modelled reads them.
- The system call handler of the emulator is any function of the guests shown to it so far. It leaves guest memory alone.
- The opcode handler tables are conditionals over the same opcodes. The 32-bit and 64-bit branches of groups 81 and 83 are
  one body over the width.
- PF and AF are not set by the code and not modelled; the byte compare takes SF and OF by the 32-bit rules
  (`X64Laws.ComparesByte`). The
  comparison with the manual covers memory operands and register numbers, not the byte registers AH to BH, which the
  emulator takes for the low bytes of registers 4 to 7 (as with a REX prefix).
- The header checks of a PE32+ image (win32/pe_image.cpp): binding starts from a loaded image inside its region.
- The Win32 export table is any table; null name pointers and the resolver's null checks are left out.
- C varargs: an argument is a 64-bit word and, for %s, the string it points to, consumed in order, as on x64, where
  va_list is an array and long has 64 bits. Totals are unbounded, so results are the source's below INT_MAX.
- printf, snprintf and the streams around vprintf: they forward.
- The request header check of the terminal service and its main loop.

Contracts stated weaker than one might expect:

- UserCopy.WriteUserBytes: on FAULT a prefix may have been written, as in the code; the contract gives that prefix exactly.
- UserCopy.CopyUserMeaning: delivery is claimed for disjoint host backings only; aliased backings are covered by the exact
  byte-at-a-time order.
- X64Properties.BudgetSplitting: the instruction pointer of the fault record is left out of the equality, since a run that
  stops at its budget does not refresh it.
- PeImports.ImportWalkBinds: a slot that a later import's slot overlaps is left out, since the later one wins.
