/**
 The kernel's state when the first user thread starts (kernel/user_runtime.cpp, run_initial_user_runtime): a process and
 a thread per configuration, with consecutive handles, the chosen thread RUNNING and the others READY.
 */
module KernelBoot {
  import opened Words
  import opened Status
  import opened Search
  import opened AddressSpaces
  import opened UserCopy
  import opened KernelModel

  /** The sizes of the kernel's tables, and the most processes it starts with. */
  datatype Limits = Limits(initialProcesses: u32, processes: u32, threads: u32, endpoints: u32, channels: u32)

  /** The kernel's own sizes (kernel/user_runtime_types.h). */
  const CONFIGURED: Limits := Limits(2, 4, 4, 8, 8)

  /** One initial process: its address space and where its thread starts. */
  datatype Configuration = Configuration(mappings: seq<Mapping>, context: ThreadContext)

  /** The boot does not panic. */
  predicate Bootable(configurations: seq<Configuration>, initial: nat, limits: Limits) {
    && 0 < |configurations| <= limits.initialProcesses && initial < |configurations|
    && |configurations| <= limits.processes && |configurations| <= limits.threads
  }

  function BootProcess(c: Configuration, index: u32): ProcessRecord {
    ProcessRecord(2 * index + 1, c.mappings)
  }

  function BootThread(c: Configuration, index: u32, state: ThreadState): ThreadRecord {
    ThreadRecord(2 * index + 2, index, state, c.context,
                 Resume(ResumeSyscall, c.context.instructionPointer, c.context.stackPointer, c.context.flags,
                        c.context.argument0, 0, STATUS_OK, 0),
                 0, STATUS_OK, Zeros(REGISTER_COUNT), Zeros(SIMD_QWORD_COUNT))
  }

  /** All initial processes and threads, before (None) or after the initial thread is made the current one. */
  function BootState(configurations: seq<Configuration>, current: Option<nat>, limits: Limits, memory: seq<u8>): KernelState
    requires |configurations| < 0x1_0000_0000
  {
    var n := |configurations|;
    KernelState(seq(n, i requires 0 <= i < n => BootProcess(configurations[i], i)),
                seq(n, i requires 0 <= i < n =>
                  BootThread(configurations[i], i, if current == Some(i) then Running else Ready)),
                seq(limits.endpoints, _ => CLEAR_ENDPOINT), seq(limits.channels, _ => None), {}, current,
                2 * n + 1, memory)
  }

  /** What runs start from: READY threads but for the RUNNING initial one, no endpoints, no channels, no two objects
      under one handle. */
  ghost predicate Booted(s: KernelState) {
    && Shape(s) && s.current.Some?
    && (forall t :: 0 <= t < |s.threads| ==> s.threads[t].state == if s.current == Some(t) then Running else Ready)
    && (forall t :: 0 <= t < |s.threads| && s.threads[t].state == Ready ==> Synced(s.threads[t]))
    && (forall e :: 0 <= e < |s.endpoints| ==> s.endpoints[e] == CLEAR_ENDPOINT)
    && (forall c :: 0 <= c < |s.channels| ==> s.channels[c] == None)
    && s.nextHandle > 0 && (forall h: u64 :: ObjectExists(s, h) ==> 0 < h < s.nextHandle) && DistinctObjects(s)
  }

  /** Processes, threads and memory objects have different handles. */
  ghost predicate DistinctObjects(s: KernelState) {
    && (forall p, q :: 0 <= p < q < |s.processes| ==> s.processes[p].handle != s.processes[q].handle)
    && (forall t, u :: 0 <= t < u < |s.threads| ==> s.threads[t].handle != s.threads[u].handle)
    && (forall p, t :: 0 <= p < |s.processes| && 0 <= t < |s.threads| ==> s.processes[p].handle != s.threads[t].handle)
    && (forall p :: 0 <= p < |s.processes| ==> s.processes[p].handle !in s.otherHandles)
    && (forall t :: 0 <= t < |s.threads| ==> s.threads[t].handle !in s.otherHandles)
  }

  /** The resume record is the one a system call return needs. */
  predicate Synced(t: ThreadRecord) {
    t == SyncResume(t)
  }

  lemma BootShape(configurations: seq<Configuration>, current: Option<nat>, limits: Limits, memory: seq<u8>)
    requires |configurations| < 0x1_0000_0000 && SlotInRange(current, |configurations|)
    requires forall i :: 0 <= i < |configurations| ==> InMemory(configurations[i].mappings, |memory|)
    ensures Shape(BootState(configurations, current, limits, memory))
  {
    hide InMemory;
  }

  lemma BootHandles(configurations: seq<Configuration>, current: Option<nat>, limits: Limits, memory: seq<u8>)
    requires |configurations| < 0x1_0000_0000
    ensures var s := BootState(configurations, current, limits, memory);
            DistinctObjects(s) && forall h: u64 :: ObjectExists(s, h) ==> 0 < h < s.nextHandle
  {
    var s := BootState(configurations, current, limits, memory);
    assert forall p :: 0 <= p < |s.processes| ==> s.processes[p].handle == 2 * p + 1;
    assert forall t :: 0 <= t < |s.threads| ==> s.threads[t].handle == 2 * t + 2;
    hide BootProcess, BootThread;
  }

  lemma BootSynced(c: Configuration, index: u32, state: ThreadState)
    ensures Synced(BootThread(c, index, state)) && BootThread(c, index, state).state == state
  {
  }

  /** Every boot that does not panic starts a run. */
  lemma BootStateIsBooted(configurations: seq<Configuration>, initial: nat, limits: Limits, memory: seq<u8>)
    requires Bootable(configurations, initial, limits)
    requires forall i :: 0 <= i < |configurations| ==> InMemory(configurations[i].mappings, |memory|)
    ensures Booted(BootState(configurations, Some(initial), limits, memory))
  {
    hide InMemory, Shape, DistinctObjects, ObjectExists, Synced, BootThread;
    BootShape(configurations, Some(initial), limits, memory);
    BootHandles(configurations, Some(initial), limits, memory);
    var s := BootState(configurations, Some(initial), limits, memory);
    forall t | 0 <= t < |s.threads|
      ensures Synced(s.threads[t]) && s.threads[t].state == if t == initial then Running else Ready
    {
      BootSynced(configurations[t], t, if t == initial then Running else Ready);
    }
  }

  /** Each configuration becomes one process and one thread of it, with the next two handles. The frame from which a trap
      first loads the thread has the configuration's instruction pointer, stack pointer and flags, and zeros elsewhere. */
  lemma BootRunsConfigurations(configurations: seq<Configuration>, initial: nat, limits: Limits, memory: seq<u8>, k: nat)
    requires Bootable(configurations, initial, limits) && k < |configurations|
    ensures var s, c := BootState(configurations, Some(initial), limits, memory), configurations[k].context;
            && |s.processes| == |s.threads| == |configurations| && s.current == Some(initial) && s.memory == memory
            && s.processes[k].mappings == configurations[k].mappings && s.processes[k].handle == 2 * k + 1
            && s.threads[k].process == k && s.threads[k].handle == 2 * k + 2
            && |s.threads[k].registers| == REGISTER_COUNT
            && var f := LoadFrame(s.threads[k]);
               && f.rcx == c.instructionPointer && f.rsp == c.stackPointer && f.r11 == c.flags && f.rax == 0
               && f.rdi == f.rsi == f.rdx == f.rbx == f.rbp == f.r8 == f.r9 == f.r10 == 0
               && f.r12 == f.r13 == f.r14 == f.r15 == 0
               && forall q :: 0 <= q < |f.xmm| ==> f.xmm[q] == 0
  {
    hide Bootable;
  }
}
