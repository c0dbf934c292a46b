/** What holds of every guest program: precise faults, consistent reports, budgets that add up. */
module X64Properties {
  import opened Words
  import opened X64Machine
  import opened X64Instructions

  // ----- One instruction -----

  /** The guest is as before, but for a stack pointer that a failed push has already moved. */
  ghost predicate Untouched(g: Guest, g': Guest, pushes: bool) {
    g' == g || (pushes && g' == SetRegister(g, RSP, StackAt(g, -8)))
  }

  /** The instructions that push: 50 to 57, E8, and FF with reg field 2. */
  predicate Pushes(g: Guest, i: Instruction) {
    || 0x50 <= i.opcode <= 0x57 || i.opcode == 0xE8
    || (i.opcode == 0xFF && Readable(g, i.next, 1) && RegBits(g.memory[i.next - g.base]) == 2)
  }

  predicate Reserved(g: Guest) {
    Reserves(g.flags)
  }

  /** Completion, guest stop reason and backend failure tell the same story. */
  predicate Consistent(r: Report) {
    match r.completion
    case ThreadExited => r.stop == StopExited && r.failure == NoFailure
    case Yielded => r.stop == StopYielded && r.failure == NoFailure
    case LimitReached => r.stop == NoStop && r.failure == FailureLimitReached
    case InvalidMemoryAccess => r.stop == StopInvalidMemoryAccess && r.failure == NoFailure
    case UnsupportedInstruction => r.stop == StopUnsupportedInstruction && r.failure == NoFailure
    case InvalidArgument => r.stop == NoStop && r.failure == FailureInvalidArgument
    case UnsupportedEngine => r.stop == NoStop && r.failure == FailureUnsupportedEngine
  }

  /** What an instruction may do to the report: nothing about the completion if it goes on, a guest fault if it stops,
      an exit or a yield if it retires and stops. */
  predicate ReportStep(r: Report, s: Step) {
    var r' := s.machine.report;
    match s.outcome
    case ContinueRunning => r'.completion == r.completion && r'.stop == r.stop && r'.failure == r.failure
    case StopRunning => Consistent(r') && r'.completion in {InvalidMemoryAccess, UnsupportedInstruction}
    case RetireAndStop => Consistent(r') && r'.completion in {ThreadExited, Yielded}
  }

  /** What every instruction does: it reports as above, keeps the reserved flag, and if it stops it has not touched the
      guest. */
  ghost predicate Behaves(m: Machine, s: Step, pushes: bool) {
    && ReportStep(m.report, s)
    && (Reserved(m.guest) ==> Reserved(s.machine.guest))
    && (s.outcome == StopRunning ==> Untouched(m.guest, s.machine.guest, pushes))
  }

  lemma LogicBehaves(m: Machine, i: Instruction)
    ensures Behaves(m, XorRegister(m, i), false) && Behaves(m, OrRegisterByte(m, i), false)
    ensures Behaves(m, OrRm(m, i), false) && Behaves(m, TestRegister(m, i), false)
  {
    hide DecodeOperand, RmValue, LogicFlags, And64, Or64, Or8, Xor32;
  }

  lemma ComparesBehave(m: Machine, i: Instruction)
    ensures Behaves(m, TestAccumulator(m, i), false) && Behaves(m, GroupF6(m, i), false)
    ensures Behaves(m, CompareRm(m, i), false) && Behaves(m, Group80(m, i), false)
  {
    hide DecodeOperand, RmValue, RmByte, CompareFlags, LogicFlags, Word, And64, And8;
  }

  lemma ArithmeticBehaves(m: Machine, i: Instruction)
    ensures Behaves(m, GroupF7(m, i), false)
    ensures Behaves(m, GroupImmediate(m, i, 1), false) && Behaves(m, GroupImmediate(m, i, 4), false)
  {
    hide DecodeOperand, RmValue, StoreRm, CompareFlags, AddFlags, Word, LittleEndian, Displacement, Overwrite;
  }

  lemma MovesBehave(m: Machine, i: Instruction)
    ensures i.opcode in {0x89, 0x8B} ==> Behaves(m, MovRegister(m, i), false)
    ensures 0xB8 <= i.opcode <= 0xBF ==> Behaves(m, MovImmediate32(m, i), false)
    ensures Behaves(m, MovImmediateToRm(m, i), false) && Behaves(m, Lea(m, i), false)
  {
    hide DecodeOperand, RmValue, StoreRm, Word, LittleEndian, Overwrite;
  }

  lemma PushBehaves(m: Machine, value: u64, ip: u64)
    ensures Behaves(m, PushThenGo(m, value, ip), true)
  {
    hide LittleEndian, Overwrite;
  }

  lemma CallsBehave(m: Machine, i: Instruction)
    ensures Behaves(m, CallRelative(m, i), true)
    ensures 0x50 <= i.opcode <= 0x57 ==> Behaves(m, PushRegister(m, i), true)
  {
    forall value, ip ensures Behaves(m, PushThenGo(m, value, ip), true) {
      PushBehaves(m, value, ip);
    }
    hide Word, PushThenGo;
  }

  lemma GroupFFBehaves(m: Machine, i: Instruction)
    ensures i.opcode == 0xFF ==> Behaves(m, GroupFF(m, i), Pushes(m.guest, i))
  {
    forall value, ip ensures Behaves(m, PushThenGo(m, value, ip), true) {
      PushBehaves(m, value, ip);
    }
    hide SteppedByOne, Word, PushThenGo, DecodeOperand;
  }

  lemma JumpsBehave(m: Machine, i: Instruction)
    ensures Behaves(m, Return(m, i), false) && Behaves(m, Nop(m, i), false)
    ensures Behaves(m, JumpNear(m, i), false) && Behaves(m, JumpShort(m, i), false)
    ensures Behaves(m, JumpShortCondition(m, i), false) && Behaves(m, JumpNearCondition(m, i), false)
    ensures 0x58 <= i.opcode <= 0x5F ==> Behaves(m, PopRegister(m, i), false)
  {
    hide Word, Has;
  }

  lemma PrimaryBehaves(m: Machine, i: Instruction)
    ensures Behaves(m, DispatchPrimary(m, i), Pushes(m.guest, i))
  {
    hide XorRegister, OrRegisterByte, OrRm, TestRegister, TestAccumulator, GroupF6, CompareRm, Group80, GroupF7,
      GroupImmediate, MovRegister, MovImmediate32, MovImmediateToRm, Lea, CallRelative, GroupFF, PushRegister, Return, Nop,
      JumpNear, JumpShort, JumpShortCondition, PopRegister, Behaves, Reject;
    LogicBehaves(m, i);
    ComparesBehave(m, i);
    ArithmeticBehaves(m, i);
    MovesBehave(m, i);
    CallsBehave(m, i);
    GroupFFBehaves(m, i);
    JumpsBehave(m, i);
    RejectBehaves(m, i.opcode);
  }

  lemma RejectBehaves(m: Machine, opcode: u8)
    ensures Behaves(m, Reject(m, opcode), false)
  {
  }

  /** Behaves looks at the guest and the completion part of the report only. */
  lemma BehavesFrom(m: Machine, m': Machine, s: Step)
    requires Behaves(m', s, false) && m'.guest == m.guest && m'.report.completion == m.report.completion
    requires m'.report.stop == m.report.stop && m'.report.failure == m.report.failure
    ensures Behaves(m, s, false)
  {
  }

  lemma VectorsBehave(m: Machine, i: Instruction)
    ensures Behaves(m, MovVector(m, i), false) && Behaves(m, StoreVector(m, i), false)
    ensures Behaves(m, XorVector(m, i), false) && Behaves(m, UnpackBytes(m, i), false)
    ensures Behaves(m, MovDword(m, i), false) && Behaves(m, Shuffle(m, i), false)
    ensures Behaves(m, StoreLowQword(m, i), false)
  {
    hide DecodeOperand, RmValue, RmVector, Word, LittleEndian, Interleaved, ShuffledDwords, ShuffledLowWords, XorVectors, Overwrite;
  }

  lemma SystemBehaves(m: Machine, i: Instruction, callback: Callback)
    ensures Behaves(m, Syscall(m, i, callback), false) && Behaves(m, LongNop(m, i), false)
    ensures Behaves(m, SetCondition(m, i), false) && Behaves(m, MovZeroExtendByte(m, i), false)
  {
    hide DecodeOperand, RmByte, Has;
  }

  lemma SecondaryHandlerBehaves(m: Machine, opcode: u8, i: Instruction, callback: Callback)
    ensures Behaves(m, SecondaryHandler(m, opcode, i, callback), false)
  {
    VectorsBehave(m, i);
    SystemBehaves(m, i, callback);
    JumpsBehave(m, i);
    RejectBehaves(m, i.opcode);
    hide MovVector, StoreVector, XorVector, UnpackBytes, MovDword, Shuffle, StoreLowQword, Syscall, LongNop, SetCondition,
      MovZeroExtendByte, JumpNearCondition, Behaves, Reject;
  }

  lemma SecondaryBehaves(m: Machine, i: Instruction, callback: Callback)
    ensures Behaves(m, DispatchSecondary(m, i, callback), false)
  {
    hide SecondaryHandler;
    if !i.rexW && Readable(m.guest, i.next, 1) {
      var opcode := m.guest.memory[i.next - m.guest.base];
      var m' := SetFaultOpcode(m, opcode);
      SecondaryHandlerBehaves(m', opcode, i, callback);
      BehavesFrom(m, m', SecondaryHandler(m', opcode, i, callback));
    }
  }

  lemma ExecuteBehaves(m: Machine, callback: Callback)
    ensures Behaves(m, Execute(m, callback),
                    Decode(m.guest).Decoded? && Pushes(m.guest, Decode(m.guest).instruction))
  {
    match Decode(m.guest)
    case Undecodable(_) =>
    case Decoded(i) =>
      PrimaryBehaves(SetFault(m, i), i);
      SecondaryBehaves(SetFault(m, i), i, callback);
      hide DispatchPrimary, DispatchSecondary, DecodeFrom;
  }

  /** An instruction that stops without retiring leaves memory, instruction pointer, flags, vectors and registers as
      they were, except RSP after a failed push, which is where it was or one word lower. */
  lemma FaultPrecision(m: Machine, callback: Callback)
    requires Execute(m, callback).outcome == StopRunning
    ensures var g, g' := m.guest, Execute(m, callback).machine.guest;
            && g'.memory == g.memory && g'.base == g.base && g'.ip == g.ip && g'.flags == g.flags
            && g'.vectors == g.vectors
            && (forall r: Index :: r != RSP ==> g'.registers[r] == g.registers[r])
            && (g'.registers[RSP] == g.registers[RSP]
                || (g'.registers[RSP] == StackAt(g, -8)
                    && Decode(g).Decoded? && Pushes(g, Decode(g).instruction)))
  {
    ExecuteBehaves(m, callback);
    hide Execute, Decode;
  }

  // ----- Whole runs -----

  /** The report a run starts from and goes on with while instructions retire. */
  predicate Going(r: Report) {
    r.completion == LimitReached && r.stop == NoStop && r.failure == FailureLimitReached
  }

  /** A step that reports as instructions do. */
  ghost predicate Reporting(step: Machine -> Step) {
    forall m: Machine {:trigger step(m)} :: ReportStep(m.report, step(m))
  }

  lemma ExecutorReports(callback: Callback)
    ensures Reporting(Executor(callback))
  {
    forall m: Machine ensures ReportStep(m.report, Executor(callback)(m)) {
      ExecuteBehaves(m, callback);
      hide Execute;
    }
  }

  /** The reports a run can end with. */
  predicate Final(r: Report, exhausted: bool) {
    && Consistent(r) && !r.completion.InvalidArgument? && !r.completion.UnsupportedEngine?
    && (r.completion == LimitReached <==> exhausted)
  }

  lemma {:induction false} LoopRetires(step: Machine -> Step, m: Machine, left: nat, retired: nat)
    ensures retired <= Loop(step, m, left, retired).retired <= retired + left
    decreases left
  {
    if left != 0 && step(m).outcome == ContinueRunning {
      LoopRetires(step, step(m).machine, left - 1, retired + 1);
    }
  }

  lemma {:induction false} LoopReports(step: Machine -> Step, m: Machine, left: nat, retired: nat)
    requires Going(m.report) && Reporting(step)
    ensures Final(Loop(step, m, left, retired).machine.report, Exhausts(step, m, left))
    decreases left
  {
    if left != 0 {
      var s := step(m);
      assert ReportStep(m.report, s);
      hide Reporting;
      if s.outcome == ContinueRunning {
        hide Final;
        LoopReports(step, s.machine, left - 1, retired + 1);
      }
    }
  }

  /** Every run terminates, retires at most its budget, and ends with a consistent report. */
  lemma RunIsConsistent(g: Guest, calls: seq<Guest>, callback: Callback, budget: nat)
    ensures var r := Run(g, calls, callback, budget);
            && r.retired <= budget && Consistent(r.machine.report)
            && (r.machine.report.completion == InvalidArgument <==> budget == 0)
            && (r.machine.report.completion == LimitReached ==> r.retired == budget)
  {
    if budget != 0 {
      ExecutorReports(callback);
      hide Executor, Reporting;
      LoopRetires(Executor(callback), Initialized(g, calls), budget, 0);
      LoopReports(Executor(callback), Initialized(g, calls), budget, 0);
      if Exhausts(Executor(callback), Initialized(g, calls), budget) {
        LoopSplits(Executor(callback), Initialized(g, calls), budget, 0, 0);
      }
    }
  }

  // ----- Budgets add up -----

  /** The next n instructions all go on. */
  predicate Exhausts(step: Machine -> Step, m: Machine, n: nat)
    decreases n
  {
    n == 0 || (step(m).outcome == ContinueRunning && Exhausts(step, step(m).machine, n - 1))
  }

  /** The machine after n instructions that go on. */
  function After(step: Machine -> Step, m: Machine, n: nat): Machine
    requires Exhausts(step, m, n)
    decreases n
  {
    if n == 0 then m else After(step, step(m).machine, n - 1)
  }

  lemma {:induction false} LoopSplits(step: Machine -> Step, m: Machine, n: nat, k: nat, retired: nat)
    requires Exhausts(step, m, n)
    ensures Loop(step, m, n + k, retired) == Loop(step, After(step, m, n), k, retired + n)
    ensures Loop(step, m, n, retired) == RunResult(BackendFailed(After(step, m, n), FailureLimitReached), retired + n)
    decreases n
  {
    if n != 0 {
      LoopSplits(step, step(m).machine, n - 1, k, retired + 1);
    }
  }

  /** A step that keeps the reserved flag and, going on, the report. */
  ghost predicate KeepsGoing(step: Machine -> Step) {
    forall m: Machine {:trigger step(m)} :: Reserved(m.guest) && Going(m.report) && step(m).outcome == ContinueRunning ==>
                           Reserved(step(m).machine.guest) && Going(step(m).machine.report)
  }

  lemma ExecutorKeepsGoing(callback: Callback)
    ensures KeepsGoing(Executor(callback))
  {
    forall m: Machine | Reserved(m.guest) && Going(m.report) && Executor(callback)(m).outcome == ContinueRunning
      ensures Reserved(Executor(callback)(m).machine.guest) && Going(Executor(callback)(m).machine.report)
    {
      ExecuteBehaves(m, callback);
      hide Execute;
    }
  }

  lemma {:induction false} AfterKeeps(step: Machine -> Step, m: Machine, n: nat)
    requires KeepsGoing(step) && Exhausts(step, m, n) && Reserved(m.guest) && Going(m.report)
    ensures var m' := After(step, m, n); Reserved(m'.guest) && Going(m'.report)
    decreases n
  {
    if n != 0 {
      AfterKeeps(step, step(m).machine, n - 1);
    }
  }

  lemma {:induction false} LoopCounts(step: Machine -> Step, m: Machine, left: nat, retired: nat, more: nat)
    ensures Loop(step, m, left, retired + more).machine == Loop(step, m, left, retired).machine
    ensures Loop(step, m, left, retired + more).retired == Loop(step, m, left, retired).retired + more
    decreases left
  {
    if left != 0 && step(m).outcome == ContinueRunning {
      assert retired + more + 1 == retired + 1 + more;
      LoopCounts(step, step(m).machine, left - 1, retired + 1, more);
    }
  }

  /** Equal but for the instruction pointer of the fault record. */
  predicate SameReport(r: Report, r': Report) {
    r' == r.(fault := r.fault.(ip := r'.fault.ip))
  }

  /** Where an instruction starts, only the completion part of the old report matters. */
  lemma FreshReport(m: Machine, m': Machine, callback: Callback)
    requires m'.guest == m.guest && m'.calls == m.calls && Going(m.report) && Going(m'.report)
    ensures var s, s' := Execute(m, callback), Execute(m', callback);
            && s'.outcome == s.outcome && s'.machine.guest == s.machine.guest && s'.machine.calls == s.machine.calls
            && SameReport(s.machine.report, s'.machine.report)
            && (s.outcome == ContinueRunning ==> s' == s)
  {
    match Decode(m.guest)
    case Undecodable(_) =>
      hide Dispatch;
    case Decoded(i) =>
      assert SetFault(m, i) == SetFault(m', i);
      hide DispatchPrimary, DispatchSecondary;
  }

  /** A run that exhausts budget n, resumed from its guest with budget k, does what one run with budget n + k does:
      the same guest, the same system calls, the same report but for the fault's instruction pointer, and the retired
      counts add up. */
  lemma BudgetSplitting(g: Guest, calls: seq<Guest>, callback: Callback, n: nat, k: nat)
    requires n > 0 && k > 0
    requires Run(g, calls, callback, n).machine.report.completion == LimitReached
    ensures var first := Run(g, calls, callback, n);
            var second := Run(first.machine.guest, first.machine.calls, callback, k);
            var whole := Run(g, calls, callback, n + k);
            && first.retired == n && whole.retired == n + second.retired
            && whole.machine.guest == second.machine.guest && whole.machine.calls == second.machine.calls
            && SameReport(whole.machine.report, second.machine.report)
  {
    hide Execute, Reporting, KeepsGoing;
    var start, step := Initialized(g, calls), Executor(callback);
    InitializedReserves(g, calls);
    ExecutorReports(callback);
    LoopReports(step, start, n, 0);
    LoopSplits(step, start, n, k, 0);
    ExecutorKeepsGoing(callback);
    AfterKeeps(step, start, n);
    var mid := After(step, start, n);
    InitializedReserves(mid.guest, mid.calls);
    var again := Initialized(mid.guest, mid.calls);
    FreshReport(mid, again, callback);
    var s := step(mid);
    if s.outcome == ContinueRunning {
      LoopCounts(step, s.machine, k - 1, 1, n);
    }
  }

  lemma ReservedIsSet(f: bv64)
    ensures (f | RESERVED) & RESERVED == RESERVED
    ensures f & RESERVED == RESERVED ==> f | RESERVED == f
  {
  }

  lemma InitializedReserves(g: Guest, calls: seq<Guest>)
    ensures Reserved(Initialized(g, calls).guest) && (Reserved(g) ==> Initialized(g, calls).guest == g)
  {
    ReservedIsSet(g.flags);
  }
}
