/**
 Control flow, stack and system handlers, prefix decoding, dispatch and the budget loop of the emulator
 (emulator/x64/x64_control_flow_instructions.cpp, x64_stack_instructions.cpp, x64_system_instructions.cpp,
 x64_decoder.cpp, x64_instruction_dispatch.cpp, x64_interpreter.cpp).
 */
module X64Interpreter {
  import opened Words
  import opened X64Machine
  import opened X64Instructions
  import opened X64Context
  import X64Alu
  import X64DataMovement
  import X64Simd

  // ----- Control flow -----

  method ExecuteReturn(c: ExecutionContext, i: Instruction) returns (outcome: Outcome)
    requires c.Valid()
    modifies c, c.registers
    ensures Step(c.State(), outcome) == Return(old(c.State()), i)
  {
    hide Readable, Word;
    var rejected := RejectRexW(c, i);
    if rejected {
      return StopRunning;
    }
    var ok, returnAddress := c.PopU64();
    if !ok {
      outcome := FailInvalidMemory(c);
      return;
    }
    c.PutIp(returnAddress);
    return ContinueRunning;
  }

  /** push_u64 and, if it succeeds, a jump. */
  method PushAndJump(c: ExecutionContext, value: u64, target: u64) returns (outcome: Outcome)
    requires c.Valid()
    modifies c, c.registers, c.memory
    ensures Step(c.State(), outcome) == PushThenGo(old(c.State()), value, target)
  {
    PushFailureIsReported(c.State(), value);
    hide Push;
    var pushed := c.PushU64(value);
    if !pushed {
      outcome := FailInvalidMemory(c);
      return;
    }
    c.PutIp(target);
    return ContinueRunning;
  }

  lemma PushFailureIsReported(m: Machine, value: u64)
    ensures Push(m, value).outcome == StopRunning ==> Push(m, value).machine.report.completion == InvalidMemoryAccess
  {
  }

  method ExecuteCallRelative(c: ExecutionContext, i: Instruction) returns (outcome: Outcome)
    requires c.Valid()
    modifies c, c.registers, c.memory
    ensures Step(c.State(), outcome) == CallRelative(old(c.State()), i)
  {
    hide Readable, Word, PushThenGo, SignExtend32;
    var rejected := RejectRexW(c, i);
    if rejected {
      return StopRunning;
    }
    var ok, displacement := c.ReadI32(i.next);
    if !ok {
      outcome := FailInvalidMemory(c);
      return;
    }
    var returnAddress: int := Wrap64(i.next + 4);
    outcome := PushAndJump(c, returnAddress, Wrap64(returnAddress + displacement));
  }

  method ExecuteGroupFF(c: ExecutionContext, i: Instruction) returns (outcome: Outcome)
    requires c.Valid()
    modifies c, c.registers, c.memory
    ensures Step(c.State(), outcome) == GroupFF(old(c.State()), i)
  {
    hide Word, PushThenGo, SignExtend32, SteppedByOne, Readable;
    var ok, modrm := c.ReadU8(i.next);
    if !ok {
      outcome := FailInvalidMemory(c);
      return;
    }
    var mod, operation, rm := Mod(modrm), RegBits(modrm), RmBits(modrm);
    var rmIndex := Rm(i, modrm);
    if operation == 0 || operation == 1 {
      if mod != 3 {
        c.SetUnsupportedInstruction(i.opcode);
        return StopRunning;
      }
      StepByOne(c, rmIndex, operation == 1, i.rexW);
      c.PutIp(Wrap64(i.next + 1));
      return ContinueRunning;
    }
    if operation != 2 {
      c.SetUnsupportedInstruction(i.opcode);
      return StopRunning;
    }
    if mod == 3 {
      outcome := PushAndJump(c, Wrap64(i.next + 1), c.registers[rmIndex]);
      return;
    }
    if mod == 0 && rm == 5 && !i.rexB {
      var displacement, target;
      ok, displacement := c.ReadI32(Wrap64(i.next + 1));
      if !ok {
        outcome := FailInvalidMemory(c);
        return;
      }
      ok, target := c.ReadU64(Wrap64(i.next + 5 + displacement));
      if !ok {
        outcome := FailInvalidMemory(c);
        return;
      }
      outcome := PushAndJump(c, Wrap64(i.next + 5), target);
      return;
    }
    c.SetUnsupportedInstruction(i.opcode);
    return StopRunning;
  }

  /** INC or DEC of a register. */
  method StepByOne(c: ExecutionContext, r: Index, decrement: bool, wide: bool)
    requires c.Valid()
    modifies c`flags, c.registers
    ensures c.State() == old(c.State()).(guest := SteppedByOne(old(c.State()).guest, r, decrement, wide))
  {
    hide IncDecFlags;
    if wide {
      var lhs: int := c.registers[r];
      var result := Wrap64(if decrement then lhs - 1 else lhs + 1);
      c.PutRegister64(r, result);
      c.SetIncDecFlags(lhs, result, decrement, true);
    } else {
      var lhs: int := Low32(c.registers[r]);
      var result := Wrap32(if decrement then lhs - 1 else lhs + 1);
      c.PutRegister64(r, result);
      c.SetIncDecFlags(lhs, result, decrement, false);
    }
  }

  method ExecuteJumpRelativeNear(c: ExecutionContext, i: Instruction) returns (outcome: Outcome)
    requires c.Valid()
    modifies c
    ensures Step(c.State(), outcome) == JumpNear(old(c.State()), i)
  {
    hide Readable, Word, SignExtend32;
    var rejected := RejectRexW(c, i);
    if rejected {
      return StopRunning;
    }
    var ok, displacement := c.ReadI32(i.next);
    if !ok {
      outcome := FailInvalidMemory(c);
      return;
    }
    c.PutIp(Wrap64(i.next + 4 + displacement));
    return ContinueRunning;
  }

  method ExecuteJumpRelativeShort(c: ExecutionContext, i: Instruction) returns (outcome: Outcome)
    requires c.Valid()
    modifies c
    ensures Step(c.State(), outcome) == JumpShort(old(c.State()), i)
  {
    hide SignExtend8;
    var rejected := RejectRexW(c, i);
    if rejected {
      return StopRunning;
    }
    var ok, displacement := c.ReadI8(i.next);
    if !ok {
      outcome := FailInvalidMemory(c);
      return;
    }
    c.PutIp(Wrap64(i.next + 1 + displacement));
    return ContinueRunning;
  }

  method ExecuteJumpShortCondition(c: ExecutionContext, i: Instruction) returns (outcome: Outcome)
    requires c.Valid()
    modifies c
    ensures Step(c.State(), outcome) == JumpShortCondition(old(c.State()), i)
  {
    hide SignExtend8, Has;
    var rejected := RejectRexW(c, i);
    if rejected {
      return StopRunning;
    }
    var ok, displacement := c.ReadI8(i.next);
    if !ok {
      outcome := FailInvalidMemory(c);
      return;
    }
    var zero := Has(c.flags, ZERO);
    var take := if i.opcode == 0x74 then zero else !zero;
    c.PutIp(if take then Wrap64(i.next + 1 + displacement) else Wrap64(i.next + 1));
    return ContinueRunning;
  }

  method ExecuteJumpNearCondition(c: ExecutionContext, i: Instruction) returns (outcome: Outcome)
    requires c.Valid()
    modifies c
    ensures Step(c.State(), outcome) == JumpNearCondition(old(c.State()), i)
  {
    hide Readable, Word, SignExtend32, Has;
    var displacement: int := 0;
    var ok, secondary := c.ReadU8(i.next);
    if ok {
      ok, displacement := c.ReadI32(Wrap64(i.next + 1));
    }
    if !ok {
      outcome := FailInvalidMemory(c);
      return;
    }
    var zero := Has(c.flags, ZERO);
    var take := if secondary == 0x84 then zero else !zero;
    c.PutIp(if take then Wrap64(i.next + 5 + displacement) else Wrap64(i.next + 5));
    return ContinueRunning;
  }

  // ----- Stack -----

  method ExecutePushRegister(c: ExecutionContext, i: Instruction) returns (outcome: Outcome)
    requires c.Valid() && 0x50 <= i.opcode <= 0x57
    modifies c, c.registers, c.memory
    ensures Step(c.State(), outcome) == PushRegister(old(c.State()), i)
  {
    hide PushThenGo;
    var rejected := RejectRexW(c, i);
    if rejected {
      return StopRunning;
    }
    outcome := PushAndJump(c, c.registers[Field(i.opcode - 0x50, i.rexB)], i.next);
  }

  method ExecutePopRegister(c: ExecutionContext, i: Instruction) returns (outcome: Outcome)
    requires c.Valid() && 0x58 <= i.opcode <= 0x5F
    modifies c, c.registers
    ensures Step(c.State(), outcome) == PopRegister(old(c.State()), i)
  {
    hide Readable, Word;
    var rejected := RejectRexW(c, i);
    if rejected {
      return StopRunning;
    }
    var ok, value := c.PopU64();
    if !ok {
      outcome := FailInvalidMemory(c);
      return;
    }
    c.PutRegister64(Field(i.opcode - 0x58, i.rexB), value);
    c.PutIp(i.next);
    return ContinueRunning;
  }

  // ----- System -----

  /** Where the bytes of a memory operand end. */
  lemma OperandEnd(g: Guest, i: Instruction, mod: int, base: int, d: u64, index: nat, sib: bool)
    requires 0 <= base < 8 && 0 <= mod < 3
    ensures var op := WithDisplacement(g, i, mod, base, d, index, sib);
            if mod == 1 then
              if Readable(g, d, 1) then !op.Unreadable? && op.next == Plus(d, 1) else op == Unreadable(d)
            else if mod == 2 || (base == 5 && !i.rexB) then
              if Readable(g, d, 4) then !op.Unreadable? && op.next == Plus(d, 4) else op == Unreadable(d)
            else !op.Unreadable? && op.next == d
  {
    DisplacementCases(g, i, mod, base, d, index, sib);
    hide WithDisplacement, Readable, Word, SignExtend8, SignExtend32, Plus;
  }

  /** try_skip_modrm_operand: the fourth decoder keeps only the length. It declines a ModRM byte whose reg field is not
      0, and otherwise agrees with the address decoders on success and on where the next bytes start. */
  method TrySkipModrmOperand(c: ExecutionContext, i: Instruction, a: u64) returns (ok: bool, next: u64)
    requires c.Valid()
    modifies c`report
    ensures var m := old(c.State());
            var op := DecodeOperand(m.guest, i, a);
            if ok then
              && c.State() == m && Readable(m.guest, a, 1) && RegBits(m.guest.memory[a - c.base]) == 0
              && !op.Unreadable? && next == op.next
            else if Readable(m.guest, a, 1) && RegBits(m.guest.memory[a - c.base]) != 0 then c.State() == m
            else op.Unreadable? && c.State() == Faulted(m, op.fault)
  {
    ghost var g := c.State().guest;
    next := 0;
    var modrm;
    ok, modrm := c.ReadU8(a);
    if !ok {
      return;
    }
    var mod, rm := Mod(modrm), RmBits(modrm);
    if RegBits(modrm) != 0 {
      return false, 0;
    }
    var at := Plus(a, 1);
    if mod == 3 {
      return true, at;
    }
    var base := rm;
    FiveOn(a);
    if rm == 4 {
      var sib;
      ok, sib := c.ReadU8(at);
      if !ok {
        return;
      }
      at := Plus(at, 1);
      base := sib % 8;
      assert DecodeOperand(g, i, a) == WithDisplacement(g, i, mod, base, at, IndexValue(g, i, sib), true);
      OperandEnd(g, i, mod, base, at, IndexValue(g, i, sib), true);
    } else {
      assert DecodeOperand(g, i, a) == WithDisplacement(g, i, mod, base, at, 0, false);
      OperandEnd(g, i, mod, base, at, 0, false);
    }
    hide DecodeOperand, WithDisplacement, IndexValue, Word, SignExtend8, SignExtend32, Plus, Readable;
    if mod == 0 && base == 5 && !i.rexB {
      var displacement;
      ok, displacement := c.ReadU32(at);
      if !ok {
        return;
      }
      at := Plus(at, 4);
    }
    if mod == 1 {
      var displacement;
      ok, displacement := c.ReadU8(at);
      if !ok {
        return;
      }
      at := Plus(at, 1);
    } else if mod == 2 {
      var displacement;
      ok, displacement := c.ReadU32(at);
      if !ok {
        return;
      }
      at := Plus(at, 4);
    }
    return true, at;
  }

  method ExecuteSecondaryNop(c: ExecutionContext, i: Instruction) returns (outcome: Outcome)
    requires c.Valid()
    modifies c
    ensures Step(c.State(), outcome) == LongNop(old(c.State()), i)
  {
    UnreadableModrm(c.State().guest, i, Wrap64(i.next + 1));
    hide DecodeOperand;
    var ok, next := TrySkipModrmOperand(c, i, Wrap64(i.next + 1));
    if !ok {
      c.SetUnsupportedInstruction(0x1F);
      return StopRunning;
    }
    c.PutIp(next);
    return ContinueRunning;
  }

  lemma UnreadableModrm(g: Guest, i: Instruction, a: u64)
    ensures !Readable(g, a, 1) ==> DecodeOperand(g, i, a) == Unreadable(a)
  {
  }

  method ExecuteUnsupported(c: ExecutionContext, i: Instruction) returns (outcome: Outcome)
    requires c.Valid()
    modifies c
    ensures Step(c.State(), outcome) == Reject(old(c.State()), i.opcode)
  {
    c.SetUnsupportedInstruction(i.opcode);
    return StopRunning;
  }

  method ExecuteSyscall(c: ExecutionContext, i: Instruction) returns (outcome: Outcome)
    requires c.Valid()
    modifies c, c.registers
    ensures Step(c.State(), outcome) == Syscall(old(c.State()), i, c.callback)
  {
    c.PutIp(Wrap64(i.next + 1));
    c.calls := c.calls + [c.CurrentGuest()];
    var result := c.callback(c.calls);
    c.PutRegister64(RAX, SignExtend(result.status));
    match result.action {
      case ExitGuest =>
        c.SetThreadExited();
        return RetireAndStop;
      case YieldGuest =>
        c.SetYielded();
        return RetireAndStop;
      case ContinueGuest =>
        return ContinueRunning;
    }
  }

  // ----- Decoding and dispatch -----

  /** decode_x64_instruction. The prefix loop ends for every memory: addresses only grow, and the wrap to 0 is never
      readable after the last address of the 64-bit space was. */
  method DecodeInstruction(c: ExecutionContext) returns (ok: bool, i: Instruction)
    requires c.Valid()
    modifies c`report
    ensures var m := old(c.State());
            match Decode(m.guest)
            case Decoded(d) => ok && i == d && c.State() == m
            case Undecodable(a) => !ok && c.State() == InvalidAccess(m, a, 0)
  {
    hide WithPrefix, DecodeFrom, Plus, IsPrefix;
    ghost var m := c.State();
    i := Instruction(c.ip, 0, c.ip, false, false, false, false, false, false, false);
    var at, opcode := c.ip, 0;
    ok, opcode := c.ReadU8(at);
    if !ok {
      c.SetInvalidMemoryAccess(at, 0);
      return;
    }
    while IsPrefix(opcode)
      invariant c.State() == m && ReadByte(m.guest, at) == Some(opcode)
      invariant Decode(m.guest) == DecodeFrom(m.guest, i, at)
      decreases TWO_64 - at
    {
      PrefixStep(m.guest, i, at);
      i := TakePrefix(i, opcode);
      at := Plus(at, 1);
      ok, opcode := c.ReadU8(at);
      if !ok {
        c.SetInvalidMemoryAccess(at, 0);
        return;
      }
    }
    PrefixesEnd(m.guest, i, at);
    i := i.(opcode := opcode, next := Plus(at, 1));
  }

  lemma PrefixesEnd(g: Guest, i: Instruction, at: u64)
    requires Readable(g, at, 1) && !IsPrefix(g.memory[at - g.base])
    ensures DecodeFrom(g, i, at) == Decoded(i.(opcode := g.memory[at - g.base], next := Plus(at, 1)))
  {
  }

  lemma PrefixStep(g: Guest, i: Instruction, at: u64)
    requires Readable(g, at, 1) && IsPrefix(g.memory[at - g.base])
    ensures var after := Plus(at, 1);
            && DecodeFrom(g, i, at) == (if Readable(g, after, 1)
                                        then DecodeFrom(g, WithPrefix(i, g.memory[at - g.base]), after)
                                        else Undecodable(after))
            && (Readable(g, after, 1) ==> at < after)
  {
    PlusIs(at, 1);
    hide WithPrefix;
  }

  method TakePrefix(i: Instruction, opcode: u8) returns (r: Instruction)
    requires IsPrefix(opcode)
    ensures r == WithPrefix(i, opcode)
  {
    r := i;
    if opcode == 0x66 {
      r := r.(prefix66 := true);
    } else if opcode == 0xF2 {
      r := r.(prefixF2 := true);
    } else if opcode == 0xF3 {
      r := r.(prefixF3 := true);
    } else if opcode == 0x2E {
    } else {
      r := r.(rexW := opcode / 8 % 2 == 1);
      r := r.(rexR := opcode / 4 % 2 == 1);
      r := r.(rexX := opcode / 2 % 2 == 1);
      r := r.(rexB := opcode % 2 == 1);
    }
  }

  method DispatchSecondaryOpcode(c: ExecutionContext, i: Instruction) returns (outcome: Outcome)
    requires c.Valid()
    modifies c, c.registers, c.vectors, c.memory
    ensures Step(c.State(), outcome) == DispatchSecondary(old(c.State()), i, c.callback)
  {
    hide Readable, SecondaryHandler;
    if i.rexW {
      c.SetUnsupportedInstruction(i.opcode);
      return StopRunning;
    }
    var ok, secondary := c.ReadU8(i.next);
    if !ok {
      c.SetInvalidMemoryAccess(i.next, 0);
      return StopRunning;
    }
    c.SetFaultOpcode(secondary);
    outcome := HandleSecondary(c, secondary, i);
  }

  method HandleSecondary(c: ExecutionContext, secondary: u8, i: Instruction) returns (outcome: Outcome)
    requires c.Valid()
    modifies c, c.registers, c.vectors, c.memory
    ensures Step(c.State(), outcome) == SecondaryHandler(old(c.State()), secondary, i, c.callback)
  {
    hide MovVector, StoreVector, XorVector, UnpackBytes, MovDword, Shuffle, StoreLowQword, Syscall, LongNop, SetCondition,
      MovZeroExtendByte, JumpNearCondition, Reject;
    if secondary == 0x10 { outcome := X64Simd.ExecuteSecondaryMovXmm(c, i); }
    else if secondary in {0x11, 0x29, 0x7F} { outcome := X64Simd.ExecuteSecondaryStoreXmm(c, i); }
    else if secondary == 0x05 { outcome := ExecuteSyscall(c, i); }
    else if secondary == 0x84 || secondary == 0x85 { outcome := ExecuteJumpNearCondition(c, i); }
    else if secondary == 0x94 || secondary == 0x95 { outcome := X64DataMovement.ExecuteSecondarySetCondition(c, i); }
    else if secondary == 0xB6 { outcome := X64DataMovement.ExecuteSecondaryMovZeroExtendByte(c, i); }
    else if secondary == 0x57 { outcome := X64Simd.ExecuteSecondaryXorps(c, i); }
    else if secondary == 0x60 { outcome := X64Simd.ExecuteSecondaryPunpcklbw(c, i); }
    else if secondary == 0x6E { outcome := X64Simd.ExecuteSecondaryMovd(c, i); }
    else if secondary == 0x70 { outcome := X64Simd.ExecuteSecondaryShuffle(c, i); }
    else if secondary == 0xD6 { outcome := X64Simd.ExecuteSecondaryMovqStore(c, i); }
    else if secondary == 0x1F { outcome := ExecuteSecondaryNop(c, i); }
    else { outcome := ExecuteUnsupported(c, i); }
  }

  method HandlePrimary(c: ExecutionContext, i: Instruction) returns (outcome: Outcome)
    requires c.Valid()
    modifies c, c.registers, c.vectors, c.memory
    ensures Step(c.State(), outcome) == DispatchPrimary(old(c.State()), i)
  {
    hide XorRegister, OrRegisterByte, OrRm, TestRegister, TestAccumulator, GroupF6, CompareRm, Group80, GroupF7,
      GroupImmediate, MovRegister, MovImmediate32, MovImmediateToRm, Lea, CallRelative, GroupFF, PushRegister, Return, Nop,
      JumpNear, JumpShort, JumpShortCondition, PopRegister, Reject;
    if i.opcode == 0x80 { outcome := X64DataMovement.ExecuteGroup80(c, i); }
    else if i.opcode == 0x81 { outcome := X64Alu.ExecuteGroup81(c, i); }
    else if i.opcode == 0x08 { outcome := X64Alu.ExecuteOrRegisterByte(c, i); }
    else if i.opcode == 0x0B { outcome := X64Alu.ExecuteOrRm(c, i); }
    else if i.opcode == 0x89 || i.opcode == 0x8B { outcome := X64DataMovement.ExecuteMovRegister(c, i); }
    else if i.opcode == 0x39 { outcome := X64Alu.ExecuteCompareRmWithRegister(c, i); }
    else if i.opcode == 0x31 { outcome := X64Alu.ExecuteXorRegister(c, i); }
    else if i.opcode == 0x85 { outcome := X64Alu.ExecuteTestRegister(c, i); }
    else if i.opcode == 0xA9 { outcome := X64Alu.ExecuteTestAccumulator(c, i); }
    else if i.opcode == 0x83 { outcome := X64Alu.ExecuteGroup83(c, i); }
    else if i.opcode == 0x8D { outcome := X64DataMovement.ExecuteLea(c, i); }
    else if i.opcode == 0x90 { outcome := X64DataMovement.ExecuteNop(c, i); }
    else if i.opcode == 0xC7 { outcome := X64DataMovement.ExecuteMovImmediateToRm(c, i); }
    else if i.opcode == 0xF6 { outcome := X64Alu.ExecuteGroupF6(c, i); }
    else if i.opcode == 0xF7 { outcome := X64Alu.ExecuteGroupF7(c, i); }
    else if i.opcode == 0xC3 { outcome := ExecuteReturn(c, i); }
    else if i.opcode == 0xE8 { outcome := ExecuteCallRelative(c, i); }
    else if i.opcode == 0xE9 { outcome := ExecuteJumpRelativeNear(c, i); }
    else if i.opcode == 0xEB { outcome := ExecuteJumpRelativeShort(c, i); }
    else if i.opcode == 0x74 || i.opcode == 0x75 { outcome := ExecuteJumpShortCondition(c, i); }
    else if i.opcode == 0xFF { outcome := ExecuteGroupFF(c, i); }
    else if 0x50 <= i.opcode <= 0x57 { outcome := ExecutePushRegister(c, i); }
    else if 0x58 <= i.opcode <= 0x5F { outcome := ExecutePopRegister(c, i); }
    else if 0xB8 <= i.opcode <= 0xBF { outcome := X64DataMovement.ExecuteMovImmediate32(c, i); }
    else { outcome := ExecuteUnsupported(c, i); }
  }

  method DispatchInstruction(c: ExecutionContext, i: Instruction) returns (outcome: Outcome)
    requires c.Valid()
    modifies c, c.registers, c.vectors, c.memory
    ensures Step(c.State(), outcome) == Dispatch(old(c.State()), i, c.callback)
  {
    hide DispatchPrimary, DispatchSecondary;
    c.SetFault(i);
    if i.opcode == 0x0F {
      outcome := DispatchSecondaryOpcode(c, i);
    } else {
      outcome := HandlePrimary(c, i);
    }
  }

  // ----- The run loop -----

  /** x64_interpreter::run. The handler and the memory may be missing, and the budget may be zero. */
  method RunInterpreter(c: ExecutionContext, hasHandler: bool, hasMemory: bool, budget: u64) returns (retired: u64)
    requires c.Valid()
    modifies c, c.registers, c.vectors, c.memory
    ensures RunResult(c.State(), retired)
         == if hasHandler && hasMemory then Run(old(c.State()).guest, old(c.State()).calls, c.callback, budget)
            else RunResult(BackendFailed(Initialized(old(c.State()).guest, old(c.State()).calls), FailureInvalidArgument), 0)
  {
    hide Decode, Dispatch, Initialized, BackendFailed;
    retired := 0;
    c.InitializeResult();
    if !hasHandler || !hasMemory || budget == 0 {
      c.SetBackendFailure(FailureInvalidArgument);
      return;
    }
    ghost var whole := Loop(Executor(c.callback), c.State(), budget, 0);
    while retired < budget
      invariant retired <= budget
      invariant Loop(Executor(c.callback), c.State(), budget - retired, retired) == whole
    {
      var ok, i := DecodeInstruction(c);
      if !ok {
        return;
      }
      var outcome := DispatchInstruction(c, i);
      if outcome == ContinueRunning || outcome == RetireAndStop {
        retired := retired + 1;
      }
      if outcome != ContinueRunning {
        return;
      }
    }
    c.SetBackendFailure(FailureLimitReached);
  }
}
