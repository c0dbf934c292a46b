/** ALU handlers (emulator/x64/x64_alu_instructions.cpp), with their own operand decoder. */
module X64Alu {
  import opened Words
  import opened X64Machine
  import opened X64Instructions
  import opened X64Context

  /** struct x64_decoded_rm_operand. */
  datatype RmOperand = RmOperand(operation: int, rmIndex: Index, rmIsRegister: bool, rmAddress: u64, next: u64)

  function OperandOf(operand: RmOperand): Operand {
    if operand.rmIsRegister then InRegister(operand.rmIndex, operand.next) else InMemory(operand.rmAddress, operand.next)
  }

  /** The decoder's answer for the ModRM byte at a, field by field. */
  predicate Answers(g: Guest, i: Instruction, a: u64, operand: RmOperand) {
    && Readable(g, a, 1)
    && operand.operation == RegBits(g.memory[a - g.base])
    && DecodeOperand(g, i, a) == OperandOf(operand)
  }

  method TryReadSibOperandAddress(c: ExecutionContext, i: Instruction, a: u64, mod: int)
    returns (ok: bool, address: u64, next: u64)
    requires c.Valid() && 0 <= mod < 3 && Readable(c.State().guest, a, 1)
    requires var modrm := c.State().guest.memory[a - c.base]; Mod(modrm) == mod && RmBits(modrm) == 4
    modifies c`report
    ensures var m := old(c.State());
            var op := DecodeOperand(m.guest, i, a);
            if ok then c.State() == m && op == InMemory(address, next)
            else op.Unreadable? && c.State() == Faulted(m, op.fault)
  {
    ghost var g := c.State().guest;
    address, next := 0, 0;
    var sib;
    ok, sib := c.ReadU8(Wrap64(a + 1));
    if !ok {
      return;
    }
    var indexField, baseField := sib / 8 % 8, sib % 8;
    var displacementAddress := Wrap64(a + 2);
    var scale := Scale(sib);
    var indexValue: int := 0;
    if indexField != 4 || i.rexX {
      indexValue := c.registers[Field(indexField, i.rexX)];
    }
    var scaled := indexValue * scale;
    assert scaled == IndexValue(g, i, sib);
    assert DecodeOperand(g, i, a) == WithDisplacement(g, i, mod, baseField, displacementAddress, scaled, true);
    DisplacementCases(g, i, mod, baseField, displacementAddress, scaled, true);
    hide DecodeOperand, WithDisplacement, IndexValue, Scale, Word, SignExtend8, SignExtend32, Plus;
    if mod == 0 {
      if baseField == 5 && !i.rexB {
        var displacement;
        ok, displacement := c.ReadI32(displacementAddress);
        if !ok {
          return;
        }
        next := Plus(displacementAddress, 4);
        address := Plus(0, scaled + displacement);
        return;
      }
      next := displacementAddress;
      address := Plus(c.registers[Field(baseField, i.rexB)], scaled);
      return;
    }
    var displacement: int;
    if mod == 1 {
      ok, displacement := c.ReadI8(displacementAddress);
      next := Plus(displacementAddress, 1);
    } else {
      ok, displacement := c.ReadI32(displacementAddress);
      next := Plus(displacementAddress, 4);
    }
    if !ok {
      return;
    }
    address := Plus(c.registers[Field(baseField, i.rexB)], scaled + displacement);
  }

  method TryDecodeRmOperand(c: ExecutionContext, i: Instruction, a: u64) returns (ok: bool, operand: RmOperand)
    requires c.Valid()
    modifies c`report
    ensures var m := old(c.State());
            var op := DecodeOperand(m.guest, i, a);
            if ok then c.State() == m && Answers(m.guest, i, a, operand)
            else op.Unreadable? && c.State() == Faulted(m, op.fault)
  {
    ghost var g := c.State().guest;
    hide DecodeOperand, WithDisplacement, Word, SignExtend8, SignExtend32;
    OperandCases(g, i, a);
    operand := RmOperand(0, 0, false, 0, 0);
    var modrm;
    ok, modrm := c.ReadU8(a);
    if !ok {
      return;
    }
    var mod, rm := Mod(modrm), RmBits(modrm);
    var rmIndex := Rm(i, modrm);
    operand := RmOperand(RegBits(modrm), rmIndex, mod == 3, 0, Plus(a, 1));
    if mod == 3 {
      return;
    }
    if rm == 4 {
      var address, next;
      ok, address, next := TryReadSibOperandAddress(c, i, a, mod);
      operand := operand.(rmAddress := address, next := next);
      return;
    }
    var displacementAddress := Plus(a, 1);
    DisplacementCases(g, i, mod, rm, displacementAddress, 0, false);
    FiveOn(a);
    hide Plus;
    if mod == 0 {
      if rm == 5 && !i.rexB {
        var displacement;
        ok, displacement := c.ReadI32(displacementAddress);
        if ok {
          operand := operand.(next := Plus(a, 5));
          operand := operand.(rmAddress := Plus(operand.next, displacement));
        }
        return;
      }
      operand := operand.(rmAddress := Plus(c.registers[rmIndex], 0));
      return;
    }
    var displacement;
    if mod == 1 {
      ok, displacement := c.ReadI8(displacementAddress);
      operand := operand.(next := Plus(a, 2));
    } else {
      ok, displacement := c.ReadI32(displacementAddress);
      operand := operand.(next := Plus(a, 5));
    }
    operand := operand.(rmAddress := Plus(c.registers[rmIndex], displacement));
  }

  /** The value of an operand, 64 or 32 bits wide. */
  method LoadRm(c: ExecutionContext, operand: RmOperand, wide: bool) returns (ok: bool, value: u64)
    requires c.Valid()
    modifies c`report
    ensures var m := old(c.State());
            var r := RmValue(m.guest, OperandOf(operand), wide);
            if ok then c.State() == m && r == Some(value)
            else !operand.rmIsRegister && r == None && c.State() == Faulted(m, operand.rmAddress)
  {
    hide Readable, Word;
    ok := true;
    if wide {
      if operand.rmIsRegister {
        value := c.registers[operand.rmIndex];
      } else {
        ok, value := c.ReadU64(operand.rmAddress);
      }
    } else {
      if operand.rmIsRegister {
        value := Low32(c.registers[operand.rmIndex]);
      } else {
        ok, value := c.ReadU32(operand.rmAddress);
      }
    }
  }

  /** Stores a value back to the operand it was loaded from, which therefore cannot fail. */
  method PutRm(c: ExecutionContext, operand: RmOperand, value: u64, wide: bool) returns (ok: bool)
    requires c.Valid() && (!wide ==> value < TWO_32)
    requires RmValue(c.State().guest, OperandOf(operand), wide).Some?
    modifies c`report, c.registers, c.memory
    ensures ok && RmValue(old(c.State()).guest, OperandOf(operand), wide).Some?
    ensures c.State() == old(c.State()).(guest := StoreRm(old(c.State()).guest, OperandOf(operand), value, wide))
  {
    hide Word, LittleEndian, Overwrite;
    ok := true;
    if operand.rmIsRegister {
      c.PutRegister64(operand.rmIndex, value);
    } else if wide {
      ok := c.WriteU64(operand.rmAddress, value);
    } else {
      ok := c.WriteU32(operand.rmAddress, value);
    }
  }

  method ExecuteXorRegister(c: ExecutionContext, i: Instruction) returns (outcome: Outcome)
    requires c.Valid()
    modifies c, c.registers
    ensures Step(c.State(), outcome) == XorRegister(old(c.State()), i)
  {
    hide Xor32, LogicFlags, Readable;
    if i.rexW {
      c.SetUnsupportedInstruction(i.opcode);
      return StopRunning;
    }
    var ok, modrm := c.ReadU8(i.next);
    if !ok {
      outcome := FailInvalidMemory(c);
      return;
    }
    var source, destination := Reg(i, modrm), Rm(i, modrm);
    if Mod(modrm) != 3 {
      c.SetUnsupportedInstruction(i.opcode);
      return StopRunning;
    }
    var result := Xor32(Low32(c.registers[destination]), Low32(c.registers[source]));
    c.PutRegister64(destination, result);
    c.SetLogicFlags(result, false);
    c.PutIp(Wrap64(i.next + 1));
    return ContinueRunning;
  }

  method ExecuteOrRegisterByte(c: ExecutionContext, i: Instruction) returns (outcome: Outcome)
    requires c.Valid()
    modifies c, c.registers
    ensures Step(c.State(), outcome) == OrRegisterByte(old(c.State()), i)
  {
    hide Or8, LogicFlags, Readable, SetRegisterByte;
    var ok, modrm := c.ReadU8(i.next);
    if !ok {
      outcome := FailInvalidMemory(c);
      return;
    }
    var source, destination := Reg(i, modrm), Rm(i, modrm);
    if Mod(modrm) != 3 {
      c.SetUnsupportedInstruction(i.opcode);
      return StopRunning;
    }
    var result := Or8(Low8(c.registers[destination]), Low8(c.registers[source]));
    c.PutRegister8Low(destination, result);
    c.SetLogicFlags(result, false);
    c.PutIp(Wrap64(i.next + 1));
    return ContinueRunning;
  }

  method ExecuteOrRm(c: ExecutionContext, i: Instruction) returns (outcome: Outcome)
    requires c.Valid()
    modifies c, c.registers
    ensures Step(c.State(), outcome) == OrRm(old(c.State()), i)
  {
    hide Or64, LogicFlags, Readable, DecodeOperand, RmValue;
    var ok, modrm := c.ReadU8(i.next);
    var operand := RmOperand(0, 0, false, 0, 0);
    if ok {
      ok, operand := TryDecodeRmOperand(c, i, i.next);
    }
    if !ok {
      outcome := FailInvalidMemory(c);
      return;
    }
    var destination := Reg(i, modrm);
    var rhs;
    ok, rhs := LoadRm(c, operand, i.rexW);
    if !ok {
      outcome := FailInvalidMemory(c);
      return;
    }
    var result := Or64(if i.rexW then c.registers[destination] else Low32(c.registers[destination]), rhs);
    c.PutRegister64(destination, result);
    c.SetLogicFlags(result, i.rexW);
    c.PutIp(operand.next);
    return ContinueRunning;
  }

  method ExecuteTestRegister(c: ExecutionContext, i: Instruction) returns (outcome: Outcome)
    requires c.Valid()
    modifies c
    ensures Step(c.State(), outcome) == TestRegister(old(c.State()), i)
  {
    hide And64, LogicFlags, Readable;
    var ok, modrm := c.ReadU8(i.next);
    if !ok {
      outcome := FailInvalidMemory(c);
      return;
    }
    var source, destination := Reg(i, modrm), Rm(i, modrm);
    if Mod(modrm) != 3 {
      c.SetUnsupportedInstruction(i.opcode);
      return StopRunning;
    }
    if i.rexW {
      c.SetLogicFlags(And64(c.registers[destination], c.registers[source]), true);
    } else {
      c.SetLogicFlags(And64(Low32(c.registers[destination]), Low32(c.registers[source])), false);
    }
    c.PutIp(Wrap64(i.next + 1));
    return ContinueRunning;
  }

  method ExecuteTestAccumulator(c: ExecutionContext, i: Instruction) returns (outcome: Outcome)
    requires c.Valid()
    modifies c
    ensures Step(c.State(), outcome) == TestAccumulator(old(c.State()), i)
  {
    hide And64, LogicFlags, Readable, Word, SignExtend32;
    var ok, immediate := c.ReadU32(i.next);
    if !ok {
      outcome := FailInvalidMemory(c);
      return;
    }
    if i.rexW {
      c.SetLogicFlags(And64(c.registers[RAX], Wrap64(SignExtend32(immediate))), true);
    } else {
      c.SetLogicFlags(And64(Low32(c.registers[RAX]), immediate), false);
    }
    c.PutIp(Wrap64(i.next + 4));
    return ContinueRunning;
  }

  method ExecuteGroupF6(c: ExecutionContext, i: Instruction) returns (outcome: Outcome)
    requires c.Valid()
    modifies c
    ensures Step(c.State(), outcome) == GroupF6(old(c.State()), i)
  {
    hide And8, LogicFlags, DecodeOperand;
    var ok, operand := TryDecodeRmOperand(c, i, i.next);
    var immediate: u8 := 0;
    if ok {
      ok, immediate := c.ReadU8(operand.next);
    }
    if !ok {
      outcome := FailInvalidMemory(c);
      return;
    }
    if operand.operation != 0 {
      c.SetUnsupportedInstruction(i.opcode);
      return StopRunning;
    }
    var lhs: u8;
    if operand.rmIsRegister {
      lhs := Low8(c.registers[operand.rmIndex]);
    } else {
      ok, lhs := c.ReadU8(operand.rmAddress);
      if !ok {
        outcome := FailInvalidMemory(c);
        return;
      }
    }
    c.SetLogicFlags(And8(lhs, immediate), false);
    c.PutIp(Wrap64(operand.next + 1));
    return ContinueRunning;
  }

  method ExecuteGroupF7(c: ExecutionContext, i: Instruction) returns (outcome: Outcome)
    requires c.Valid()
    modifies c, c.registers, c.memory
    ensures Step(c.State(), outcome) == GroupF7(old(c.State()), i)
  {
    hide CompareFlags, DecodeOperand, RmValue, StoreRm;
    var ok, operand := TryDecodeRmOperand(c, i, i.next);
    if !ok {
      outcome := FailInvalidMemory(c);
      return;
    }
    if operand.operation != 3 {
      c.SetUnsupportedInstruction(i.opcode);
      return StopRunning;
    }
    var rhs;
    ok, rhs := LoadRm(c, operand, i.rexW);
    if !ok {
      outcome := FailInvalidMemory(c);
      return;
    }
    var result := (0 - rhs) % Width(i.rexW);
    ok := PutRm(c, operand, result, i.rexW);
    c.SetCompareFlags(0, rhs, result, i.rexW);
    c.PutIp(operand.next);
    return ContinueRunning;
  }

  /** The common tail of groups 81 and 83, from the immediate on. */
  method ExecuteGroupImmediate(c: ExecutionContext, i: Instruction, operand: RmOperand, immediate: int, size: nat)
    returns (outcome: Outcome)
    requires c.Valid() && size in {1, 4} && Answers(c.State().guest, i, i.next, operand)
    requires Readable(c.State().guest, operand.next, size)
    requires immediate == Displacement(c.State().guest, operand.next, size)
    modifies c, c.registers, c.memory
    ensures Step(c.State(), outcome) == GroupImmediate(old(c.State()), i, size)
  {
    hide CompareFlags, AddFlags, DecodeOperand, RmValue, StoreRm, Displacement, Readable;
    var ok, lhs := LoadRm(c, operand, i.rexW);
    var rhs := immediate % Width(i.rexW);
    if !ok {
      outcome := FailInvalidMemory(c);
      return;
    }
    if operand.operation == 0 {
      var sum := (lhs + rhs) % Width(i.rexW);
      ok := PutRm(c, operand, sum, i.rexW);
      c.SetAddFlags(lhs, rhs, sum, i.rexW);
    } else if operand.operation == 5 {
      var difference := (lhs - rhs) % Width(i.rexW);
      ok := PutRm(c, operand, difference, i.rexW);
      c.SetCompareFlags(lhs, rhs, difference, i.rexW);
    } else if operand.operation == 7 {
      c.SetCompareFlags(lhs, rhs, (lhs - rhs) % Width(i.rexW), i.rexW);
    } else {
      c.SetUnsupportedInstruction(i.opcode);
      return StopRunning;
    }
    c.PutIp(Wrap64(operand.next + size));
    return ContinueRunning;
  }

  method ExecuteGroup83(c: ExecutionContext, i: Instruction) returns (outcome: Outcome)
    requires c.Valid()
    modifies c, c.registers, c.memory
    ensures Step(c.State(), outcome) == GroupImmediate(old(c.State()), i, 1)
  {
    hide DecodeOperand, RmValue, StoreRm, SignExtend8, CompareFlags, AddFlags;
    var ok, operand := TryDecodeRmOperand(c, i, i.next);
    var immediate: int := 0;
    if ok {
      ok, immediate := c.ReadI8(operand.next);
    }
    if !ok {
      outcome := FailInvalidMemory(c);
      return;
    }
    outcome := ExecuteGroupImmediate(c, i, operand, immediate, 1);
  }

  method ExecuteGroup81(c: ExecutionContext, i: Instruction) returns (outcome: Outcome)
    requires c.Valid()
    modifies c, c.registers, c.memory
    ensures Step(c.State(), outcome) == GroupImmediate(old(c.State()), i, 4)
  {
    hide DecodeOperand, RmValue, StoreRm, SignExtend32, Word, CompareFlags, AddFlags;
    var ok, operand := TryDecodeRmOperand(c, i, i.next);
    var immediate: int := 0;
    if ok {
      ok, immediate := c.ReadI32(operand.next);
    }
    if !ok {
      outcome := FailInvalidMemory(c);
      return;
    }
    outcome := ExecuteGroupImmediate(c, i, operand, immediate, 4);
  }

  method ExecuteCompareRmWithRegister(c: ExecutionContext, i: Instruction) returns (outcome: Outcome)
    requires c.Valid()
    modifies c
    ensures Step(c.State(), outcome) == CompareRm(old(c.State()), i)
  {
    hide CompareFlags, DecodeOperand, RmValue, Readable;
    var ok, modrm := c.ReadU8(i.next);
    var operand := RmOperand(0, 0, false, 0, 0);
    if ok {
      ok, operand := TryDecodeRmOperand(c, i, i.next);
    }
    if !ok {
      outcome := FailInvalidMemory(c);
      return;
    }
    var source := Reg(i, modrm);
    var rhs: u64 := if i.rexW then c.registers[source] else Low32(c.registers[source]);
    var lhs;
    ok, lhs := LoadRm(c, operand, i.rexW);
    if !ok {
      outcome := FailInvalidMemory(c);
      return;
    }
    c.SetCompareFlags(lhs, rhs, (lhs - rhs) % Width(i.rexW), i.rexW);
    c.PutIp(operand.next);
    return ContinueRunning;
  }
}
