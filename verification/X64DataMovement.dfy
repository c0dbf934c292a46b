/** Data movement handlers (emulator/x64/x64_data_movement_instructions.cpp), with their own address decoder. */
module X64DataMovement {
  import opened Words
  import opened X64Machine
  import opened X64Instructions
  import opened X64Context

  method TryReadSibAddress(c: ExecutionContext, i: Instruction, a: u64, mod: int)
    returns (ok: bool, address: u64, next: u64)
    requires c.Valid() && 0 <= mod < 3 && Readable(c.State().guest, a, 1)
    requires var modrm := c.State().guest.memory[a - c.base]; Mod(modrm) == mod && RmBits(modrm) == 4
    modifies c`report
    ensures var m := old(c.State());
            var op := DecodeOperand(m.guest, i, a);
            if ok then c.State() == m && op == InMemory(address, next)
            else op.Unreadable? && c.State() == Faulted(m, op.fault)
  {
    ghost var g := c.State().guest;
    address, next := 0, 0;
    var sib;
    ok, sib := c.ReadU8(Wrap64(a + 1));
    if !ok {
      c.MarkInvalidMemoryAccess();
      return;
    }
    var indexField, baseField := sib / 8 % 8, sib % 8;
    var displacementAddress := Wrap64(a + 2);
    var scale := Scale(sib);
    var indexValue: int := 0;
    if indexField != 4 || i.rexX {
      indexValue := c.registers[Field(indexField, i.rexX)];
    }
    var scaled := indexValue * scale;
    assert scaled == IndexValue(g, i, sib);
    assert DecodeOperand(g, i, a) == WithDisplacement(g, i, mod, baseField, displacementAddress, scaled, true);
    DisplacementCases(g, i, mod, baseField, displacementAddress, scaled, true);
    hide DecodeOperand, WithDisplacement, IndexValue, Scale, Word, SignExtend8, SignExtend32, Plus;
    if mod == 0 {
      if baseField == 5 && !i.rexB {
        var displacement;
        ok, displacement := c.ReadI32(displacementAddress);
        if !ok {
          c.MarkInvalidMemoryAccess();
          return;
        }
        next := Plus(displacementAddress, 4);
        address := Plus(0, scaled + displacement);
        return;
      }
      next := displacementAddress;
      address := Plus(c.registers[Field(baseField, i.rexB)], scaled);
      return;
    }
    var displacement: int;
    if mod == 1 {
      ok, displacement := c.ReadI8(displacementAddress);
      next := Plus(displacementAddress, 1);
    } else {
      ok, displacement := c.ReadI32(displacementAddress);
      next := Plus(displacementAddress, 4);
    }
    if !ok {
      c.MarkInvalidMemoryAccess();
      return;
    }
    address := Plus(c.registers[Field(baseField, i.rexB)], scaled + displacement);
  }

  method TryGetMemoryOperandAddress(c: ExecutionContext, i: Instruction, a: u64, modrm: u8)
    returns (ok: bool, address: u64, next: u64)
    requires c.Valid() && ReadByte(c.State().guest, a) == Some(modrm) && Mod(modrm) != 3
    modifies c`report
    ensures var m := old(c.State());
            var op := DecodeOperand(m.guest, i, a);
            if ok then c.State() == m && op == InMemory(address, next)
            else op.Unreadable? && c.State() == Faulted(m, op.fault)
  {
    ghost var g := c.State().guest;
    hide IndexValue, WithDisplacement, Word, SignExtend8, SignExtend32;
    var mod, rm := Mod(modrm), RmBits(modrm);
    var baseIndex := Rm(i, modrm);
    address, next := 0, 0;
    if rm == 4 {
      ok, address, next := TryReadSibAddress(c, i, a, mod);
      return;
    }
    var displacementAddress := Plus(a, 1);
    assert DecodeOperand(g, i, a) == WithDisplacement(g, i, mod, rm, displacementAddress, 0, false);
    DisplacementCases(g, i, mod, rm, displacementAddress, 0, false);
    FiveOn(a);
    hide DecodeOperand, Plus;
    if mod == 0 {
      if rm == 5 && !i.rexB {
        var displacement;
        ok, displacement := c.ReadI32(displacementAddress);
        if !ok {
          c.MarkInvalidMemoryAccess();
          return;
        }
        next := Plus(a, 5);
        address := Plus(next, displacement);
        return;
      }
      return true, Plus(c.registers[baseIndex], 0), displacementAddress;
    }
    var displacement;
    if mod == 1 {
      ok, displacement := c.ReadI8(displacementAddress);
      next := Plus(a, 2);
    } else {
      ok, displacement := c.ReadI32(displacementAddress);
      next := Plus(a, 5);
    }
    if !ok {
      c.MarkInvalidMemoryAccess();
      return;
    }
    address := Plus(c.registers[baseIndex], displacement);
  }

  method ExecuteMovImmediate32(c: ExecutionContext, i: Instruction) returns (outcome: Outcome)
    requires c.Valid() && 0xB8 <= i.opcode <= 0xBF
    modifies c, c.registers
    ensures Step(c.State(), outcome) == MovImmediate32(old(c.State()), i)
  {
    hide Readable, Word;
    var rejected := RejectRexW(c, i);
    if rejected {
      return StopRunning;
    }
    var index := Field(i.opcode - 0xB8, i.rexB);
    var ok, immediate := c.ReadU32(i.next);
    if !ok {
      outcome := FailInvalidMemory(c);
      return;
    }
    c.PutRegister64(index, immediate);
    c.PutIp(Wrap64(i.next + 4));
    return ContinueRunning;
  }

  method ExecuteMovImmediateToRm(c: ExecutionContext, i: Instruction) returns (outcome: Outcome)
    requires c.Valid()
    modifies c, c.registers, c.memory
    ensures Step(c.State(), outcome) == MovImmediateToRm(old(c.State()), i)
  {
    hide Word, WithDisplacement, IndexValue, LittleEndian, Overwrite, SignExtend32;
    var ok, modrm := c.ReadU8(i.next);
    if !ok {
      outcome := FailInvalidMemory(c);
      return;
    }
    if RegBits(modrm) != 0 {
      c.SetUnsupportedInstruction(i.opcode);
      return StopRunning;
    }
    if Mod(modrm) == 3 {
      outcome := MovImmediateToRegister(c, i, modrm);
    } else {
      outcome := MovImmediateToMemory(c, i, modrm);
    }
  }

  method MovImmediateToRegister(c: ExecutionContext, i: Instruction, modrm: u8) returns (outcome: Outcome)
    requires c.Valid() && ReadByte(c.State().guest, i.next) == Some(modrm) && Mod(modrm) == 3 && RegBits(modrm) == 0
    modifies c, c.registers
    ensures Step(c.State(), outcome) == MovImmediateToRm(old(c.State()), i)
  {
    assert DecodeOperand(c.State().guest, i, i.next) == InRegister(Rm(i, modrm), Wrap64(i.next + 1));
    hide Word, DecodeOperand, SignExtend32;
    var ok, immediate := c.ReadU32(Wrap64(i.next + 1));
    if !ok {
      outcome := FailInvalidMemory(c);
      return;
    }
    c.PutRegister64(Rm(i, modrm), if i.rexW then Wrap64(SignExtend32(immediate)) else immediate);
    c.PutIp(Wrap64(Wrap64(i.next + 1) + 4));
    return ContinueRunning;
  }

  method MovImmediateToMemory(c: ExecutionContext, i: Instruction, modrm: u8) returns (outcome: Outcome)
    requires c.Valid() && ReadByte(c.State().guest, i.next) == Some(modrm) && Mod(modrm) != 3 && RegBits(modrm) == 0
    modifies c, c.memory
    ensures Step(c.State(), outcome) == MovImmediateToRm(old(c.State()), i)
  {
    hide Word, DecodeOperand, SignExtend32, LittleEndian, Overwrite;
    var ok, address, next := TryGetMemoryOperandAddress(c, i, i.next, modrm);
    if !ok {
      return StopRunning;
    }
    var immediate;
    ok, immediate := c.ReadU32(next);
    if !ok {
      outcome := FailInvalidMemory(c);
      return;
    }
    if i.rexW {
      ok := c.WriteU64(address, Wrap64(SignExtend32(immediate)));
    } else {
      ok := c.WriteU32(address, immediate);
    }
    if !ok {
      outcome := FailInvalidMemory(c);
      return;
    }
    c.PutIp(Plus(next, 4));
    return ContinueRunning;
  }

  method ExecuteMovRegister(c: ExecutionContext, i: Instruction) returns (outcome: Outcome)
    requires c.Valid() && (i.opcode == 0x89 || i.opcode == 0x8B)
    modifies c, c.registers, c.memory
    ensures Step(c.State(), outcome) == MovRegister(old(c.State()), i)
  {
    hide DecodeOperand, Word;
    var ok, modrm := c.ReadU8(i.next);
    if !ok {
      outcome := FailInvalidMemory(c);
      return;
    }
    if Mod(modrm) == 3 {
      outcome := MovBetweenRegisters(c, i, modrm);
    } else {
      outcome := MovMemory(c, i, modrm);
    }
  }

  method MovBetweenRegisters(c: ExecutionContext, i: Instruction, modrm: u8) returns (outcome: Outcome)
    requires c.Valid() && (i.opcode == 0x89 || i.opcode == 0x8B)
    requires ReadByte(c.State().guest, i.next) == Some(modrm) && Mod(modrm) == 3
    modifies c, c.registers
    ensures Step(c.State(), outcome) == MovRegister(old(c.State()), i)
  {
    var register, rm := Reg(i, modrm), Rm(i, modrm);
    assert DecodeOperand(c.State().guest, i, i.next) == InRegister(rm, Wrap64(i.next + 1));
    hide DecodeOperand, Word;
    if i.opcode == 0x89 {
      c.PutRegister64(rm, if i.rexW then c.registers[register] else Low32(c.registers[register]));
    } else {
      c.PutRegister64(register, if i.rexW then c.registers[rm] else Low32(c.registers[rm]));
    }
    c.PutIp(Wrap64(i.next + 1));
    return ContinueRunning;
  }

  method MovMemory(c: ExecutionContext, i: Instruction, modrm: u8) returns (outcome: Outcome)
    requires c.Valid() && (i.opcode == 0x89 || i.opcode == 0x8B)
    requires ReadByte(c.State().guest, i.next) == Some(modrm) && Mod(modrm) != 3
    modifies c, c.registers, c.memory
    ensures Step(c.State(), outcome) == MovRegister(old(c.State()), i)
  {
    hide DecodeOperand, Word, LittleEndian, Overwrite;
    var register := Reg(i, modrm);
    var ok, address, next := TryGetMemoryOperandAddress(c, i, i.next, modrm);
    if !ok {
      return StopRunning;
    }
    if i.opcode == 0x89 {
      if i.rexW {
        ok := c.WriteU64(address, c.registers[register]);
      } else {
        ok := c.WriteU32(address, Low32(c.registers[register]));
      }
      if !ok {
        outcome := FailInvalidMemory(c);
        return;
      }
    } else {
      var value: u64;
      if i.rexW {
        ok, value := c.ReadU64(address);
      } else {
        ok, value := c.ReadU32(address);
      }
      if !ok {
        outcome := FailInvalidMemory(c);
        return;
      }
      c.PutRegister64(register, value);
    }
    c.PutIp(next);
    return ContinueRunning;
  }

  method ExecuteLea(c: ExecutionContext, i: Instruction) returns (outcome: Outcome)
    requires c.Valid()
    modifies c, c.registers
    ensures Step(c.State(), outcome) == Lea(old(c.State()), i)
  {
    hide WithDisplacement, IndexValue;
    var ok, modrm := c.ReadU8(i.next);
    if !ok {
      outcome := FailInvalidMemory(c);
      return;
    }
    if Mod(modrm) == 3 {
      c.SetUnsupportedInstruction(i.opcode);
      return StopRunning;
    }
    var address, next;
    ok, address, next := TryGetMemoryOperandAddress(c, i, i.next, modrm);
    hide DecodeOperand, Readable;
    if !ok {
      return StopRunning;
    }
    c.PutRegister64(Reg(i, modrm), if i.rexW then address else Low32(address));
    c.PutIp(next);
    return ContinueRunning;
  }

  /** An 8-bit operand, from the low byte of a register or from memory, and where the bytes after it start. */
  method LoadByteOperand(c: ExecutionContext, i: Instruction, a: u64, modrm: u8) returns (ok: bool, value: u8, next: u64)
    requires c.Valid() && ReadByte(c.State().guest, a) == Some(modrm)
    modifies c`report
    ensures var m := old(c.State());
            var op := DecodeOperand(m.guest, i, a);
            if ok then c.State() == m && !op.Unreadable? && RmByte(m.guest, op) == Some(value) && next == op.next
            else if op.Unreadable? then c.State() == Faulted(m, op.fault)
            else op.InMemory? && RmByte(m.guest, op) == None && c.State() == Faulted(m, op.address)
  {
    hide WithDisplacement, IndexValue;
    ok, value, next := true, 0, Wrap64(a + 1);
    if Mod(modrm) == 3 {
      value := Low8(c.registers[Rm(i, modrm)]);
      return;
    }
    var address;
    ok, address, next := TryGetMemoryOperandAddress(c, i, a, modrm);
    hide DecodeOperand;
    if !ok {
      return;
    }
    ok, value := c.ReadU8(address);
    if !ok {
      c.MarkInvalidMemoryAccess();
    }
  }

  method ExecuteGroup80(c: ExecutionContext, i: Instruction) returns (outcome: Outcome)
    requires c.Valid()
    modifies c
    ensures Step(c.State(), outcome) == Group80(old(c.State()), i)
  {
    hide DecodeOperand, RmByte, CompareFlags;
    var ok, modrm := c.ReadU8(i.next);
    if !ok {
      outcome := FailInvalidMemory(c);
      return;
    }
    if RegBits(modrm) != 7 {
      c.SetUnsupportedInstruction(i.opcode);
      return StopRunning;
    }
    var lhs, next;
    ok, lhs, next := LoadByteOperand(c, i, i.next, modrm);
    if !ok {
      return StopRunning;
    }
    var immediate;
    ok, immediate := c.ReadU8(next);
    if !ok {
      outcome := FailInvalidMemory(c);
      return;
    }
    c.SetCompareFlags(lhs, immediate, ByteDifference(lhs, immediate), false);
    c.PutIp(Plus(next, 1));
    return ContinueRunning;
  }

  method ExecuteSecondarySetCondition(c: ExecutionContext, i: Instruction) returns (outcome: Outcome)
    requires c.Valid()
    modifies c, c.registers
    ensures Step(c.State(), outcome) == SetCondition(old(c.State()), i)
  {
    hide Readable, Has, SetRegisterByte;
    var ok, secondary := c.ReadU8(i.next);
    var modrm: u8 := 0;
    if ok {
      ok, modrm := c.ReadU8(Wrap64(i.next + 1));
    }
    if !ok {
      outcome := FailInvalidMemory(c);
      return;
    }
    if Mod(modrm) != 3 || (secondary != 0x94 && secondary != 0x95) {
      c.SetUnsupportedInstruction(secondary);
      return StopRunning;
    }
    var zero := Has(c.flags, ZERO);
    var condition := if secondary == 0x94 then zero else !zero;
    c.PutRegister8Low(Rm(i, modrm), if condition then 1 else 0);
    c.PutIp(Wrap64(i.next + 2));
    return ContinueRunning;
  }

  method ExecuteSecondaryMovZeroExtendByte(c: ExecutionContext, i: Instruction) returns (outcome: Outcome)
    requires c.Valid()
    modifies c, c.registers
    ensures Step(c.State(), outcome) == MovZeroExtendByte(old(c.State()), i)
  {
    hide DecodeOperand, RmByte;
    var at := Wrap64(i.next + 1);
    var ok, modrm := c.ReadU8(at);
    if !ok {
      outcome := FailInvalidMemory(c);
      return;
    }
    var value, next;
    ok, value, next := LoadByteOperand(c, i, at, modrm);
    if !ok {
      return StopRunning;
    }
    c.PutRegister64(Reg(i, modrm), value);
    c.PutIp(next);
    return ContinueRunning;
  }

  method ExecuteNop(c: ExecutionContext, i: Instruction) returns (outcome: Outcome)
    requires c.Valid()
    modifies c
    ensures Step(c.State(), outcome) == Nop(old(c.State()), i)
  {
    var rejected := RejectRexW(c, i);
    if rejected {
      return StopRunning;
    }
    c.PutIp(i.next);
    return ContinueRunning;
  }
}
