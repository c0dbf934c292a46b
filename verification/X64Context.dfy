/**
 The emulator's execution context as an object (emulator/x64/x64_execution_context.cpp): register file, vectors, flags,
 guest memory and run report, updated in place. State() is the machine value the instruction functions talk about.
 */
module X64Context {
  import opened Words
  import opened X64Machine

  class ExecutionContext {
    const registers: array<u64>
    const vectors: array<Vector>
    const memory: array<u8>
    const base: u64
    const callback: Callback
    var ip: u64
    var flags: bv64
    var report: Report
    var calls: seq<Guest>

    ghost predicate Valid() {
      registers.Length == 16 && vectors.Length == 16 && memory.Length <= U64_MAX
    }

    constructor (registers: array<u64>, vectors: array<Vector>, memory: array<u8>, base: u64, ip: u64, flags: bv64,
                 calls: seq<Guest>, callback: Callback)
      requires registers.Length == 16 && vectors.Length == 16 && memory.Length <= U64_MAX
      ensures Valid() && this.registers == registers && this.vectors == vectors && this.memory == memory
      ensures this.callback == callback
      ensures State().guest == Guest(registers[..], vectors[..], ip, flags, base, memory[..]) && State().calls == calls
    {
      this.registers, this.vectors, this.memory, this.base := registers, vectors, memory, base;
      this.ip, this.flags, this.calls, this.callback := ip, flags, calls, callback;
      report := Report(LimitReached, NoStop, FailureLimitReached, 0, 0, Fault(0, 0, 0));
    }

    ghost function State(): Machine
      requires Valid()
      reads this, registers, vectors, memory
    {
      Machine(Guest(registers[..], vectors[..], ip, flags, base, memory[..]), report, calls)
    }

    function CurrentGuest(): Guest
      requires Valid()
      reads this, registers, vectors, memory
    {
      Guest(registers[..], vectors[..], ip, flags, base, memory[..])
    }

    // ----- Report -----

    method InitializeResult()
      requires Valid()
      modifies this
      ensures State() == Initialized(old(State()).guest, old(State()).calls)
    {
      flags := flags | RESERVED;
      report := Report(LimitReached, NoStop, FailureLimitReached, ip, 0, Fault(ip, 0, 0));
    }

    method SetFault(i: Instruction)
      requires Valid()
      modifies this`report
      ensures State() == X64Machine.SetFault(old(State()), i)
    {
      report := report.(fault := report.fault.(ip := i.address));
      report := report.(fault := report.fault.(memoryAddress := 0));
      report := report.(fault := report.fault.(opcode := i.opcode));
      report := report.(faultAddress := i.address);
      report := report.(faultOpcode := i.opcode);
    }

    method SetFaultOpcode(opcode: u8)
      requires Valid()
      modifies this`report
      ensures State() == X64Machine.SetFaultOpcode(old(State()), opcode)
    {
      report := report.(fault := report.fault.(opcode := opcode));
      report := report.(faultOpcode := opcode);
    }

    method SetInvalidMemoryAccess(a: u64, opcode: u8)
      requires Valid()
      modifies this`report
      ensures State() == InvalidAccess(old(State()), a, opcode)
    {
      report := report.(completion := InvalidMemoryAccess);
      report := report.(stop := StopInvalidMemoryAccess);
      report := report.(failure := NoFailure);
      report := report.(fault := report.fault.(memoryAddress := a));
      report := report.(fault := report.fault.(opcode := opcode));
      report := report.(faultAddress := a);
      report := report.(faultOpcode := opcode);
    }

    method SetUnsupportedInstruction(opcode: u8)
      requires Valid()
      modifies this`report
      ensures State() == Unsupported(old(State()), opcode)
    {
      report := report.(completion := UnsupportedInstruction);
      report := report.(stop := StopUnsupportedInstruction);
      report := report.(failure := NoFailure);
      report := report.(fault := report.fault.(memoryAddress := 0));
      report := report.(fault := report.fault.(opcode := opcode));
      report := report.(faultOpcode := opcode);
    }

    method SetThreadExited()
      requires Valid()
      modifies this`report
      ensures State() == Exited(old(State()))
    {
      report := report.(completion := ThreadExited, stop := StopExited, failure := NoFailure);
    }

    method SetYielded()
      requires Valid()
      modifies this`report
      ensures State() == YieldedTo(old(State()))
    {
      report := report.(completion := Yielded, stop := StopYielded, failure := NoFailure);
    }

    method SetBackendFailure(failure: BackendFailure)
      requires Valid()
      modifies this`report
      ensures State() == BackendFailed(old(State()), failure)
    {
      report := report.(stop := NoStop, failure := failure);
      match failure {
        case FailureLimitReached => report := report.(completion := LimitReached);
        case FailureInvalidArgument => report := report.(completion := InvalidArgument);
        case FailureUnsupportedEngine => report := report.(completion := UnsupportedEngine);
        case NoFailure =>
      }
    }

    /** What handlers do after a failed access, on top of what the access itself reported. */
    method MarkInvalidMemoryAccess()
      requires Valid()
      modifies this`report
      ensures State() == old(State()).(report := old(State()).report.(completion := InvalidMemoryAccess))
    {
      report := report.(completion := InvalidMemoryAccess);
    }

    // ----- Guest memory -----

    /** translate_guest_pointer: the offset of n readable bytes; a refusal is reported. */
    method Translate(a: u64, n: nat) returns (ok: bool, offset: nat)
      requires Valid()
      modifies this`report
      ensures ok <==> Readable(old(State()).guest, a, n)
      ensures ok ==> offset == a - base && State() == old(State())
      ensures !ok ==> State() == Faulted(old(State()), a)
    {
      offset := 0;
      if a < base {
        SetInvalidMemoryAccess(a, report.fault.opcode);
        return false, 0;
      }
      var guestOffset := a - base;
      if guestOffset > memory.Length {
        SetInvalidMemoryAccess(a, report.fault.opcode);
        return false, 0;
      }
      if n > memory.Length - guestOffset {
        SetInvalidMemoryAccess(a, report.fault.opcode);
        return false, 0;
      }
      return true, guestOffset;
    }

    method ReadU8(a: u64) returns (ok: bool, value: u8)
      requires Valid()
      modifies this`report
      ensures var m := old(State());
              if ok then State() == m && ReadByte(m.guest, a) == Some(value)
              else State() == Faulted(m, a) && ReadByte(m.guest, a) == None
    {
      var offset;
      value := 0;
      ok, offset := Translate(a, 1);
      if ok {
        value := memory[offset];
      }
    }

    method ReadI8(a: u64) returns (ok: bool, value: int)
      requires Valid()
      modifies this`report
      ensures var m := old(State());
              if ok then State() == m && Readable(m.guest, a, 1) && value == SignExtend8(m.guest.memory[a - m.guest.base])
              else State() == Faulted(m, a) && !Readable(m.guest, a, 1)
    {
      var b;
      ok, b := ReadU8(a);
      value := SignExtend8(b);
    }

    method ReadU32(a: u64) returns (ok: bool, value: u32)
      requires Valid()
      modifies this`report
      ensures var m := old(State());
              if ok then State() == m && Readable(m.guest, a, 4) && value == Word(m.guest, a, 4)
              else State() == Faulted(m, a) && !Readable(m.guest, a, 4)
    {
      var offset;
      value := 0;
      ok, offset := Translate(a, 4);
      if ok {
        value := Word(CurrentGuest(), a, 4);
      }
    }

    method ReadI32(a: u64) returns (ok: bool, value: int)
      requires Valid()
      modifies this`report
      ensures var m := old(State());
              if ok then State() == m && Readable(m.guest, a, 4) && value == SignExtend32(Word(m.guest, a, 4))
              else State() == Faulted(m, a) && !Readable(m.guest, a, 4)
    {
      var w;
      ok, w := ReadU32(a);
      value := SignExtend32(w);
    }

    method ReadU64(a: u64) returns (ok: bool, value: u64)
      requires Valid()
      modifies this`report
      ensures var m := old(State());
              if ok then State() == m && Readable(m.guest, a, 8) && value == Word(m.guest, a, 8)
              else State() == Faulted(m, a) && !Readable(m.guest, a, 8)
    {
      var offset;
      value := 0;
      ok, offset := Translate(a, 8);
      if ok {
        value := Word(CurrentGuest(), a, 8);
      }
    }

    method ReadU128(a: u64) returns (ok: bool, value: Vector)
      requires Valid()
      modifies this`report
      ensures var m := old(State());
              if ok then State() == m && Readable(m.guest, a, 16) && value == BytesAt(m.guest, a, 16)
              else State() == Faulted(m, a) && !Readable(m.guest, a, 16)
    {
      var offset;
      value := ZERO_VECTOR;
      ok, offset := Translate(a, 16);
      if ok {
        value := memory[offset..offset + 16];
      }
    }

    /** memcpy of a value's bytes into guest memory. */
    method Write(a: u64, bytes: seq<u8>) returns (ok: bool)
      requires Valid()
      modifies this`report, memory
      ensures var m := old(State());
              if ok then Readable(m.guest, a, |bytes|) && State() == m.(guest := WriteBytes(m.guest, a, bytes))
              else State() == Faulted(m, a) && !Readable(m.guest, a, |bytes|)
    {
      var offset;
      ok, offset := Translate(a, |bytes|);
      if ok {
        ghost var before := memory[..];
        for k := 0 to |bytes|
          invariant report == old(report)
          invariant forall j :: 0 <= j < memory.Length ==>
                      memory[j] == if offset <= j < offset + k then bytes[j - offset] else before[j]
        {
          memory[offset + k] := bytes[k];
        }
        assert memory[..] == Overwrite(before, offset, bytes);
      }
    }

    method WriteU32(a: u64, value: u32) returns (ok: bool)
      requires Valid()
      modifies this`report, memory
      ensures var m := old(State());
              if ok then Readable(m.guest, a, 4) && State() == m.(guest := WriteBytes(m.guest, a, LittleEndian(value, 4)))
              else State() == Faulted(m, a) && !Readable(m.guest, a, 4)
    {
      ok := Write(a, LittleEndian(value, 4));
    }

    method WriteU64(a: u64, value: u64) returns (ok: bool)
      requires Valid()
      modifies this`report, memory
      ensures var m := old(State());
              if ok then Readable(m.guest, a, 8) && State() == m.(guest := WriteBytes(m.guest, a, LittleEndian(value, 8)))
              else State() == Faulted(m, a) && !Readable(m.guest, a, 8)
    {
      ok := Write(a, LittleEndian(value, 8));
    }

    // ----- Registers -----

    method PutRegister64(r: Index, value: u64)
      requires Valid()
      modifies registers
      ensures State() == old(State()).(guest := SetRegister(old(State()).guest, r, value))
    {
      registers[r] := value;
      assert registers[..] == old(registers[..])[r := value];
    }

    method PutRegister8Low(r: Index, value: u8)
      requires Valid()
      modifies registers
      ensures State() == old(State()).(guest := SetRegisterByte(old(State()).guest, r, value))
    {
      var v := registers[r] - Low8(registers[r]) + value;
      registers[r] := v;
      assert registers[..] == old(registers[..])[r := v];
    }

    method PutVector(r: Index, value: Vector)
      requires Valid()
      modifies vectors
      ensures State() == old(State()).(guest := old(State()).guest.(vectors := old(State()).guest.vectors[r := value]))
    {
      vectors[r] := value;
      assert vectors[..] == old(vectors[..])[r := value];
    }

    method PutIp(a: u64)
      requires Valid()
      modifies this`ip
      ensures State() == old(State()).(guest := old(State()).guest.(ip := a))
    {
      ip := a;
    }

    // ----- Flags -----

    lemma OrNothing(f: bv64, flag: bv64)
      ensures With(f, Bit(false, flag)) == f
    {
    }

    method ClearArithmetic()
      modifies this`flags
      ensures flags == Cleared(old(flags))
    {
      flags := flags & !(CARRY | ZERO | SIGN | OVERFLOW);
      flags := flags | RESERVED;
    }

    method RaiseIf(condition: bool, flag: bv64)
      modifies this`flags
      ensures flags == With(old(flags), Bit(condition, flag))
    {
      OrNothing(flags, flag);
      if condition {
        flags := flags | flag;
      }
    }

    method SetLogicFlags(value: u64, wide: bool)
      requires Valid()
      modifies this`flags
      ensures State() == old(State()).(guest := SetFlags(old(State()).guest, LogicFlags(old(flags), value, wide)))
    {
      hide Bit, With, Cleared, Negative, Masked;
      var v := Masked(value, wide);
      ClearArithmetic();
      RaiseIf(v == 0, ZERO);
      RaiseIf(Negative(v, wide), SIGN);
      OrNothing(flags, CARRY);
      OrNothing(flags, OVERFLOW);
    }

    method SetCompareFlags(lhs: u64, rhs: u64, result: u64, wide: bool)
      requires Valid()
      modifies this`flags
      ensures State() == old(State()).(guest := SetFlags(old(State()).guest, CompareFlags(old(flags), lhs, rhs, result, wide)))
    {
      hide Bit, With, Cleared, CarryOnly, Negative, Masked;
      var l, r, v := Masked(lhs, wide), Masked(rhs, wide), Masked(result, wide);
      ClearArithmetic();
      RaiseIf(v == 0, ZERO);
      RaiseIf(Negative(v, wide), SIGN);
      RaiseIf(l < r, CARRY);
      RaiseIf(Negative(l, wide) != Negative(r, wide) && Negative(l, wide) != Negative(v, wide), OVERFLOW);
    }

    method SetAddFlags(lhs: u64, rhs: u64, result: u64, wide: bool)
      requires Valid()
      modifies this`flags
      ensures State() == old(State()).(guest := SetFlags(old(State()).guest, AddFlags(old(flags), lhs, rhs, result, wide)))
    {
      hide Bit, With, Cleared, CarryOnly, Negative, Masked;
      var l, r, v := Masked(lhs, wide), Masked(rhs, wide), Masked(result, wide);
      ClearArithmetic();
      RaiseIf(v == 0, ZERO);
      RaiseIf(Negative(v, wide), SIGN);
      RaiseIf(v < l, CARRY);
      RaiseIf(Negative(l, wide) == Negative(r, wide) && Negative(l, wide) != Negative(v, wide), OVERFLOW);
    }

    method KeepCarry()
      modifies this`flags
      ensures flags == CarryOnly(old(flags))
    {
      flags := (flags & CARRY) | RESERVED;
    }

    /** set_inc_dec_flags: everything but the carry is rebuilt. */
    method SetIncDecFlags(lhs: u64, result: u64, decrement: bool, wide: bool)
      requires Valid()
      modifies this`flags
      ensures State() == old(State()).(guest := SetFlags(old(State()).guest, IncDecFlags(old(flags), lhs, result, decrement, wide)))
    {
      hide Bit, With, Cleared, CarryOnly, Negative, Masked;
      ghost var m := State();
      var l, v := Masked(lhs, wide), Masked(result, wide);
      var ls, vs := Negative(l, wide), Negative(v, wide);
      var overflow := if decrement then ls && !vs else !ls && vs;
      KeepCarry();
      RaiseIf(v == 0, ZERO);
      RaiseIf(vs, SIGN);
      RaiseIf(overflow, OVERFLOW);
      assert flags == IncDecFlags(m.guest.flags, lhs, result, decrement, wide);
      hide IncDecFlags;
    }

    // ----- Stack -----

    method PushU64(value: u64) returns (ok: bool)
      requires Valid()
      modifies this`report, registers, memory
      ensures Step(State(), if ok then ContinueRunning else StopRunning) == Push(old(State()), value)
    {
      var sp: int := registers[RSP];
      if sp < Wrap64(base + 8) {
        SetInvalidMemoryAccess(sp, report.fault.opcode);
        return false;
      }
      PutRegister64(RSP, Wrap64(sp - 8));
      ok := WriteU64(registers[RSP], value);
    }

    method PopU64() returns (ok: bool, value: u64)
      requires Valid()
      modifies this`report, registers
      ensures var m := old(State());
              var sp := m.guest.registers[RSP];
              if ok then
                && Readable(m.guest, sp, 8) && value == Word(m.guest, sp, 8)
                && State() == m.(guest := SetRegister(m.guest, RSP, StackAt(m.guest, 8)))
              else State() == Faulted(m, sp) && !Readable(m.guest, sp, 8)
    {
      var sp: int := registers[RSP];
      ok, value := ReadU64(sp);
      if ok {
        PutRegister64(RSP, Wrap64(sp + 8));
      }
    }
  }

  // ----- What the handlers share -----

  /** An access that failed has been recorded; the handler stops. */
  method FailInvalidMemory(c: ExecutionContext) returns (outcome: Outcome)
    requires c.Valid() && c.report.completion == InvalidMemoryAccess
    modifies c`report
    ensures c.State() == old(c.State()) && outcome == StopRunning
  {
    c.MarkInvalidMemoryAccess();
    return StopRunning;
  }

  method RejectRexW(c: ExecutionContext, i: Instruction) returns (rejected: bool)
    requires c.Valid()
    modifies c`report
    ensures rejected == i.rexW
    ensures c.State() == if rejected then Unsupported(old(c.State()), i.opcode) else old(c.State())
  {
    if !i.rexW {
      return false;
    }
    c.SetUnsupportedInstruction(i.opcode);
    return true;
  }
}
