/** SIMD handlers (emulator/x64/x64_simd_instructions.cpp), with the third operand decoder. */
module X64Simd {
  import opened Words
  import opened X64Machine
  import opened X64Instructions
  import opened X64Context

  /** struct x64_decoded_modrm_operand. */
  datatype ModrmOperand = ModrmOperand(regIndex: Index, rmIndex: Index, rmIsRegister: bool, rmAddress: u64, next: u64)

  function OperandOf(operand: ModrmOperand): Operand {
    if operand.rmIsRegister then InRegister(operand.rmIndex, operand.next) else InMemory(operand.rmAddress, operand.next)
  }

  /** The decoder's answer for the ModRM byte at a, field by field. */
  predicate Answers(g: Guest, i: Instruction, a: u64, operand: ModrmOperand) {
    && Readable(g, a, 1)
    && operand.regIndex == RegAt(g, i, a)
    && DecodeOperand(g, i, a) == OperandOf(operand)
  }

  method TryReadSibOperandAddress(c: ExecutionContext, i: Instruction, a: u64, mod: int)
    returns (ok: bool, address: u64, next: u64)
    requires c.Valid() && 0 <= mod < 3 && Readable(c.State().guest, a, 1)
    requires var modrm := c.State().guest.memory[a - c.base]; Mod(modrm) == mod && RmBits(modrm) == 4
    modifies c`report
    ensures var m := old(c.State());
            var op := DecodeOperand(m.guest, i, a);
            if ok then c.State() == m && op == InMemory(address, next)
            else op.Unreadable? && c.State() == Faulted(m, op.fault)
  {
    ghost var g := c.State().guest;
    address, next := 0, 0;
    var sib;
    ok, sib := c.ReadU8(Wrap64(a + 1));
    if !ok {
      return;
    }
    var indexField, baseField := sib / 8 % 8, sib % 8;
    var displacementAddress := Wrap64(a + 2);
    var scale := Scale(sib);
    var indexValue: int := 0;
    if indexField != 4 || i.rexX {
      indexValue := c.registers[Field(indexField, i.rexX)];
    }
    var scaled := indexValue * scale;
    assert scaled == IndexValue(g, i, sib);
    assert DecodeOperand(g, i, a) == WithDisplacement(g, i, mod, baseField, displacementAddress, scaled, true);
    DisplacementCases(g, i, mod, baseField, displacementAddress, scaled, true);
    hide DecodeOperand, WithDisplacement, IndexValue, Scale, Word, SignExtend8, SignExtend32, Plus;
    if mod == 0 {
      if baseField == 5 && !i.rexB {
        var displacement;
        ok, displacement := c.ReadI32(displacementAddress);
        if !ok {
          return;
        }
        next := Plus(displacementAddress, 4);
        address := Plus(0, scaled + displacement);
        return;
      }
      next := displacementAddress;
      address := Plus(c.registers[Field(baseField, i.rexB)], scaled);
      return;
    }
    var displacement: int;
    if mod == 1 {
      ok, displacement := c.ReadI8(displacementAddress);
      next := Plus(displacementAddress, 1);
    } else {
      ok, displacement := c.ReadI32(displacementAddress);
      next := Plus(displacementAddress, 4);
    }
    if !ok {
      return;
    }
    address := Plus(c.registers[Field(baseField, i.rexB)], scaled + displacement);
  }

  method TryDecodeModrmOperand(c: ExecutionContext, i: Instruction, a: u64) returns (ok: bool, operand: ModrmOperand)
    requires c.Valid()
    modifies c`report
    ensures var m := old(c.State());
            var op := DecodeOperand(m.guest, i, a);
            if ok then c.State() == m && Answers(m.guest, i, a, operand)
            else op.Unreadable? && c.State() == Faulted(m, op.fault)
  {
    ghost var g := c.State().guest;
    hide DecodeOperand, WithDisplacement, Word, SignExtend8, SignExtend32;
    OperandCases(g, i, a);
    operand := ModrmOperand(0, 0, false, 0, 0);
    var modrm;
    ok, modrm := c.ReadU8(a);
    if !ok {
      return;
    }
    var mod, rm := Mod(modrm), RmBits(modrm);
    var rmIndex := Rm(i, modrm);
    operand := ModrmOperand(Reg(i, modrm), rmIndex, mod == 3, 0, Plus(a, 1));
    if mod == 3 {
      return;
    }
    if rm == 4 {
      var address, next;
      ok, address, next := TryReadSibOperandAddress(c, i, a, mod);
      operand := operand.(rmAddress := address, next := next);
      return;
    }
    var displacementAddress := Plus(a, 1);
    DisplacementCases(g, i, mod, rm, displacementAddress, 0, false);
    FiveOn(a);
    hide Plus;
    if mod == 0 {
      if rm == 5 && !i.rexB {
        var displacement;
        ok, displacement := c.ReadI32(displacementAddress);
        if ok {
          operand := operand.(next := Plus(a, 5));
          operand := operand.(rmAddress := Plus(operand.next, displacement));
        }
        return;
      }
      operand := operand.(rmAddress := Plus(c.registers[rmIndex], 0));
      return;
    }
    var displacement;
    if mod == 1 {
      ok, displacement := c.ReadI8(displacementAddress);
      operand := operand.(next := Plus(a, 2));
    } else {
      ok, displacement := c.ReadI32(displacementAddress);
      operand := operand.(next := Plus(a, 5));
    }
    operand := operand.(rmAddress := Plus(c.registers[rmIndex], displacement));
  }

  method TryReadSimdOperand(c: ExecutionContext, operand: ModrmOperand) returns (ok: bool, value: Vector)
    requires c.Valid()
    modifies c`report
    ensures var m := old(c.State());
            var r := RmVector(m.guest, OperandOf(operand));
            if ok then c.State() == m && r == Some(value)
            else !operand.rmIsRegister && r == None && c.State() == Faulted(m, operand.rmAddress)
  {
    if operand.rmIsRegister {
      return true, c.vectors[operand.rmIndex];
    }
    ok, value := c.ReadU128(operand.rmAddress);
  }

  method TryReadRm32Operand(c: ExecutionContext, operand: ModrmOperand) returns (ok: bool, value: u32)
    requires c.Valid()
    modifies c`report
    ensures var m := old(c.State());
            var r := RmValue(m.guest, OperandOf(operand), false);
            if ok then c.State() == m && r == Some(value)
            else !operand.rmIsRegister && r == None && c.State() == Faulted(m, operand.rmAddress)
  {
    hide Word, Readable;
    if operand.rmIsRegister {
      return true, Low32(c.registers[operand.rmIndex]);
    }
    ok, value := c.ReadU32(operand.rmAddress);
  }

  method ExecuteSecondaryMovXmm(c: ExecutionContext, i: Instruction) returns (outcome: Outcome)
    requires c.Valid()
    modifies c, c.vectors
    ensures Step(c.State(), outcome) == MovVector(old(c.State()), i)
  {
    hide DecodeOperand, RmVector;
    if i.prefix66 || i.prefixF2 || i.prefixF3 {
      c.SetUnsupportedInstruction(0x10);
      return StopRunning;
    }
    var ok, operand := TryDecodeModrmOperand(c, i, Wrap64(i.next + 1));
    if !ok {
      outcome := FailInvalidMemory(c);
      return;
    }
    var source;
    ok, source := TryReadSimdOperand(c, operand);
    if !ok {
      outcome := FailInvalidMemory(c);
      return;
    }
    c.PutVector(operand.regIndex, source);
    c.PutIp(operand.next);
    return ContinueRunning;
  }

  method ExecuteSecondaryStoreXmm(c: ExecutionContext, i: Instruction) returns (outcome: Outcome)
    requires c.Valid()
    modifies c, c.vectors, c.memory
    ensures Step(c.State(), outcome) == StoreVector(old(c.State()), i)
  {
    hide DecodeOperand, Overwrite;
    var ok, secondary := c.ReadU8(i.next);
    if !ok {
      outcome := FailInvalidMemory(c);
      return;
    }
    var isMovups := secondary == 0x11 && !i.prefix66 && !i.prefixF2 && !i.prefixF3;
    var isMovaps := secondary == 0x29 && !i.prefix66 && !i.prefixF2 && !i.prefixF3;
    var isMovdqu := secondary == 0x7F && i.prefixF3 && !i.prefix66 && !i.prefixF2;
    if !isMovups && !isMovaps && !isMovdqu {
      c.SetUnsupportedInstruction(secondary);
      return StopRunning;
    }
    var operand;
    ok, operand := TryDecodeModrmOperand(c, i, Wrap64(i.next + 1));
    if !ok {
      outcome := FailInvalidMemory(c);
      return;
    }
    if operand.rmIsRegister {
      c.PutVector(operand.rmIndex, c.vectors[operand.regIndex]);
    } else {
      ok := c.Write(operand.rmAddress, c.vectors[operand.regIndex]);
      if !ok {
        outcome := FailInvalidMemory(c);
        return;
      }
    }
    c.PutIp(operand.next);
    return ContinueRunning;
  }

  /** The byte loop of XORPS on a destination register. */
  method XorInto(c: ExecutionContext, r: Index, source: Vector)
    requires c.Valid()
    modifies c.vectors
    ensures c.State() == old(c.State()).(guest := SetVector(old(c.State()).guest, r, XorVectors(old(c.vectors[r]), source)))
  {
    hide Xor8;
    var before := c.vectors[r];
    var bytes: seq<u8> := before;
    for index := 0 to 16
      invariant |bytes| == 16
      invariant forall k :: 0 <= k < 16 ==> bytes[k] == if k < index then Xor8(before[k], source[k]) else before[k]
    {
      bytes := bytes[index := Xor8(bytes[index], source[index])];
    }
    assert bytes == XorVectors(before, source);
    c.PutVector(r, bytes);
  }

  method ExecuteSecondaryXorps(c: ExecutionContext, i: Instruction) returns (outcome: Outcome)
    requires c.Valid()
    modifies c, c.vectors
    ensures Step(c.State(), outcome) == XorVector(old(c.State()), i)
  {
    hide DecodeOperand, RmVector, XorVectors;
    if i.prefix66 || i.prefixF2 || i.prefixF3 {
      c.SetUnsupportedInstruction(0x57);
      return StopRunning;
    }
    var ok, operand := TryDecodeModrmOperand(c, i, Wrap64(i.next + 1));
    if !ok {
      outcome := FailInvalidMemory(c);
      return;
    }
    var source;
    ok, source := TryReadSimdOperand(c, operand);
    if !ok {
      outcome := FailInvalidMemory(c);
      return;
    }
    XorInto(c, operand.regIndex, source);
    c.PutIp(operand.next);
    return ContinueRunning;
  }

  /** zero_simd_register. */
  method ZeroVector() returns (v: Vector)
    ensures v == ZERO_VECTOR
  {
    var bytes := new u8[16];
    for index := 0 to 16
      invariant forall k :: 0 <= k < index ==> bytes[k] == 0
    {
      bytes[index] := 0;
    }
    v := bytes[..];
  }

  method ExecuteSecondaryMovd(c: ExecutionContext, i: Instruction) returns (outcome: Outcome)
    requires c.Valid()
    modifies c, c.vectors
    ensures Step(c.State(), outcome) == MovDword(old(c.State()), i)
  {
    hide DecodeOperand, RmValue, LittleEndian;
    if !i.prefix66 || i.prefixF2 || i.prefixF3 {
      c.SetUnsupportedInstruction(0x6E);
      return StopRunning;
    }
    var ok, operand := TryDecodeModrmOperand(c, i, Wrap64(i.next + 1));
    if !ok {
      outcome := FailInvalidMemory(c);
      return;
    }
    var source;
    ok, source := TryReadRm32Operand(c, operand);
    if !ok {
      outcome := FailInvalidMemory(c);
      return;
    }
    var zero := ZeroVector();
    c.PutVector(operand.regIndex, LittleEndian(source, 4) + zero[4..]);
    c.PutIp(operand.next);
    return ContinueRunning;
  }

  /** The byte loop of PUNPCKLBW. */
  method Interleave(x: Vector, y: Vector) returns (v: Vector)
    ensures v == Interleaved(x, y)
  {
    var bytes := new u8[16];
    for index := 0 to 8
      invariant forall k :: 0 <= k < 2 * index ==> bytes[k] == if k % 2 == 0 then x[k / 2] else y[k / 2]
    {
      bytes[index * 2] := x[index];
      bytes[index * 2 + 1] := y[index];
    }
    v := bytes[..];
  }

  method ExecuteSecondaryPunpcklbw(c: ExecutionContext, i: Instruction) returns (outcome: Outcome)
    requires c.Valid()
    modifies c, c.vectors
    ensures Step(c.State(), outcome) == UnpackBytes(old(c.State()), i)
  {
    hide DecodeOperand, RmVector, Interleaved;
    if !i.prefix66 || i.prefixF2 || i.prefixF3 {
      c.SetUnsupportedInstruction(0x60);
      return StopRunning;
    }
    var ok, operand := TryDecodeModrmOperand(c, i, Wrap64(i.next + 1));
    if !ok {
      outcome := FailInvalidMemory(c);
      return;
    }
    var source;
    ok, source := TryReadSimdOperand(c, operand);
    if !ok {
      outcome := FailInvalidMemory(c);
      return;
    }
    var result := Interleave(c.vectors[operand.regIndex], source);
    c.PutVector(operand.regIndex, result);
    c.PutIp(operand.next);
    return ContinueRunning;
  }

  /** The element loop of PSHUFD. */
  method ShuffleDwords(v: Vector, immediate: u8) returns (result: Vector)
    ensures result == ShuffledDwords(v, immediate)
  {
    ghost var goal := ShuffledDwords(v, immediate);
    hide Selector;
    var bytes := new u8[16](k requires 0 <= k < 16 => v[k]);
    for index := 0 to 4
      invariant forall k :: 0 <= k < 4 * index ==> bytes[k] == goal[k]
    {
      var source, at := Selector(immediate, index) * 4, index * 4;
      assert goal[at] == v[source] && goal[at + 1] == v[source + 1];
      assert goal[at + 2] == v[source + 2] && goal[at + 3] == v[source + 3];
      bytes[at] := v[source];
      bytes[at + 1] := v[source + 1];
      bytes[at + 2] := v[source + 2];
      bytes[at + 3] := v[source + 3];
    }
    assert bytes[..] == goal;
    result := bytes[..];
  }

  lemma LowWord(v: Vector, immediate: u8, index: int)
    requires 0 <= index < 4
    ensures ShuffledLowWords(v, immediate)[2 * index] == v[Selector(immediate, index) * 2]
    ensures ShuffledLowWords(v, immediate)[2 * index + 1] == v[Selector(immediate, index) * 2 + 1]
  {
    hide Selector;
    assert 2 * index / 2 == index && (2 * index + 1) / 2 == index;
  }

  lemma HighHalf(v: Vector, immediate: u8, k: int)
    requires 8 <= k < 16
    ensures ShuffledLowWords(v, immediate)[k] == v[k]
  {
  }

  /** The element loop of PSHUFLW. */
  method ShuffleLowWords(v: Vector, immediate: u8) returns (result: Vector)
    ensures result == ShuffledLowWords(v, immediate)
  {
    ghost var goal := ShuffledLowWords(v, immediate);
    hide Selector, ShuffledLowWords;
    var bytes := new u8[16](k requires 0 <= k < 16 => v[k]);
    for index := 0 to 4
      invariant forall k :: 0 <= k < 2 * index ==> bytes[k] == goal[k]
      invariant forall k :: 8 <= k < 16 ==> bytes[k] == v[k]
    {
      var source, at := Selector(immediate, index) * 2, 2 * index;
      LowWord(v, immediate, index);
      bytes[at] := v[source];
      bytes[at + 1] := v[source + 1];
    }
    forall k | 8 <= k < 16 ensures bytes[k] == goal[k] {
      HighHalf(v, immediate, k);
    }
    result := bytes[..];
  }

  method ExecuteSecondaryShuffle(c: ExecutionContext, i: Instruction) returns (outcome: Outcome)
    requires c.Valid()
    modifies c, c.vectors
    ensures Step(c.State(), outcome) == Shuffle(old(c.State()), i)
  {
    hide DecodeOperand, RmVector, ShuffledDwords, ShuffledLowWords;
    var isPshufd := i.prefix66 && !i.prefixF2 && !i.prefixF3;
    var isPshuflw := i.prefixF2 && !i.prefix66 && !i.prefixF3;
    if !isPshufd && !isPshuflw {
      c.SetUnsupportedInstruction(0x70);
      return StopRunning;
    }
    var ok, operand := TryDecodeModrmOperand(c, i, Wrap64(i.next + 1));
    if !ok {
      outcome := FailInvalidMemory(c);
      return;
    }
    var immediate;
    ok, immediate := c.ReadU8(operand.next);
    if !ok {
      outcome := FailInvalidMemory(c);
      return;
    }
    var source;
    ok, source := TryReadSimdOperand(c, operand);
    if !ok {
      outcome := FailInvalidMemory(c);
      return;
    }
    var result;
    if isPshufd {
      result := ShuffleDwords(source, immediate);
    } else {
      result := ShuffleLowWords(source, immediate);
    }
    c.PutVector(operand.regIndex, result);
    c.PutIp(Wrap64(operand.next + 1));
    return ContinueRunning;
  }

  method ExecuteSecondaryMovqStore(c: ExecutionContext, i: Instruction) returns (outcome: Outcome)
    requires c.Valid()
    modifies c, c.memory
    ensures Step(c.State(), outcome) == StoreLowQword(old(c.State()), i)
  {
    hide DecodeOperand, Overwrite;
    if !i.prefix66 || i.prefixF2 || i.prefixF3 {
      c.SetUnsupportedInstruction(0xD6);
      return StopRunning;
    }
    var ok, operand := TryDecodeModrmOperand(c, i, Wrap64(i.next + 1));
    if !ok {
      outcome := FailInvalidMemory(c);
      return;
    }
    if operand.rmIsRegister {
      c.SetUnsupportedInstruction(0xD6);
      return StopRunning;
    }
    ok := c.Write(operand.rmAddress, c.vectors[operand.regIndex][..8]);
    if !ok {
      outcome := FailInvalidMemory(c);
      return;
    }
    c.PutIp(operand.next);
    return ContinueRunning;
  }
}
