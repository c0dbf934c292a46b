/**
 What each x64 instruction of the emulator does, as a function of the machine and the decoded instruction: operand
 decoding, the handlers of both opcode tables, prefix decoding, dispatch, and the run loop with its budget.
 */
module X64Instructions {
  import opened Words
  import opened X64Machine

  // ----- Operands -----

  /** Where a ModRM operand lives and where the bytes after it start, or the first encoding byte that could not be
      read. */
  datatype Operand = Unreadable(fault: u64) | InRegister(index: Index, next: u64) | InMemory(address: u64, next: u64)

  /** Effective addresses in the form of the Intel SDM, volume 2A, section 2.1.5: base + index * scale + displacement,
      where mod 0 with base field 5 means a 32-bit displacement, without base after a SIB byte and otherwise relative to
      the byte behind the displacement. The emulator drops that special case when REX.B is set. */
  function DecodeOperand(g: Guest, i: Instruction, a: u64): Operand {
    if !Readable(g, a, 1) then Unreadable(a)
    else
      var modrm := g.memory[a - g.base];
      if Mod(modrm) == 3 then InRegister(Rm(i, modrm), Wrap64(a + 1))
      else if RmBits(modrm) == 4 then
        var s := Wrap64(a + 1);
        if !Readable(g, s, 1) then Unreadable(s)
        else
          var sib := g.memory[s - g.base];
          WithDisplacement(g, i, Mod(modrm), sib % 8, Wrap64(a + 2), IndexValue(g, i, sib), true)
      else WithDisplacement(g, i, Mod(modrm), RmBits(modrm), Wrap64(a + 1), 0, false)
  }

  function IndexValue(g: Guest, i: Instruction, sib: u8): nat {
    var field := sib / 8 % 8;
    if field != 4 || i.rexX then g.registers[Field(field, i.rexX)] * Scale(sib) else 0
  }

  function Scale(sib: u8): nat {
    match sib / 64
    case 0 => 1
    case 1 => 2
    case 2 => 4
    case _ => 8
  }

  /** mod 0 with base field 5: no base register. */
  predicate NoBase(i: Instruction, mod: int, base: int) {
    mod == 0 && base == 5 && !i.rexB
  }

  function DisplacementSize(i: Instruction, mod: int, base: int): (n: nat)
    ensures n in {0, 1, 4}
  {
    if mod == 1 then 1 else if mod == 2 || NoBase(i, mod, base) then 4 else 0
  }

  function Displacement(g: Guest, d: u64, n: nat): int
    requires n in {0, 1, 4} && (n != 0 ==> Readable(g, d, n))
  {
    if n == 0 then 0 else if n == 1 then SignExtend8(g.memory[d - g.base]) else SignExtend32(Word(g, d, 4))
  }

  function WithDisplacement(g: Guest, i: Instruction, mod: int, base: int, d: u64, index: nat, sib: bool): Operand
    requires 0 <= base < 8
  {
    var n := DisplacementSize(i, mod, base);
    if n != 0 && !Readable(g, d, n) then Unreadable(d)
    else
      var next := Wrap64(d + n);
      var b := if NoBase(i, mod, base) then (if sib then 0 else next) else g.registers[Field(base, i.rexB)];
      InMemory(Wrap64(b + index + Displacement(g, d, n)), next)
  }

  /** DecodeOperand without a SIB byte. */
  lemma OperandCases(g: Guest, i: Instruction, a: u64)
    ensures !Readable(g, a, 1) ==> DecodeOperand(g, i, a) == Unreadable(a)
    ensures Readable(g, a, 1) ==>
              var modrm := g.memory[a - g.base];
              && (Mod(modrm) == 3 ==> DecodeOperand(g, i, a) == InRegister(Rm(i, modrm), Plus(a, 1)))
              && (Mod(modrm) != 3 && RmBits(modrm) != 4 ==>
                   DecodeOperand(g, i, a) == WithDisplacement(g, i, Mod(modrm), RmBits(modrm), Plus(a, 1), 0, false))
  {
    hide WithDisplacement, IndexValue;
  }

  /** WithDisplacement, case by case, as the emulator's decoders go through it. */
  lemma DisplacementCases(g: Guest, i: Instruction, mod: int, base: int, d: u64, index: nat, sib: bool)
    requires 0 <= base < 8 && 0 <= mod < 3
    ensures var r := g.registers[Field(base, i.rexB)];
            WithDisplacement(g, i, mod, base, d, index, sib) ==
            if mod == 1 then
              if !Readable(g, d, 1) then Unreadable(d)
              else InMemory(Plus(r, index + SignExtend8(g.memory[d - g.base])), Plus(d, 1))
            else if mod == 2 then
              if !Readable(g, d, 4) then Unreadable(d)
              else InMemory(Plus(r, index + SignExtend32(Word(g, d, 4))), Plus(d, 4))
            else if NoBase(i, mod, base) then
              if !Readable(g, d, 4) then Unreadable(d)
              else InMemory(Plus(if sib then 0 else Plus(d, 4), index + SignExtend32(Word(g, d, 4))), Plus(d, 4))
            else InMemory(Plus(r, index), d)
  {
    hide Word, SignExtend8, SignExtend32;
  }

  function RmValue(g: Guest, op: Operand, wide: bool): Option<u64>
    requires !op.Unreadable?
  {
    if op.InRegister? then Some(Register(g, op.index, wide))
    else
      var n := if wide then 8 else 4;
      if Readable(g, op.address, n) then Some(Word(g, op.address, n)) else None
  }

  function StoreRm(g: Guest, op: Operand, value: u64, wide: bool): (r: Guest)
    requires !op.Unreadable? && (op.InMemory? ==> Readable(g, op.address, if wide then 8 else 4))
    ensures r == g.(registers := r.registers, memory := r.memory)
  {
    if op.InRegister? then SetRegister(g, op.index, value)
    else WriteBytes(g, op.address, LittleEndian(value, if wide then 8 else 4))
  }

  function RmByte(g: Guest, op: Operand): Option<u8>
    requires !op.Unreadable?
  {
    if op.InRegister? then Some(Low8(g.registers[op.index])) else ReadByte(g, op.address)
  }

  function RmVector(g: Guest, op: Operand): Option<Vector>
    requires !op.Unreadable?
  {
    if op.InRegister? then Some(g.vectors[op.index])
    else if Readable(g, op.address, 16) then Some(BytesAt(g, op.address, 16))
    else None
  }

  function SetVector(g: Guest, i: Index, v: Vector): Guest {
    g.(vectors := g.vectors[i := v])
  }

  /** The machine goes on with guest g at instruction pointer ip. */
  function Go(m: Machine, g: Guest, ip: u64): Step {
    Step(m.(guest := g.(ip := ip)), ContinueRunning)
  }

  function FaultAt(m: Machine, a: u64): Step { StopAt(Faulted(m, a)) }
  function Reject(m: Machine, opcode: u8): Step { StopAt(Unsupported(m, opcode)) }

  // ----- ALU (x64_alu_instructions.cpp) -----

  function XorRegister(m: Machine, i: Instruction): Step {
    if i.rexW then Reject(m, i.opcode)
    else
      match ReadByte(m.guest, i.next)
      case None => FaultAt(m, i.next)
      case Some(modrm) =>
        if Mod(modrm) != 3 then Reject(m, i.opcode)
        else
          var g, d := m.guest, Rm(i, modrm);
          var v := Xor32(Register(g, d, false), Register(g, Reg(i, modrm), false));
          Go(m, SetFlags(SetRegister(g, d, v), LogicFlags(g.flags, v, false)), Wrap64(i.next + 1))
  }

  function OrRegisterByte(m: Machine, i: Instruction): Step {
    match ReadByte(m.guest, i.next)
    case None => FaultAt(m, i.next)
    case Some(modrm) =>
      if Mod(modrm) != 3 then Reject(m, i.opcode)
      else
        var g, d := m.guest, Rm(i, modrm);
        var v := Or8(Low8(g.registers[d]), Low8(g.registers[Reg(i, modrm)]));
        Go(m, SetFlags(SetRegisterByte(g, d, v), LogicFlags(g.flags, v, false)), Wrap64(i.next + 1))
  }

  function OrRm(m: Machine, i: Instruction): Step {
    match ReadByte(m.guest, i.next)
    case None => FaultAt(m, i.next)
    case Some(modrm) =>
      var g, d, op := m.guest, Reg(i, modrm), DecodeOperand(m.guest, i, i.next);
      if op.Unreadable? then FaultAt(m, op.fault)
      else
        match RmValue(g, op, i.rexW)
        case None => FaultAt(m, op.address)
        case Some(rhs) =>
          var v := Or64(Register(g, d, i.rexW), rhs);
          Go(m, SetFlags(SetRegister(g, d, v), LogicFlags(g.flags, v, i.rexW)), op.next)
  }

  function TestRegister(m: Machine, i: Instruction): Step {
    match ReadByte(m.guest, i.next)
    case None => FaultAt(m, i.next)
    case Some(modrm) =>
      if Mod(modrm) != 3 then Reject(m, i.opcode)
      else
        var g := m.guest;
        var v := And64(Register(g, Rm(i, modrm), i.rexW), Register(g, Reg(i, modrm), i.rexW));
        Go(m, SetFlags(g, LogicFlags(g.flags, v, i.rexW)), Wrap64(i.next + 1))
  }

  function TestAccumulator(m: Machine, i: Instruction): Step {
    var g := m.guest;
    if !Readable(g, i.next, 4) then FaultAt(m, i.next)
    else
      var immediate := Word(g, i.next, 4);
      var mask := if i.rexW then Wrap64(SignExtend32(immediate)) else immediate;
      var v := And64(Register(g, RAX, i.rexW), mask);
      Go(m, SetFlags(g, LogicFlags(g.flags, v, i.rexW)), Wrap64(i.next + 4))
  }

  function GroupF6(m: Machine, i: Instruction): Step {
    var g, op := m.guest, DecodeOperand(m.guest, i, i.next);
    if op.Unreadable? then FaultAt(m, op.fault)
    else
      match ReadByte(g, op.next)
      case None => FaultAt(m, op.next)
      case Some(immediate) =>
        if RegBits(g.memory[i.next - g.base]) != 0 then Reject(m, i.opcode)
        else
          match RmByte(g, op)
          case None => FaultAt(m, op.address)
          case Some(lhs) =>
            Go(m, SetFlags(g, LogicFlags(g.flags, And8(lhs, immediate), false)), Wrap64(op.next + 1))
  }

  /** F7 /3: NEG. */
  function GroupF7(m: Machine, i: Instruction): Step {
    var g, op := m.guest, DecodeOperand(m.guest, i, i.next);
    if op.Unreadable? then FaultAt(m, op.fault)
    else if RegBits(g.memory[i.next - g.base]) != 3 then Reject(m, i.opcode)
    else
      match RmValue(g, op, i.rexW)
      case None => FaultAt(m, op.address)
      case Some(rhs) =>
        var v := (0 - rhs) % Width(i.rexW);
        Go(m, SetFlags(StoreRm(g, op, v, i.rexW), CompareFlags(g.flags, 0, rhs, v, i.rexW)), op.next)
  }

  /** ADD (0), SUB (5) and CMP (7) of an operand with an immediate of `size` bytes. */
  function GroupImmediate(m: Machine, i: Instruction, size: nat): Step
    requires size in {1, 4}
  {
    var g, op := m.guest, DecodeOperand(m.guest, i, i.next);
    if op.Unreadable? then FaultAt(m, op.fault)
    else if !Readable(g, op.next, size) then FaultAt(m, op.next)
    else
      var rhs := Displacement(g, op.next, size) % Width(i.rexW);
      var operation := RegBits(g.memory[i.next - g.base]);
      match RmValue(g, op, i.rexW)
      case None => FaultAt(m, op.address)
      case Some(lhs) =>
        var next := Wrap64(op.next + size);
        if operation == 0 then
          var sum := (lhs + rhs) % Width(i.rexW);
          Go(m, SetFlags(StoreRm(g, op, sum, i.rexW), AddFlags(g.flags, lhs, rhs, sum, i.rexW)), next)
        else
          var difference := (lhs - rhs) % Width(i.rexW);
          var flags := CompareFlags(g.flags, lhs, rhs, difference, i.rexW);
          if operation == 5 then Go(m, SetFlags(StoreRm(g, op, difference, i.rexW), flags), next)
          else if operation == 7 then Go(m, SetFlags(g, flags), next)
          else Reject(m, i.opcode)
  }

  function CompareRm(m: Machine, i: Instruction): Step {
    match ReadByte(m.guest, i.next)
    case None => FaultAt(m, i.next)
    case Some(modrm) =>
      var g, op := m.guest, DecodeOperand(m.guest, i, i.next);
      if op.Unreadable? then FaultAt(m, op.fault)
      else
        match RmValue(g, op, i.rexW)
        case None => FaultAt(m, op.address)
        case Some(lhs) =>
          var rhs := Register(g, Reg(i, modrm), i.rexW);
          Go(m, SetFlags(g, CompareFlags(g.flags, lhs, rhs, (lhs - rhs) % Width(i.rexW), i.rexW)), op.next)
  }

  // ----- Data movement (x64_data_movement_instructions.cpp) -----

  function MovImmediate32(m: Machine, i: Instruction): Step
    requires 0xB8 <= i.opcode <= 0xBF
  {
    if i.rexW then Reject(m, i.opcode)
    else if !Readable(m.guest, i.next, 4) then FaultAt(m, i.next)
    else Go(m, SetRegister(m.guest, Field(i.opcode - 0xB8, i.rexB), Word(m.guest, i.next, 4)), Wrap64(i.next + 4))
  }

  function MovImmediateToRm(m: Machine, i: Instruction): Step {
    match ReadByte(m.guest, i.next)
    case None => FaultAt(m, i.next)
    case Some(modrm) =>
      if RegBits(modrm) != 0 then Reject(m, i.opcode)
      else
        var g, op := m.guest, DecodeOperand(m.guest, i, i.next);
        if op.Unreadable? then FaultAt(m, op.fault)
        else if !Readable(g, op.next, 4) then FaultAt(m, op.next)
        else
          var immediate := Word(g, op.next, 4);
          var value := if i.rexW then Wrap64(SignExtend32(immediate)) else immediate;
          if op.InMemory? && !Readable(g, op.address, if i.rexW then 8 else 4) then FaultAt(m, op.address)
          else Go(m, StoreRm(g, op, value, i.rexW), Wrap64(op.next + 4))
  }

  /** 89 (register to operand) and 8B (operand to register). */
  function MovRegister(m: Machine, i: Instruction): Step
    requires i.opcode == 0x89 || i.opcode == 0x8B
  {
    match ReadByte(m.guest, i.next)
    case None => FaultAt(m, i.next)
    case Some(modrm) =>
      var g, r, op := m.guest, Reg(i, modrm), DecodeOperand(m.guest, i, i.next);
      if op.Unreadable? then FaultAt(m, op.fault)
      else if op.InMemory? && !Readable(g, op.address, if i.rexW then 8 else 4) then FaultAt(m, op.address)
      else if i.opcode == 0x89 then Go(m, StoreRm(g, op, Register(g, r, i.rexW), i.rexW), op.next)
      else Go(m, SetRegister(g, r, RmValue(g, op, i.rexW).value), op.next)
  }

  function Lea(m: Machine, i: Instruction): Step {
    match ReadByte(m.guest, i.next)
    case None => FaultAt(m, i.next)
    case Some(modrm) =>
      var op := DecodeOperand(m.guest, i, i.next);
      match op
      case Unreadable(a) => FaultAt(m, a)
      case InRegister(_, _) => Reject(m, i.opcode)
      case InMemory(a, next) => Go(m, SetRegister(m.guest, Reg(i, modrm), Masked(a, i.rexW)), next)
  }

  /** 80 /7: byte compare, with the 32-bit flag rules. */
  function Group80(m: Machine, i: Instruction): Step {
    match ReadByte(m.guest, i.next)
    case None => FaultAt(m, i.next)
    case Some(modrm) =>
      if RegBits(modrm) != 7 then Reject(m, i.opcode)
      else
        var g, op := m.guest, DecodeOperand(m.guest, i, i.next);
        if op.Unreadable? then FaultAt(m, op.fault)
        else
          match RmByte(g, op)
          case None => FaultAt(m, op.address)
          case Some(lhs) =>
            match ReadByte(g, op.next)
            case None => FaultAt(m, op.next)
            case Some(immediate) =>
              Go(m, SetFlags(g, CompareFlags(g.flags, lhs, immediate, (lhs - immediate) % 0x100, false)), Wrap64(op.next + 1))
  }

  function SetCondition(m: Machine, i: Instruction): Step {
    var at := Wrap64(i.next + 1);
    match ReadByte(m.guest, i.next)
    case None => FaultAt(m, i.next)
    case Some(opcode) =>
      match ReadByte(m.guest, at)
      case None => FaultAt(m, at)
      case Some(modrm) =>
        if Mod(modrm) != 3 || (opcode != 0x94 && opcode != 0x95) then Reject(m, opcode)
        else
          var condition := Has(m.guest.flags, ZERO) == (opcode == 0x94);
          Go(m, SetRegisterByte(m.guest, Rm(i, modrm), if condition then 1 else 0), Wrap64(i.next + 2))
  }

  function MovZeroExtendByte(m: Machine, i: Instruction): Step {
    var at := Wrap64(i.next + 1);
    match ReadByte(m.guest, at)
    case None => FaultAt(m, at)
    case Some(modrm) =>
      var g, op := m.guest, DecodeOperand(m.guest, i, at);
      if op.Unreadable? then FaultAt(m, op.fault)
      else
        match RmByte(g, op)
        case None => FaultAt(m, op.address)
        case Some(value) => Go(m, SetRegister(g, Reg(i, modrm), value), op.next)
  }

  function Nop(m: Machine, i: Instruction): Step {
    if i.rexW then Reject(m, i.opcode) else ContinueAt(m, i.next)
  }

  // ----- Control flow and stack -----

  function Return(m: Machine, i: Instruction): Step {
    if i.rexW then Reject(m, i.opcode)
    else
      var g, sp := m.guest, m.guest.registers[RSP];
      if !Readable(g, sp, 8) then FaultAt(m, sp)
      else Go(m, SetRegister(g, RSP, StackAt(g, 8)), Word(g, sp, 8))
  }

  /** A push and then a jump. */
  function PushThenGo(m: Machine, value: u64, ip: u64): Step {
    var pushed := Push(m, value);
    if pushed.outcome == ContinueRunning then ContinueAt(pushed.machine, ip) else pushed
  }

  function CallRelative(m: Machine, i: Instruction): Step {
    if i.rexW then Reject(m, i.opcode)
    else if !Readable(m.guest, i.next, 4) then FaultAt(m, i.next)
    else
      var returnAddress := Wrap64(i.next + 4);
      PushThenGo(m, returnAddress, Wrap64(returnAddress + SignExtend32(Word(m.guest, i.next, 4))))
  }

  function SteppedByOne(g: Guest, r: Index, decrement: bool, wide: bool): (g': Guest)
    ensures Reserves(g'.flags)
    ensures g' == g.(registers := g'.registers, flags := g'.flags)
  {
    var lhs := Register(g, r, wide);
    var v := (if decrement then lhs - 1 else lhs + 1) % Width(wide);
    SetFlags(SetRegister(g, r, v), IncDecFlags(g.flags, lhs, v, decrement, wide))
  }

  /** FF: INC (0) and DEC (1) of a register, and CALL (2) through a register or a RIP-relative slot. */
  function GroupFF(m: Machine, i: Instruction): Step {
    match ReadByte(m.guest, i.next)
    case None => FaultAt(m, i.next)
    case Some(modrm) =>
      var g, operation, rm := m.guest, RegBits(modrm), Rm(i, modrm);
      if operation == 0 || operation == 1 then
        if Mod(modrm) != 3 then Reject(m, i.opcode)
        else Go(m, SteppedByOne(g, rm, operation == 1, i.rexW), Wrap64(i.next + 1))
      else if operation != 2 then Reject(m, i.opcode)
      else if Mod(modrm) == 3 then PushThenGo(m, Wrap64(i.next + 1), g.registers[rm])
      else if Mod(modrm) == 0 && RmBits(modrm) == 5 && !i.rexB then
        var at := Wrap64(i.next + 1);
        if !Readable(g, at, 4) then FaultAt(m, at)
        else
          var slot := Wrap64(i.next + 5 + SignExtend32(Word(g, at, 4)));
          if !Readable(g, slot, 8) then FaultAt(m, slot)
          else PushThenGo(m, Wrap64(i.next + 5), Word(g, slot, 8))
      else Reject(m, i.opcode)
  }

  function JumpNear(m: Machine, i: Instruction): Step {
    if i.rexW then Reject(m, i.opcode)
    else if !Readable(m.guest, i.next, 4) then FaultAt(m, i.next)
    else ContinueAt(m, Wrap64(i.next + 4 + SignExtend32(Word(m.guest, i.next, 4))))
  }

  function JumpShort(m: Machine, i: Instruction): Step {
    if i.rexW then Reject(m, i.opcode)
    else
      match ReadByte(m.guest, i.next)
      case None => FaultAt(m, i.next)
      case Some(d) => ContinueAt(m, Wrap64(i.next + 1 + SignExtend8(d)))
  }

  function JumpShortCondition(m: Machine, i: Instruction): Step {
    if i.rexW then Reject(m, i.opcode)
    else
      match ReadByte(m.guest, i.next)
      case None => FaultAt(m, i.next)
      case Some(d) =>
        var taken := Has(m.guest.flags, ZERO) == (i.opcode == 0x74);
        ContinueAt(m, Wrap64(i.next + 1 + if taken then SignExtend8(d) else 0))
  }

  function JumpNearCondition(m: Machine, i: Instruction): Step {
    var at := Wrap64(i.next + 1);
    match ReadByte(m.guest, i.next)
    case None => FaultAt(m, i.next)
    case Some(opcode) =>
      if !Readable(m.guest, at, 4) then FaultAt(m, at)
      else
        var taken := Has(m.guest.flags, ZERO) == (opcode == 0x84);
        ContinueAt(m, Wrap64(i.next + 5 + if taken then SignExtend32(Word(m.guest, at, 4)) else 0))
  }

  function PushRegister(m: Machine, i: Instruction): Step
    requires 0x50 <= i.opcode <= 0x57
  {
    if i.rexW then Reject(m, i.opcode)
    else PushThenGo(m, m.guest.registers[Field(i.opcode - 0x50, i.rexB)], i.next)
  }

  function PopRegister(m: Machine, i: Instruction): Step
    requires 0x58 <= i.opcode <= 0x5F
  {
    if i.rexW then Reject(m, i.opcode)
    else
      var g, sp := m.guest, m.guest.registers[RSP];
      if !Readable(g, sp, 8) then FaultAt(m, sp)
      else
        Go(m, SetRegister(SetRegister(g, RSP, StackAt(g, 8)), Field(i.opcode - 0x58, i.rexB), Word(g, sp, 8)),
           i.next)
  }

  // ----- SIMD (x64_simd_instructions.cpp) -----

  predicate NoPrefix(i: Instruction) { !i.prefix66 && !i.prefixF2 && !i.prefixF3 }
  predicate Only66(i: Instruction) { i.prefix66 && !i.prefixF2 && !i.prefixF3 }
  predicate OnlyF2(i: Instruction) { i.prefixF2 && !i.prefix66 && !i.prefixF3 }
  predicate OnlyF3(i: Instruction) { i.prefixF3 && !i.prefix66 && !i.prefixF2 }

  /** The register operand of the ModRM byte at the given, readable, address. */
  function RegAt(g: Guest, i: Instruction, a: u64): Index
    requires Readable(g, a, 1)
  {
    Reg(i, g.memory[a - g.base])
  }

  function MovVector(m: Machine, i: Instruction): Step {
    var g, at := m.guest, Wrap64(i.next + 1);
    var op := DecodeOperand(g, i, at);
    if !NoPrefix(i) then Reject(m, 0x10)
    else if op.Unreadable? then FaultAt(m, op.fault)
    else
      match RmVector(g, op)
      case None => FaultAt(m, op.address)
      case Some(v) => Go(m, SetVector(g, RegAt(g, i, at), v), op.next)
  }

  function StoreVector(m: Machine, i: Instruction): Step {
    var g, at := m.guest, Wrap64(i.next + 1);
    match ReadByte(g, i.next)
    case None => FaultAt(m, i.next)
    case Some(opcode) =>
      if !((opcode == 0x11 || opcode == 0x29) && NoPrefix(i)) && !(opcode == 0x7F && OnlyF3(i)) then Reject(m, opcode)
      else
        var op := DecodeOperand(g, i, at);
        match op
        case Unreadable(a) => FaultAt(m, a)
        case InRegister(r, next) => Go(m, SetVector(g, r, g.vectors[RegAt(g, i, at)]), next)
        case InMemory(a, next) =>
          if !Readable(g, a, 16) then FaultAt(m, a)
          else Go(m, WriteBytes(g, a, g.vectors[RegAt(g, i, at)]), next)
  }

  function XorVectors(x: Vector, y: Vector): Vector {
    seq(16, k requires 0 <= k < 16 => Xor8(x[k], y[k]))
  }

  function XorVector(m: Machine, i: Instruction): Step {
    var g, at := m.guest, Wrap64(i.next + 1);
    var op := DecodeOperand(g, i, at);
    if !NoPrefix(i) then Reject(m, 0x57)
    else if op.Unreadable? then FaultAt(m, op.fault)
    else
      match RmVector(g, op)
      case None => FaultAt(m, op.address)
      case Some(v) => Go(m, SetVector(g, RegAt(g, i, at), XorVectors(g.vectors[RegAt(g, i, at)], v)), op.next)
  }

  function MovDword(m: Machine, i: Instruction): Step {
    var g, at := m.guest, Wrap64(i.next + 1);
    var op := DecodeOperand(g, i, at);
    if !Only66(i) then Reject(m, 0x6E)
    else if op.Unreadable? then FaultAt(m, op.fault)
    else
      match RmValue(g, op, false)
      case None => FaultAt(m, op.address)
      case Some(v) => Go(m, SetVector(g, RegAt(g, i, at), LittleEndian(v, 4) + ZERO_VECTOR[4..]), op.next)
  }

  /** PUNPCKLBW: the low bytes of both vectors, alternating. */
  function Interleaved(x: Vector, y: Vector): Vector {
    seq(16, k requires 0 <= k < 16 => if k % 2 == 0 then x[k / 2] else y[k / 2])
  }

  function UnpackBytes(m: Machine, i: Instruction): Step {
    var g, at := m.guest, Wrap64(i.next + 1);
    var op := DecodeOperand(g, i, at);
    if !Only66(i) then Reject(m, 0x60)
    else if op.Unreadable? then FaultAt(m, op.fault)
    else
      match RmVector(g, op)
      case None => FaultAt(m, op.address)
      case Some(v) => Go(m, SetVector(g, RegAt(g, i, at), Interleaved(g.vectors[RegAt(g, i, at)], v)), op.next)
  }

  /** Two bits of a shuffle selector. */
  function Selector(immediate: u8, k: int): (s: int)
    requires 0 <= k < 4
    ensures 0 <= s < 4
  {
    (if k == 0 then immediate else if k == 1 then immediate / 4 else if k == 2 then immediate / 16 else immediate / 64) % 4
  }

  /** PSHUFD: four dwords, selected. */
  function ShuffledDwords(v: Vector, immediate: u8): Vector {
    seq(16, k requires 0 <= k < 16 => v[Selector(immediate, k / 4) * 4 + k % 4])
  }

  /** PSHUFLW: the four low words, selected; the high half is kept. */
  function ShuffledLowWords(v: Vector, immediate: u8): Vector {
    seq(8, k requires 0 <= k < 8 => v[Selector(immediate, k / 2) * 2 + k % 2]) + v[8..]
  }

  function Shuffle(m: Machine, i: Instruction): Step {
    var g, at := m.guest, Wrap64(i.next + 1);
    var op := DecodeOperand(g, i, at);
    if !Only66(i) && !OnlyF2(i) then Reject(m, 0x70)
    else if op.Unreadable? then FaultAt(m, op.fault)
    else
      match ReadByte(g, op.next)
      case None => FaultAt(m, op.next)
      case Some(immediate) =>
        match RmVector(g, op)
        case None => FaultAt(m, op.address)
        case Some(v) =>
          var result := if Only66(i) then ShuffledDwords(v, immediate) else ShuffledLowWords(v, immediate);
          Go(m, SetVector(g, RegAt(g, i, at), result), Wrap64(op.next + 1))
  }

  function StoreLowQword(m: Machine, i: Instruction): Step {
    var g, at := m.guest, Wrap64(i.next + 1);
    if !Only66(i) then Reject(m, 0xD6)
    else
      match DecodeOperand(g, i, at)
      case Unreadable(a) => FaultAt(m, a)
      case InRegister(_, _) => Reject(m, 0xD6)
      case InMemory(a, next) =>
        if !Readable(g, a, 8) then FaultAt(m, a)
        else Go(m, WriteBytes(g, a, g.vectors[RegAt(g, i, at)][..8]), next)
  }

  // ----- System (x64_system_instructions.cpp) -----

  function Syscall(m: Machine, i: Instruction, callback: Callback): Step {
    var shown := m.guest.(ip := Wrap64(i.next + 1));
    var calls := m.calls + [shown];
    var r := callback(calls);
    var m' := Machine(SetRegister(shown, RAX, SignExtend(r.status)), m.report, calls);
    match r.action
    case ExitGuest => Step(Exited(m'), RetireAndStop)
    case YieldGuest => Step(YieldedTo(m'), RetireAndStop)
    case ContinueGuest => Step(m', ContinueRunning)
  }

  function LongNop(m: Machine, i: Instruction): Step {
    var at := Wrap64(i.next + 1);
    match ReadByte(m.guest, at)
    case None => Reject(Faulted(m, at), 0x1F)
    case Some(modrm) =>
      if RegBits(modrm) != 0 then Reject(m, 0x1F)
      else
        var op := DecodeOperand(m.guest, i, at);
        if op.Unreadable? then Reject(Faulted(m, op.fault), 0x1F) else ContinueAt(m, op.next)
  }

  // ----- Dispatch (x64_instruction_dispatch.cpp) -----

  /** The table of two-byte opcodes. */
  function SecondaryHandler(m: Machine, opcode: u8, i: Instruction, callback: Callback): Step {
    if opcode == 0x10 then MovVector(m, i)
    else if opcode in {0x11, 0x29, 0x7F} then StoreVector(m, i)
    else if opcode == 0x05 then Syscall(m, i, callback)
    else if opcode == 0x84 || opcode == 0x85 then JumpNearCondition(m, i)
    else if opcode == 0x94 || opcode == 0x95 then SetCondition(m, i)
    else if opcode == 0xB6 then MovZeroExtendByte(m, i)
    else if opcode == 0x57 then XorVector(m, i)
    else if opcode == 0x60 then UnpackBytes(m, i)
    else if opcode == 0x6E then MovDword(m, i)
    else if opcode == 0x70 then Shuffle(m, i)
    else if opcode == 0xD6 then StoreLowQword(m, i)
    else if opcode == 0x1F then LongNop(m, i)
    else Reject(m, i.opcode)
  }

  function DispatchSecondary(m: Machine, i: Instruction, callback: Callback): Step {
    if i.rexW then Reject(m, i.opcode)
    else
      match ReadByte(m.guest, i.next)
      case None => StopAt(InvalidAccess(m, i.next, 0))
      case Some(opcode) => SecondaryHandler(SetFaultOpcode(m, opcode), opcode, i, callback)
  }

  /** The table of one-byte opcodes. */
  function DispatchPrimary(m: Machine, i: Instruction): Step {
    if i.opcode == 0x80 then Group80(m, i)
    else if i.opcode == 0x81 then GroupImmediate(m, i, 4)
    else if i.opcode == 0x08 then OrRegisterByte(m, i)
    else if i.opcode == 0x0B then OrRm(m, i)
    else if i.opcode == 0x89 || i.opcode == 0x8B then MovRegister(m, i)
    else if i.opcode == 0x39 then CompareRm(m, i)
    else if i.opcode == 0x31 then XorRegister(m, i)
    else if i.opcode == 0x85 then TestRegister(m, i)
    else if i.opcode == 0xA9 then TestAccumulator(m, i)
    else if i.opcode == 0x83 then GroupImmediate(m, i, 1)
    else if i.opcode == 0x8D then Lea(m, i)
    else if i.opcode == 0x90 then Nop(m, i)
    else if i.opcode == 0xC7 then MovImmediateToRm(m, i)
    else if i.opcode == 0xF6 then GroupF6(m, i)
    else if i.opcode == 0xF7 then GroupF7(m, i)
    else if i.opcode == 0xC3 then Return(m, i)
    else if i.opcode == 0xE8 then CallRelative(m, i)
    else if i.opcode == 0xE9 then JumpNear(m, i)
    else if i.opcode == 0xEB then JumpShort(m, i)
    else if i.opcode == 0x74 || i.opcode == 0x75 then JumpShortCondition(m, i)
    else if i.opcode == 0xFF then GroupFF(m, i)
    else if 0x50 <= i.opcode <= 0x57 then PushRegister(m, i)
    else if 0x58 <= i.opcode <= 0x5F then PopRegister(m, i)
    else if 0xB8 <= i.opcode <= 0xBF then MovImmediate32(m, i)
    else Reject(m, i.opcode)
  }

  function Dispatch(m: Machine, i: Instruction, callback: Callback): Step {
    var m' := SetFault(m, i);
    if i.opcode == 0x0F then DispatchSecondary(m', i, callback) else DispatchPrimary(m', i)
  }

  // ----- Prefixes (x64_decoder.cpp) -----

  datatype Decoded = Decoded(instruction: Instruction) | Undecodable(fault: u64)

  predicate IsPrefix(b: u8) {
    b in {0x66, 0xF2, 0xF3, 0x2E} || b / 16 == 4
  }

  /** The instruction with one more prefix byte taken in. A REX byte replaces what an earlier one said. */
  function WithPrefix(i: Instruction, b: u8): Instruction {
    if b == 0x66 then i.(prefix66 := true)
    else if b == 0xF2 then i.(prefixF2 := true)
    else if b == 0xF3 then i.(prefixF3 := true)
    else if b == 0x2E then i
    else i.(rexW := b / 8 % 2 == 1, rexR := b / 4 % 2 == 1, rexX := b / 2 % 2 == 1, rexB := b % 2 == 1)
  }

  function DecodeFrom(g: Guest, i: Instruction, at: u64): Decoded
    requires Readable(g, at, 1)
    decreases TWO_64 - at
  {
    var b := g.memory[at - g.base];
    if !IsPrefix(b) then Decoded(i.(opcode := b, next := Wrap64(at + 1)))
    else
      var after := Wrap64(at + 1);
      if Readable(g, after, 1) then DecodeFrom(g, WithPrefix(i, b), after) else Undecodable(after)
  }

  function Decode(g: Guest): Decoded {
    if !Readable(g, g.ip, 1) then Undecodable(g.ip)
    else DecodeFrom(g, Instruction(g.ip, 0, g.ip, false, false, false, false, false, false, false), g.ip)
  }

  // ----- The run loop (x64_interpreter.cpp) -----

  /** Decode one instruction and execute it. */
  function Execute(m: Machine, callback: Callback): Step {
    match Decode(m.guest)
    case Undecodable(a) => StopAt(InvalidAccess(m, a, 0))
    case Decoded(i) => Dispatch(m, i, callback)
  }

  datatype RunResult = RunResult(machine: Machine, retired: nat)

  /** The loop over any step, with `left` instructions to go. */
  function Loop(step: Machine -> Step, m: Machine, left: nat, retired: nat): RunResult
    decreases left
  {
    if left == 0 then RunResult(BackendFailed(m, FailureLimitReached), retired)
    else
      var s := step(m);
      match s.outcome
      case ContinueRunning => Loop(step, s.machine, left - 1, retired + 1)
      case RetireAndStop => RunResult(s.machine, retired + 1)
      case StopRunning => RunResult(s.machine, retired)
  }

  function Executor(callback: Callback): Machine -> Step {
    m => Execute(m, callback)
  }

  /** x64_interpreter::run on a valid invocation, for a handler that has already been shown `calls`. */
  function Run(g: Guest, calls: seq<Guest>, callback: Callback, budget: nat): RunResult {
    if budget == 0 then RunResult(BackendFailed(Initialized(g, calls), FailureInvalidArgument), 0)
    else Loop(Executor(callback), Initialized(g, calls), budget, 0)
  }
}
