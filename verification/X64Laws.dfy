/**
 What each instruction does, by opcode, over `Execute`: when it completes, and the guest it then leaves, in integers, bytes
 and bits. The laws name the decoded instruction, its operand and bytes of memory, and no function of the emulator's own
 handlers; an instruction that does not complete is covered by X64Properties.FaultPrecision.
 */
module X64Laws {
  import opened Words
  import opened X64Machine
  import opened X64Instructions
  import opened X64Flags
  import opened X64Manual

  /** The step completes with guest g. */
  predicate Becomes(s: Step, g: Guest) {
    s.outcome == ContinueRunning && s.machine.guest == g
  }

  predicate Stops(s: Step) {
    s.outcome == StopRunning
  }

  /** Execution dispatches the instruction that is encoded; the guest the handlers see is the machine's own. */
  lemma Dispatched(m: Machine, callback: Callback, i: Instruction) returns (m': Machine)
    requires Decode(m.guest) == Decoded(i)
    ensures m'.guest == m.guest && m'.calls == m.calls
    ensures i.opcode != 0x0F ==> Execute(m, callback) == DispatchPrimary(m', i)
    ensures i.opcode == 0x0F ==> Execute(m, callback) == DispatchSecondary(m', i, callback)
  {
    m' := SetFault(m, i);
    hide DispatchPrimary, DispatchSecondary, Decode;
  }

  /** The second opcode byte. */
  predicate Secondary(g: Guest, i: Instruction, opcode: u8) {
    i.opcode == 0x0F && !i.rexW && Inside(g, i.next, 1) && ByteAt(g, i.next, 0) == opcode
  }

  lemma DispatchedSecondary(m: Machine, callback: Callback, i: Instruction, opcode: u8) returns (m': Machine)
    requires Decode(m.guest) == Decoded(i) && Secondary(m.guest, i, opcode)
    ensures m'.guest == m.guest && m'.calls == m.calls
    ensures Execute(m, callback) == SecondaryHandler(m', opcode, i, callback)
  {
    m' := Dispatched(m, callback, i);
    m' := SetFaultOpcode(m', opcode);
    hide Execute, SecondaryHandler, Decode;
  }

  /** The handler of each one-byte opcode. */
  lemma PrimaryTable(m: Machine, i: Instruction)
    ensures var s := DispatchPrimary(m, i);
            && (i.opcode == 0x80 ==> s == Group80(m, i)) && (i.opcode == 0x81 ==> s == GroupImmediate(m, i, 4))
            && (i.opcode == 0x83 ==> s == GroupImmediate(m, i, 1)) && (i.opcode == 0x08 ==> s == OrRegisterByte(m, i))
            && (i.opcode == 0x0B ==> s == OrRm(m, i)) && (i.opcode in {0x89, 0x8B} ==> s == MovRegister(m, i))
            && (i.opcode == 0x39 ==> s == CompareRm(m, i)) && (i.opcode == 0x31 ==> s == XorRegister(m, i))
            && (i.opcode == 0x85 ==> s == TestRegister(m, i)) && (i.opcode == 0xA9 ==> s == TestAccumulator(m, i))
            && (i.opcode == 0x8D ==> s == Lea(m, i)) && (i.opcode == 0x90 ==> s == Nop(m, i))
            && (i.opcode == 0xC7 ==> s == MovImmediateToRm(m, i)) && (i.opcode == 0xF6 ==> s == GroupF6(m, i))
            && (i.opcode == 0xF7 ==> s == GroupF7(m, i)) && (i.opcode == 0xC3 ==> s == Return(m, i))
            && (i.opcode == 0xE8 ==> s == CallRelative(m, i)) && (i.opcode == 0xE9 ==> s == JumpNear(m, i))
            && (i.opcode == 0xEB ==> s == JumpShort(m, i)) && (i.opcode in {0x74, 0x75} ==> s == JumpShortCondition(m, i))
            && (i.opcode == 0xFF ==> s == GroupFF(m, i)) && (0x50 <= i.opcode <= 0x57 ==> s == PushRegister(m, i))
            && (0x58 <= i.opcode <= 0x5F ==> s == PopRegister(m, i))
            && (0xB8 <= i.opcode <= 0xBF ==> s == MovImmediate32(m, i))
            && (!KnownPrimary(i.opcode) ==> s == Reject(m, i.opcode))
  {
    hide Group80, GroupImmediate, OrRegisterByte, OrRm, MovRegister, CompareRm, XorRegister, TestRegister, TestAccumulator,
      Lea, Nop, MovImmediateToRm, GroupF6, GroupF7, Return, CallRelative, JumpNear, JumpShort, JumpShortCondition, GroupFF,
      PushRegister, PopRegister, MovImmediate32, Reject;
  }

  /** The handler of each two-byte opcode. */
  lemma SecondaryTable(m: Machine, opcode: u8, i: Instruction, callback: Callback)
    ensures var s := SecondaryHandler(m, opcode, i, callback);
            && (opcode == 0x10 ==> s == MovVector(m, i)) && (opcode in {0x11, 0x29, 0x7F} ==> s == StoreVector(m, i))
            && (opcode == 0x05 ==> s == Syscall(m, i, callback)) && (opcode in {0x84, 0x85} ==> s == JumpNearCondition(m, i))
            && (opcode in {0x94, 0x95} ==> s == SetCondition(m, i)) && (opcode == 0xB6 ==> s == MovZeroExtendByte(m, i))
            && (opcode == 0x57 ==> s == XorVector(m, i)) && (opcode == 0x60 ==> s == UnpackBytes(m, i))
            && (opcode == 0x6E ==> s == MovDword(m, i)) && (opcode == 0x70 ==> s == Shuffle(m, i))
            && (opcode == 0xD6 ==> s == StoreLowQword(m, i)) && (opcode == 0x1F ==> s == LongNop(m, i))
            && (!KnownSecondary(opcode) ==> s == Reject(m, i.opcode))
  {
    hide MovVector, StoreVector, Syscall, JumpNearCondition, SetCondition, MovZeroExtendByte, XorVector, UnpackBytes,
      MovDword, Shuffle, StoreLowQword, LongNop, Reject;
  }

  predicate KnownPrimary(opcode: u8) {
    || opcode in {0x08, 0x0B, 0x31, 0x39, 0x74, 0x75, 0x80, 0x81, 0x83, 0x85, 0x89, 0x8B, 0x8D, 0x90, 0xA9, 0xC3, 0xC7,
                  0xE8, 0xE9, 0xEB, 0xF6, 0xF7, 0xFF}
    || 0x50 <= opcode <= 0x5F || 0xB8 <= opcode <= 0xBF
  }

  predicate KnownSecondary(opcode: u8) {
    opcode in {0x05, 0x10, 0x11, 0x1F, 0x29, 0x57, 0x60, 0x6E, 0x70, 0x7F, 0x84, 0x85, 0x94, 0x95, 0xB6, 0xD6}
  }

  /** Every other opcode stops as unsupported. */
  lemma OthersStop(m: Machine, callback: Callback, i: Instruction)
    requires Decode(m.guest) == Decoded(i)
    requires if i.opcode != 0x0F then !KnownPrimary(i.opcode)
             else !i.rexW && Inside(m.guest, i.next, 1) && !KnownSecondary(ByteAt(m.guest, i.next, 0))
    ensures var s := Execute(m, callback);
            Stops(s) && s.machine.guest == m.guest && s.machine.report.completion == UnsupportedInstruction
  {
    var m' := Dispatched(m, callback, i);
    hide Execute, Decode, DispatchPrimary, SecondaryHandler, KnownPrimary, KnownSecondary;
    PrimaryTable(m', i);
    if i.opcode == 0x0F {
      var opcode := ByteAt(m.guest, i.next, 0);
      SecondaryTable(SetFaultOpcode(m', opcode), opcode, i, callback);
    }
  }

  // ----- Jumps -----

  /** JE and JNE, short: the jump is taken iff ZF is set (74) or clear (75), to the byte behind the instruction plus the
      signed displacement; nothing else of the guest changes. */
  lemma JumpsOnZero(m: Machine, callback: Callback, i: Instruction)
    requires Decode(m.guest) == Decoded(i) && i.opcode in {0x74, 0x75}
    ensures var s, g := Execute(m, callback), m.guest;
            if !i.rexW && Inside(g, i.next, 1) then
              var taken := if i.opcode == 0x74 then Zero(g.flags) else !Zero(g.flags);
              var d := TwosComplement(ByteAt(g, i.next, 0), 0x100);
              Becomes(s, g.(ip := Wrap64(i.next + 1 + if taken then d else 0)))
            else Stops(s)
  {
    hide Execute, Decode, DispatchPrimary;
    var m' := Dispatched(m, callback, i);
    PrimaryTable(m', i);
  }

  /** JE and JNE, near. */
  lemma JumpsNearOnZero(m: Machine, callback: Callback, i: Instruction, opcode: u8)
    requires Decode(m.guest) == Decoded(i) && Secondary(m.guest, i, opcode) && opcode in {0x84, 0x85}
    ensures var s, g, at := Execute(m, callback), m.guest, Wrap64(i.next + 1);
            if Inside(g, at, 4) then
              var taken := if opcode == 0x84 then Zero(g.flags) else !Zero(g.flags);
              var d := TwosComplement(DwordAt(g, at), 0x1_0000_0000);
              Becomes(s, g.(ip := Wrap64(i.next + 5 + if taken then d else 0)))
            else Stops(s)
  {
    hide Execute, Decode, SecondaryHandler, Word, DwordAt, Wrap64;
    var m' := DispatchedSecondary(m, callback, i, opcode);
    SecondaryTable(m', opcode, i, callback);
    WordIs(m.guest, Wrap64(i.next + 1));
  }

  // ----- Operands -----

  function Bytes(wide: bool): nat { if wide then 8 else 4 }

  /** The low n bytes of a register. */
  function Part(v: u64, n: nat): u64
    requires n in {1, 4, 8}
  {
    if n == 8 then v else if n == 4 then v % 0x1_0000_0000 else v % 0x100
  }

  /** The operand is a register or n bytes of guest memory. */
  predicate Accessible(g: Guest, op: Operand, n: nat) {
    !op.Unreadable? && (op.InMemory? ==> Inside(g, op.address, n))
  }

  function Value(g: Guest, op: Operand, n: nat): u64
    requires n in {1, 4, 8} && Accessible(g, op, n)
  {
    if op.InRegister? then Part(g.registers[op.index], n)
    else if n == 8 then QwordAt(g, op.address)
    else if n == 4 then DwordAt(g, op.address)
    else ByteAt(g, op.address, 0)
  }

  /** Guest g' is g with the value in the operand's n bytes; a register takes it whole. */
  ghost predicate Stored(g: Guest, g': Guest, op: Operand, n: nat, v: u64) {
    match op
    case Unreadable(_) => false
    case InRegister(r, _) => g' == g.(registers := g.registers[r := v])
    case InMemory(a, _) => WrittenAt(g, g', a, n) && n in {4, 8} && v == if n == 8 then QwordAt(g', a) else DwordAt(g', a)
  }

  /** No byte of guest memory outside the n bytes at a has changed. */
  ghost predicate WrittenAt(g: Guest, g': Guest, a: u64, n: nat) {
    && g' == g.(memory := g'.memory) && |g'.memory| == |g.memory| && Inside(g', a, n)
    && forall k :: 0 <= k < |g.memory| && !(a - g.base <= k < a - g.base + n) ==> g'.memory[k] == g.memory[k]
  }

  lemma WriteBytesIs(g: Guest, a: u64, v: u64, n: nat)
    requires n in {4, 8} && Inside(g, a, n) && (n == 4 ==> v < TWO_32)
    ensures var g' := WriteBytes(g, a, LittleEndian(v, n));
            WrittenAt(g, g', a, n) && v == if n == 8 then QwordAt(g', a) else DwordAt(g', a)
  {
    hide FromLittleEndian, LittleEndian, QwordAt, DwordAt, Pow256;
    var bytes := LittleEndian(v, n);
    var g' := WriteBytes(g, a, bytes);
    Pow256Values();
    LittleEndianRoundTrip(v, n);
    ReadsBack(g, a, bytes);
    WordIs(g', a);
  }

  lemma ReadsBack(g: Guest, a: u64, bytes: seq<u8>)
    requires Inside(g, a, |bytes|)
    ensures BytesAt(WriteBytes(g, a, bytes), a, |bytes|) == bytes
    ensures WrittenAt(g, WriteBytes(g, a, bytes), a, |bytes|)
  {
  }

  lemma RmValueIs(g: Guest, op: Operand, wide: bool)
    requires !op.Unreadable?
    ensures RmValue(g, op, wide) == if Accessible(g, op, Bytes(wide)) then Some(Value(g, op, Bytes(wide))) else None
  {
    if op.InMemory? {
      WordIs(g, op.address);
    }
    hide Word, QwordAt, DwordAt;
  }

  lemma RmByteIs(g: Guest, op: Operand)
    requires !op.Unreadable?
    ensures RmByte(g, op) == if Accessible(g, op, 1) then Some(Value(g, op, 1)) else None
  {
  }

  lemma StoreRmIs(g: Guest, op: Operand, v: u64, wide: bool)
    requires Accessible(g, op, Bytes(wide)) && v < Modulus(wide)
    ensures Stored(g, StoreRm(g, op, v, wide), op, Bytes(wide), v)
  {
    if op.InMemory? {
      WriteBytesIs(g, op.address, v, Bytes(wide));
    }
    hide WrittenAt, LittleEndian, WriteBytes, QwordAt, DwordAt;
  }

  /** Instruction pointer aside, and flags where they are the instruction's to set, the guest after the step is this one. */
  ghost predicate Stores(s: Step, g: Guest, op: Operand, n: nat, v: u64, ip: u64) {
    s.outcome == ContinueRunning && s.machine.guest.ip == ip
    && Stored(g, s.machine.guest.(ip := g.ip, flags := g.flags), op, n, v)
  }

  /** The register the ModRM byte at a names. */
  function RegisterAt(g: Guest, i: Instruction, a: u64): Index
    requires Inside(g, a, 1)
  {
    Numbered(RegField(ByteAt(g, a, 0)), i.rexR)
  }

  lemma RegisterOperandIs(g: Guest, i: Instruction, a: u64)
    requires Inside(g, a, 1)
    ensures Reg(i, g.memory[a - g.base]) == RegisterAt(g, i, a)
    ensures ModField(ByteAt(g, a, 0)) == 3 ==>
              Rm(i, g.memory[a - g.base]) == Numbered(RmField(ByteAt(g, a, 0)), i.rexB)
  {
  }

  lemma OperandNeedsByte(g: Guest, i: Instruction, a: u64)
    ensures !Inside(g, a, 1) ==> DecodeOperand(g, i, a).Unreadable?
  {
    hide WithDisplacement, IndexValue;
  }

  // ----- Data movement -----

  /** MOV between a register and an operand, 89 to and 8B from the operand. */
  lemma MovesRegister(m: Machine, callback: Callback, i: Instruction)
    requires Decode(m.guest) == Decoded(i) && i.opcode in {0x89, 0x8B}
    ensures var s, g, n, op := Execute(m, callback), m.guest, Bytes(i.rexW), DecodeOperand(m.guest, i, i.next);
            if Inside(g, i.next, 1) && Accessible(g, op, n) then
              var r := RegisterAt(g, i, i.next);
              if i.opcode == 0x89
              then Stores(s, g, op, n, Part(g.registers[r], n), op.next) && s.machine.guest.flags == g.flags
              else Becomes(s, g.(registers := g.registers[r := Value(g, op, n)], ip := op.next))
            else Stops(s)
  {
    hide Execute, Decode, DispatchPrimary, DecodeOperand, Stored, StoreRm, RmValue, Value, Reg;
    var m' := Dispatched(m, callback, i);
    PrimaryTable(m', i);
    var g, op := m.guest, DecodeOperand(m.guest, i, i.next);
    if Inside(g, i.next, 1) && !op.Unreadable? {
      RegisterOperandIs(g, i, i.next);
      RmValueIs(g, op, i.rexW);
      if Accessible(g, op, Bytes(i.rexW)) {
        StoreRmIs(g, op, Part(g.registers[RegisterAt(g, i, i.next)], Bytes(i.rexW)), i.rexW);
      }
    }
  }

  /** LEA stores the address of a memory operand, cut to the operand size. */
  lemma LoadsAddress(m: Machine, callback: Callback, i: Instruction)
    requires Decode(m.guest) == Decoded(i) && i.opcode == 0x8D
    ensures var s, g, op := Execute(m, callback), m.guest, DecodeOperand(m.guest, i, i.next);
            if Inside(g, i.next, 1) && op.InMemory? then
              Becomes(s, g.(registers := g.registers[RegisterAt(g, i, i.next) := Part(op.address, Bytes(i.rexW))],
                            ip := op.next))
            else Stops(s)
  {
    hide Execute, Decode, DispatchPrimary, DecodeOperand, Reg;
    var m' := Dispatched(m, callback, i);
    PrimaryTable(m', i);
    if Inside(m.guest, i.next, 1) {
      RegisterOperandIs(m.guest, i, i.next);
    }
  }

  /** MOV of a 32-bit immediate into a register, B8 to BF. */
  lemma MovesImmediate(m: Machine, callback: Callback, i: Instruction)
    requires Decode(m.guest) == Decoded(i) && 0xB8 <= i.opcode <= 0xBF
    ensures var s, g := Execute(m, callback), m.guest;
            if !i.rexW && Inside(g, i.next, 4) then
              Becomes(s, g.(registers := g.registers[Numbered(i.opcode - 0xB8, i.rexB) := DwordAt(g, i.next)],
                            ip := Wrap64(i.next + 4)))
            else Stops(s)
  {
    hide Execute, Decode, DispatchPrimary, Word, DwordAt;
    var m' := Dispatched(m, callback, i);
    PrimaryTable(m', i);
    WordIs(m.guest, i.next);
  }

  /** A 32-bit immediate, sign-extended to the operand size. */
  function Extended(immediate: u32, wide: bool): u64 {
    if wide && immediate >= 0x8000_0000 then immediate + 0xFFFF_FFFF_0000_0000 else immediate
  }

  lemma ExtendedIs(immediate: u32)
    ensures Wrap64(SignExtend32(immediate)) == Extended(immediate, true)
  {
  }

  /** MOV of an immediate into an operand, C7 /0. */
  lemma MovesImmediateToOperand(m: Machine, callback: Callback, i: Instruction)
    requires Decode(m.guest) == Decoded(i) && i.opcode == 0xC7
    ensures var s, g, n, op := Execute(m, callback), m.guest, Bytes(i.rexW), DecodeOperand(m.guest, i, i.next);
            if Inside(g, i.next, 1) && RegField(ByteAt(g, i.next, 0)) == 0 && Accessible(g, op, n) && Inside(g, op.next, 4)
            then
              Stores(s, g, op, n, Extended(DwordAt(g, op.next), i.rexW), Wrap64(op.next + 4))
              && s.machine.guest.flags == g.flags
            else Stops(s)
  {
    hide Execute, Decode, DispatchPrimary, DecodeOperand, Stored, StoreRm, Word, DwordAt, Wrap64, SignExtend32, Extended;
    var m' := Dispatched(m, callback, i);
    PrimaryTable(m', i);
    var g, op := m.guest, DecodeOperand(m.guest, i, i.next);
    if !op.Unreadable? && Inside(g, op.next, 4) {
      WordIs(g, op.next);
      ExtendedIs(DwordAt(g, op.next));
      ExtendedFits(DwordAt(g, op.next), i.rexW);
      if Accessible(g, op, Bytes(i.rexW)) {
        StoreRmIs(g, op, Extended(DwordAt(g, op.next), i.rexW), i.rexW);
      }
    }
  }

  lemma ExtendedFits(immediate: u32, wide: bool)
    ensures Extended(immediate, wide) < Modulus(wide) && (!wide ==> Extended(immediate, wide) == immediate)
  {
  }

  /** SETE (94) and SETNE (95) of a byte register: 1 iff ZF is set, or clear; the upper bits stay. */
  lemma SetsOnZero(m: Machine, callback: Callback, i: Instruction, opcode: u8)
    requires Decode(m.guest) == Decoded(i) && Secondary(m.guest, i, opcode) && opcode in {0x94, 0x95}
    ensures var s, g, at := Execute(m, callback), m.guest, Wrap64(i.next + 1);
            if Inside(g, at, 1) && ModField(ByteAt(g, at, 0)) == 3 then
              var r, v := Numbered(RmField(ByteAt(g, at, 0)), i.rexB), if Zero(g.flags) <==> opcode == 0x94 then 1 else 0;
              var rest := g.registers[r] / 0x100 * 0x100;
              rest + v < TWO_64 && Becomes(s, g.(registers := g.registers[r := rest + v], ip := Wrap64(i.next + 2)))
            else Stops(s)
  {
    hide Execute, Decode, SecondaryHandler, Wrap64, Reg;
    var m' := DispatchedSecondary(m, callback, i, opcode);
    SecondaryTable(m', opcode, i, callback);
    var g, at := m.guest, Wrap64(i.next + 1);
    if Inside(g, at, 1) {
      RegisterOperandIs(g, i, at);
      LowByteReplaced(g.registers[Rm(i, g.memory[at - g.base])]);
    }
  }

  lemma LowByteReplaced(v: u64)
    ensures v - v % 0x100 == v / 0x100 * 0x100 <= U64_MAX - 0xFF
  {
  }

  /** MOVZX of a byte operand, 0F B6. */
  lemma ExtendsByte(m: Machine, callback: Callback, i: Instruction)
    requires Decode(m.guest) == Decoded(i) && Secondary(m.guest, i, 0xB6)
    ensures var s, g, at := Execute(m, callback), m.guest, Wrap64(i.next + 1);
            var op := DecodeOperand(g, i, at);
            if Inside(g, at, 1) && Accessible(g, op, 1) then
              Becomes(s, g.(registers := g.registers[RegisterAt(g, i, at) := Value(g, op, 1)], ip := op.next))
            else Stops(s)
  {
    hide Execute, Decode, SecondaryHandler, DecodeOperand, Wrap64, RmByte, Value, Reg;
    var m' := DispatchedSecondary(m, callback, i, 0xB6);
    SecondaryTable(m', 0xB6, i, callback);
    var g, at := m.guest, Wrap64(i.next + 1);
    var op := DecodeOperand(g, i, at);
    if Inside(g, at, 1) && !op.Unreadable? {
      RegisterOperandIs(g, i, at);
      RmByteIs(g, op);
    }
  }

  // ----- Bitwise instructions -----

  /** Apart from flags and instruction pointer, register r is all that changes. */
  predicate Computes(s: Step, g: Guest, r: Index, ip: u64) {
    var g' := s.machine.guest;
    s.outcome == ContinueRunning && g' == g.(registers := g.registers[r := g'.registers[r]], flags := g'.flags, ip := ip)
  }

  /** Flags and instruction pointer are all that changes, and the flags are those of a bitwise result v. */
  predicate Tests(s: Step, g: Guest, v: u64, wide: bool, ip: u64) {
    var g' := s.machine.guest;
    s.outcome == ContinueRunning && g' == g.(flags := g'.flags, ip := ip) && LogicFlagged(g'.flags, g.flags, v, wide)
  }

  /** The flags of a bitwise result v; the flags that are not status flags stay. */
  predicate LogicFlagged(flags': bv64, flags: bv64, v: u64, wide: bool) {
    LogicResult(flags', v, wide) && OthersKept(flags', flags)
  }

  lemma LogicFlagsAre(flags: bv64, v: u64, wide: bool)
    ensures LogicFlagged(LogicFlags(flags, v, wide), flags, v, wide)
  {
    LogicMeaning(flags, v, wide);
    StatusFlagsOnly(flags, v, v, v, wide);
    hide LogicFlags, LogicResult, OthersKept;
  }

  /** XOR of two 32-bit registers, 31. */
  lemma XorsRegister(m: Machine, callback: Callback, i: Instruction)
    requires Decode(m.guest) == Decoded(i) && i.opcode == 0x31
    ensures var s, g := Execute(m, callback), m.guest;
            if !i.rexW && Inside(g, i.next, 1) && ModField(ByteAt(g, i.next, 0)) == 3 then
              var r, v := Numbered(RmField(ByteAt(g, i.next, 0)), i.rexB), s.machine.guest.registers;
              && Computes(s, g, r, Wrap64(i.next + 1)) && LogicFlagged(s.machine.guest.flags, g.flags, v[r], false)
              && IsXor(v[r], Part(g.registers[r], 4), Part(g.registers[RegisterAt(g, i, i.next)], 4), 32)
            else Stops(s)
  {
    hide Execute, Decode, DispatchPrimary, LogicFlags, LogicFlagged, Xor32, IsXor, Reg;
    var m' := Dispatched(m, callback, i);
    PrimaryTable(m', i);
    var g := m.guest;
    if Inside(g, i.next, 1) {
      RegisterOperandIs(g, i, i.next);
      var x, y := Part(g.registers[Rm(i, g.memory[i.next - g.base])], 4), Part(g.registers[RegisterAt(g, i, i.next)], 4);
      XorIs(x, y);
      LogicFlagsAre(g.flags, Xor32(x, y), false);
    }
  }

  lemma XorIs(x: u32, y: u32)
    ensures IsXor(Xor32(x, y), x, y, 32)
  {
    BitwiseIs(BitXor, x, y, 32);
    hide Bitwise, IsXor;
  }

  lemma AndIs(x: u64, y: u64)
    ensures IsAnd(And64(x, y), x, y, 64)
  {
    BitwiseIs(BitAnd, x, y, 64);
    hide Bitwise, IsAnd;
  }

  lemma OrIs(x: u64, y: u64)
    ensures IsOr(Or64(x, y), x, y, 64)
  {
    BitwiseIs(BitOr, x, y, 64);
    hide Bitwise, IsOr;
  }

  lemma ByteOperationsAre(x: u8, y: u8)
    ensures IsAnd(And8(x, y), x, y, 8) && IsOr(Or8(x, y), x, y, 8) && IsXor(Xor8(x, y), x, y, 8)
  {
    BitwiseIs(BitAnd, x, y, 8);
    BitwiseIs(BitOr, x, y, 8);
    BitwiseIs(BitXor, x, y, 8);
    hide Bitwise, IsAnd, IsOr, IsXor;
  }

  /** OR of two byte registers, 08: the upper bits stay. */
  lemma OrsByteRegister(m: Machine, callback: Callback, i: Instruction)
    requires Decode(m.guest) == Decoded(i) && i.opcode == 0x08
    ensures var s, g := Execute(m, callback), m.guest;
            if Inside(g, i.next, 1) && ModField(ByteAt(g, i.next, 0)) == 3 then
              var r, v := Numbered(RmField(ByteAt(g, i.next, 0)), i.rexB), s.machine.guest.registers;
              && Computes(s, g, r, Wrap64(i.next + 1)) && v[r] / 0x100 == g.registers[r] / 0x100
              && LogicFlagged(s.machine.guest.flags, g.flags, Part(v[r], 1), false)
              && IsOr(Part(v[r], 1), Part(g.registers[r], 1), Part(g.registers[RegisterAt(g, i, i.next)], 1), 8)
            else Stops(s)
  {
    hide Execute, Decode, DispatchPrimary, LogicFlags, LogicFlagged, Or8, IsOr, Reg;
    var m' := Dispatched(m, callback, i);
    PrimaryTable(m', i);
    var g := m.guest;
    if Inside(g, i.next, 1) {
      RegisterOperandIs(g, i, i.next);
      var d := Rm(i, g.memory[i.next - g.base]);
      var x, y := Part(g.registers[d], 1), Part(g.registers[RegisterAt(g, i, i.next)], 1);
      ByteOperationsAre(x, y);
      LogicFlagsAre(g.flags, Or8(x, y), false);
      ByteSet(g.registers[d], Or8(x, y));
    }
  }

  lemma ByteSet(v: u64, b: u8)
    ensures 0 <= v - Low8(v) + b < TWO_64 && (v - Low8(v) + b) / 0x100 == v / 0x100 && (v - Low8(v) + b) % 0x100 == b
  {
  }

  /** OR of an operand into a register, 0B. */
  lemma OrsOperand(m: Machine, callback: Callback, i: Instruction)
    requires Decode(m.guest) == Decoded(i) && i.opcode == 0x0B
    ensures var s, g, n, op := Execute(m, callback), m.guest, Bytes(i.rexW), DecodeOperand(m.guest, i, i.next);
            if Inside(g, i.next, 1) && Accessible(g, op, n) then
              var r, v := RegisterAt(g, i, i.next), s.machine.guest.registers;
              && Computes(s, g, r, op.next) && LogicFlagged(s.machine.guest.flags, g.flags, v[r], i.rexW)
              && IsOr(v[r], Part(g.registers[r], n), Value(g, op, n), 64)
            else Stops(s)
  {
    hide Execute, Decode, DispatchPrimary, LogicFlags, LogicFlagged, Or64, IsOr, DecodeOperand, RmValue, Value, Reg;
    var m' := Dispatched(m, callback, i);
    PrimaryTable(m', i);
    var g, op := m.guest, DecodeOperand(m.guest, i, i.next);
    if Inside(g, i.next, 1) && !op.Unreadable? {
      RegisterOperandIs(g, i, i.next);
      RmValueIs(g, op, i.rexW);
      if Accessible(g, op, Bytes(i.rexW)) {
        var x, y := Part(g.registers[RegisterAt(g, i, i.next)], Bytes(i.rexW)), Value(g, op, Bytes(i.rexW));
        OrIs(x, y);
        LogicFlagsAre(g.flags, Or64(x, y), i.rexW);
      }
    }
  }

  /** TEST of two registers, 85. */
  lemma TestsRegister(m: Machine, callback: Callback, i: Instruction) returns (v: u64)
    requires Decode(m.guest) == Decoded(i) && i.opcode == 0x85
    ensures var s, g, n := Execute(m, callback), m.guest, Bytes(i.rexW);
            if Inside(g, i.next, 1) && ModField(ByteAt(g, i.next, 0)) == 3 then
              && Tests(s, g, v, i.rexW, Wrap64(i.next + 1))
              && IsAnd(v, Part(g.registers[Numbered(RmField(ByteAt(g, i.next, 0)), i.rexB)], n),
                       Part(g.registers[RegisterAt(g, i, i.next)], n), 64)
            else Stops(s)
  {
    hide Execute, Decode, DispatchPrimary, LogicFlags, LogicFlagged, And64, IsAnd, Reg;
    var m' := Dispatched(m, callback, i);
    PrimaryTable(m', i);
    var g := m.guest;
    v := 0;
    if Inside(g, i.next, 1) {
      RegisterOperandIs(g, i, i.next);
      var x := Part(g.registers[Rm(i, g.memory[i.next - g.base])], Bytes(i.rexW));
      var y := Part(g.registers[RegisterAt(g, i, i.next)], Bytes(i.rexW));
      v := And64(x, y);
      AndIs(x, y);
      LogicFlagsAre(g.flags, v, i.rexW);
    }
  }

  /** TEST of the accumulator with an immediate, A9. */
  lemma TestsAccumulator(m: Machine, callback: Callback, i: Instruction) returns (v: u64)
    requires Decode(m.guest) == Decoded(i) && i.opcode == 0xA9
    ensures var s, g, n := Execute(m, callback), m.guest, Bytes(i.rexW);
            if Inside(g, i.next, 4) then
              && Tests(s, g, v, i.rexW, Wrap64(i.next + 4))
              && IsAnd(v, Part(g.registers[0], n), Extended(DwordAt(g, i.next), i.rexW), 64)
            else Stops(s)
  {
    hide Execute, Decode, DispatchPrimary, LogicFlags, LogicFlagged, And64, IsAnd, Word, DwordAt, Extended, SignExtend32,
      Wrap64;
    var m' := Dispatched(m, callback, i);
    PrimaryTable(m', i);
    var g := m.guest;
    v := 0;
    if Inside(g, i.next, 4) {
      WordIs(g, i.next);
      ExtendedIs(DwordAt(g, i.next));
      ExtendedFits(DwordAt(g, i.next), i.rexW);
      var x, y := Part(g.registers[0], Bytes(i.rexW)), Extended(DwordAt(g, i.next), i.rexW);
      v := And64(x, y);
      AndIs(x, y);
      LogicFlagsAre(g.flags, v, i.rexW);
    }
  }

  /** TEST of a byte operand with an immediate, F6 /0. */
  lemma TestsByte(m: Machine, callback: Callback, i: Instruction) returns (v: u64)
    requires Decode(m.guest) == Decoded(i) && i.opcode == 0xF6
    ensures var s, g, op := Execute(m, callback), m.guest, DecodeOperand(m.guest, i, i.next);
            if Inside(g, i.next, 1) && RegField(ByteAt(g, i.next, 0)) == 0 && Accessible(g, op, 1) && Inside(g, op.next, 1)
            then
              && Tests(s, g, v, false, Wrap64(op.next + 1))
              && IsAnd(v, Value(g, op, 1), ByteAt(g, op.next, 0), 8)
            else Stops(s)
  {
    hide Execute, Decode, DispatchPrimary, LogicFlags, LogicFlagged, And8, IsAnd, DecodeOperand, RmByte, Value, Wrap64;
    var m' := Dispatched(m, callback, i);
    PrimaryTable(m', i);
    var g, op := m.guest, DecodeOperand(m.guest, i, i.next);
    v := 0;
    OperandNeedsByte(g, i, i.next);
    if !op.Unreadable? {
      RmByteIs(g, op);
      if Accessible(g, op, 1) && Inside(g, op.next, 1) {
        v := And8(Value(g, op, 1), ByteAt(g, op.next, 0));
        ByteOperationsAre(Value(g, op, 1), ByteAt(g, op.next, 0));
        LogicFlagsAre(g.flags, v, false);
      }
    }
  }

  // ----- Arithmetic instructions -----

  /** Flags and instruction pointer are all that changes, and the flags order lhs and rhs. */
  predicate Compares(s: Step, g: Guest, lhs: u64, rhs: u64, wide: bool, ip: u64) {
    var g' := s.machine.guest;
    && s.outcome == ContinueRunning && g' == g.(flags := g'.flags, ip := ip)
    && OrderFlags(g'.flags, lhs, rhs, wide) && OthersKept(g'.flags, g.flags)
  }

  /** CMP of an operand with a register, 39. */
  lemma ComparesRegister(m: Machine, callback: Callback, i: Instruction)
    requires Decode(m.guest) == Decoded(i) && i.opcode == 0x39
    ensures var s, g, n, op := Execute(m, callback), m.guest, Bytes(i.rexW), DecodeOperand(m.guest, i, i.next);
            if Inside(g, i.next, 1) && Accessible(g, op, n)
            then Compares(s, g, Value(g, op, n), Part(g.registers[RegisterAt(g, i, i.next)], n), i.rexW, op.next)
            else Stops(s)
  {
    hide Execute, Decode, DispatchPrimary, CompareFlags, OrderFlags, OthersKept, DecodeOperand, RmValue, Value, Reg;
    var m' := Dispatched(m, callback, i);
    PrimaryTable(m', i);
    var g, n, op := m.guest, Bytes(i.rexW), DecodeOperand(m.guest, i, i.next);
    if Inside(g, i.next, 1) && !op.Unreadable? {
      RegisterOperandIs(g, i, i.next);
      RmValueIs(g, op, i.rexW);
      if Accessible(g, op, n) {
        ValueFits(g, op, i.rexW);
        DifferenceFlags(g.flags, Value(g, op, n), Part(g.registers[RegisterAt(g, i, i.next)], n), i.rexW);
      }
    }
  }

  lemma ValueFits(g: Guest, op: Operand, wide: bool)
    requires Accessible(g, op, Bytes(wide))
    ensures Value(g, op, Bytes(wide)) < Modulus(wide)
  {
    hide DwordAt, QwordAt;
  }

  lemma DifferenceFlags(flags: bv64, lhs: u64, rhs: u64, wide: bool)
    requires lhs < Modulus(wide) && rhs < Modulus(wide)
    ensures 0 <= (lhs - rhs) % Width(wide) < TWO_64 && Width(wide) == Modulus(wide)
    ensures var f := CompareFlags(flags, lhs, rhs, (lhs - rhs) % Width(wide), wide);
            OrderFlags(f, lhs, rhs, wide) && OthersKept(f, flags)
  {
    CompareOrders(flags, lhs, rhs, wide);
    StatusFlagsOnly(flags, lhs, rhs, (lhs - rhs) % Width(wide), wide);
    hide CompareFlags, OrderFlags, OthersKept;
  }

  lemma SumFlagsAre(flags: bv64, lhs: u64, rhs: u64, wide: bool)
    requires lhs < Modulus(wide) && rhs < Modulus(wide)
    ensures 0 <= (lhs + rhs) % Width(wide) < TWO_64 && Width(wide) == Modulus(wide)
    ensures var f := AddFlags(flags, lhs, rhs, (lhs + rhs) % Width(wide), wide);
            SumFlags(f, lhs, rhs, wide) && OthersKept(f, flags)
  {
    AddOverflows(flags, lhs, rhs, wide);
    StatusFlagsOnly(flags, lhs, rhs, (lhs + rhs) % Width(wide), wide);
    hide AddFlags, SumFlags, OthersKept;
  }

  /** The signed immediate of one or four bytes at a, as an operand of the given size. */
  function ImmediateAt(g: Guest, a: u64, size: nat, wide: bool): u64
    requires size in {1, 4} && Inside(g, a, size)
  {
    var x := DisplacementAt(g, a, size);
    if x < 0 then x + Modulus(wide) else x
  }

  lemma ImmediateIs(g: Guest, a: u64, size: nat, wide: bool)
    requires size in {1, 4} && Inside(g, a, size)
    ensures Displacement(g, a, size) % Width(wide) == ImmediateAt(g, a, size, wide) < Modulus(wide)
  {
    DisplacementIs(g, a);
    WrapOnce(DisplacementAt(g, a, size), wide);
    hide Displacement, Quad;
  }

  /** ADD (reg field 0), SUB (5) and CMP (7) of an operand with an immediate, 81 and 83. */
  lemma CombinesImmediate(m: Machine, callback: Callback, i: Instruction)
    requires Decode(m.guest) == Decoded(i) && i.opcode in {0x81, 0x83}
    ensures var s, g, n, op := Execute(m, callback), m.guest, Bytes(i.rexW), DecodeOperand(m.guest, i, i.next);
            var size := if i.opcode == 0x81 then 4 else 1;
            if Inside(g, i.next, 1) && Accessible(g, op, n) && Inside(g, op.next, size)
               && RegField(ByteAt(g, i.next, 0)) in {0, 5, 7}
            then
              var lhs, rhs, next := Value(g, op, n), ImmediateAt(g, op.next, size, i.rexW), Wrap64(op.next + size);
              match RegField(ByteAt(g, i.next, 0))
              case 0 => Stores(s, g, op, n, (lhs + rhs) % Modulus(i.rexW), next)
                        && SumFlags(s.machine.guest.flags, lhs, rhs, i.rexW) && OthersKept(s.machine.guest.flags, g.flags)
              case 5 => Stores(s, g, op, n, (lhs - rhs) % Modulus(i.rexW), next)
                        && OrderFlags(s.machine.guest.flags, lhs, rhs, i.rexW) && OthersKept(s.machine.guest.flags, g.flags)
              case _ => Compares(s, g, lhs, rhs, i.rexW, next)
            else Stops(s)
  {
    hide Execute, Decode, DispatchPrimary, CompareFlags, AddFlags, OrderFlags, SumFlags, OthersKept, DecodeOperand, Value,
      ImmediateAt, StoreRm, Stored, Wrap64, Modulus, GroupImmediate;
    var m' := Dispatched(m, callback, i);
    PrimaryTable(m', i);
    var g, n, op := m.guest, Bytes(i.rexW), DecodeOperand(m.guest, i, i.next);
    var size := if i.opcode == 0x81 then 4 else 1;
    OperandNeedsByte(g, i, i.next);
    GroupImmediateStops(m', i, size);
    if Accessible(g, op, n) && Inside(g, op.next, size) {
      GroupImmediateIs(m', i, size);
      var lhs, rhs := Value(g, op, n), ImmediateAt(g, op.next, size, i.rexW);
      ImmediateIs(g, op.next, size, i.rexW);
      ValueFits(g, op, i.rexW);
      DifferenceFlags(g.flags, lhs, rhs, i.rexW);
      SumFlagsAre(g.flags, lhs, rhs, i.rexW);
      StoreRmIs(g, op, (lhs - rhs) % Modulus(i.rexW), i.rexW);
      StoreRmIs(g, op, (lhs + rhs) % Modulus(i.rexW), i.rexW);
    }
  }

  lemma GroupImmediateStops(m: Machine, i: Instruction, size: nat)
    requires size in {1, 4}
    ensures var g, op := m.guest, DecodeOperand(m.guest, i, i.next);
            !Accessible(g, op, Bytes(i.rexW)) || !Inside(g, op.next, size) || !Inside(g, i.next, 1)
            || RegField(ByteAt(g, i.next, 0)) !in {0, 5, 7}
            ==> Stops(GroupImmediate(m, i, size))
  {
    hide CompareFlags, AddFlags, DecodeOperand, RmValue, Displacement, StoreRm, Wrap64, Width;
    var op := DecodeOperand(m.guest, i, i.next);
    OperandNeedsByte(m.guest, i, i.next);
    if !op.Unreadable? {
      RmValueIs(m.guest, op, i.rexW);
    }
  }

  /** The handler of 81 and 83, once operand and immediate are read. */
  lemma GroupImmediateIs(m: Machine, i: Instruction, size: nat)
    requires size in {1, 4} && Inside(m.guest, i.next, 1)
    requires Accessible(m.guest, DecodeOperand(m.guest, i, i.next), Bytes(i.rexW))
    requires Inside(m.guest, DecodeOperand(m.guest, i, i.next).next, size)
    ensures var s, g, op := GroupImmediate(m, i, size), m.guest, DecodeOperand(m.guest, i, i.next);
            var lhs, rhs := Value(g, op, Bytes(i.rexW)), ImmediateAt(g, op.next, size, i.rexW);
            var sum, difference := (lhs + rhs) % Modulus(i.rexW), (lhs - rhs) % Modulus(i.rexW);
            var next := Wrap64(op.next + size);
            && sum < TWO_64 && difference < TWO_64
            && (RegField(ByteAt(g, i.next, 0)) == 0 ==>
                  s == Go(m, SetFlags(StoreRm(g, op, sum, i.rexW), AddFlags(g.flags, lhs, rhs, sum, i.rexW)), next))
            && (RegField(ByteAt(g, i.next, 0)) == 5 ==>
                  s == Go(m, SetFlags(StoreRm(g, op, difference, i.rexW),
                                      CompareFlags(g.flags, lhs, rhs, difference, i.rexW)), next))
            && (RegField(ByteAt(g, i.next, 0)) == 7 ==>
                  s == Go(m, SetFlags(g, CompareFlags(g.flags, lhs, rhs, difference, i.rexW)), next))
  {
    hide CompareFlags, AddFlags, DecodeOperand, RmValue, Value, Displacement, ImmediateAt, StoreRm, Wrap64;
    var g, op := m.guest, DecodeOperand(m.guest, i, i.next);
    RmValueIs(g, op, i.rexW);
    ImmediateIs(g, op.next, size, i.rexW);
  }

  /** NEG of an operand, F7 /3. */
  lemma Negates(m: Machine, callback: Callback, i: Instruction)
    requires Decode(m.guest) == Decoded(i) && i.opcode == 0xF7
    ensures var s, g, n, op := Execute(m, callback), m.guest, Bytes(i.rexW), DecodeOperand(m.guest, i, i.next);
            if Inside(g, i.next, 1) && RegField(ByteAt(g, i.next, 0)) == 3 && Accessible(g, op, n) then
              var v := Value(g, op, n);
              && Stores(s, g, op, n, if v == 0 then 0 else Modulus(i.rexW) - v, op.next)
              && (Carry(s.machine.guest.flags) <==> v != 0)
              && (Overflow(s.machine.guest.flags) <==> 2 * v == Modulus(i.rexW))
              && OrderFlags(s.machine.guest.flags, 0, v, i.rexW) && OthersKept(s.machine.guest.flags, g.flags)
            else Stops(s)
  {
    hide Execute, Decode, DispatchPrimary, CompareFlags, OrderFlags, OthersKept, DecodeOperand, RmValue, Value, StoreRm,
      Stored;
    var m' := Dispatched(m, callback, i);
    PrimaryTable(m', i);
    var g, n, op := m.guest, Bytes(i.rexW), DecodeOperand(m.guest, i, i.next);
    OperandNeedsByte(g, i, i.next);
    if !op.Unreadable? {
      RmValueIs(g, op, i.rexW);
      if Accessible(g, op, n) {
        var v: int := Value(g, op, n);
        ValueFits(g, op, i.rexW);
        WrapOnce(0 - v, i.rexW);
        DifferenceFlags(g.flags, 0, v, i.rexW);
        NegationFlags(CompareFlags(g.flags, 0, v, (0 - v) % Width(i.rexW), i.rexW), v, i.rexW);
        StoreRmIs(g, op, if v == 0 then 0 else Modulus(i.rexW) - v, i.rexW);
      }
    }
  }

  lemma NegationFlags(f: bv64, v: u64, wide: bool)
    requires OrderFlags(f, 0, v, wide) && v < Modulus(wide)
    ensures (Carry(f) <==> v != 0) && (Overflow(f) <==> 2 * v == Modulus(wide))
  {
    hide Carry, Overflow, Zero, Sign;
  }

  /** CMP of a byte operand with an immediate, 80 /7: ZF iff equal and CF iff below, and, the byte being compared by the
      32-bit rules, no sign and no overflow ever. */
  lemma ComparesByte(m: Machine, callback: Callback, i: Instruction)
    requires Decode(m.guest) == Decoded(i) && i.opcode == 0x80
    ensures var s, g, op := Execute(m, callback), m.guest, DecodeOperand(m.guest, i, i.next);
            if Inside(g, i.next, 1) && RegField(ByteAt(g, i.next, 0)) == 7 && Accessible(g, op, 1) && Inside(g, op.next, 1)
            then
              var lhs, rhs, g' := Value(g, op, 1), ByteAt(g, op.next, 0), s.machine.guest;
              && s.outcome == ContinueRunning && g' == g.(flags := g'.flags, ip := Wrap64(op.next + 1))
              && ByteFlags(g'.flags, lhs, rhs) && OthersKept(g'.flags, g.flags)
            else Stops(s)
  {
    hide Execute, Decode, DispatchPrimary, CompareFlags, ByteFlags, OthersKept, DecodeOperand, RmByte, Value, Wrap64;
    var m' := Dispatched(m, callback, i);
    PrimaryTable(m', i);
    var g, op := m.guest, DecodeOperand(m.guest, i, i.next);
    if Inside(g, i.next, 1) && !op.Unreadable? {
      RmByteIs(g, op);
      if Accessible(g, op, 1) && Inside(g, op.next, 1) {
        ByteFlagsAre(g.flags, Value(g, op, 1), ByteAt(g, op.next, 0));
      }
    }
  }

  predicate ByteFlags(f: bv64, lhs: u64, rhs: u64) {
    (Zero(f) <==> lhs == rhs) && (Carry(f) <==> lhs < rhs) && !Sign(f) && !Overflow(f)
  }

  lemma ByteFlagsAre(flags: bv64, lhs: u8, rhs: u8)
    ensures var f := CompareFlags(flags, lhs, rhs, (lhs - rhs) % 0x100, false);
            ByteFlags(f, lhs, rhs) && OthersKept(f, flags)
  {
    var v := (lhs - rhs) % 0x100;
    ArithmeticBits(flags, v == 0, false, lhs < rhs, false);
    StatusFlagsOnly(flags, lhs, rhs, v, false);
    hide Arithmetic, Carry, Zero, Sign, Overflow, OthersKept;
  }

  // ----- Stack and control flow -----

  /** There is room for a word below RSP. */
  predicate CanPush(g: Guest) {
    g.registers[4] >= Wrap64(g.base + 8) && Inside(g, Onward(g.registers[4], -8), 8)
  }

  /** RSP is one word lower and points at v; no other register, and no byte elsewhere, has changed. */
  ghost predicate Pushed(g: Guest, g': Guest, v: u64) {
    var sp := Onward(g.registers[4], -8);
    WrittenAt(g.(registers := g.registers[4 := sp]), g', sp, 8) && QwordAt(g', sp) == v
  }

  ghost predicate PushesThenAt(s: Step, g: Guest, v: u64, ip: u64) {
    s.outcome == ContinueRunning && s.machine.guest.ip == ip && Pushed(g, s.machine.guest.(ip := g.ip), v)
  }

  lemma PushIs(m: Machine, v: u64, ip: u64)
    ensures if CanPush(m.guest) then PushesThenAt(PushThenGo(m, v, ip), m.guest, v, ip) else Stops(PushThenGo(m, v, ip))
  {
    var g := m.guest;
    var sp := Onward(g.registers[4], -8);
    assert StackAt(g, -8) == sp;
    if CanPush(g) {
      WriteBytesIs(g.(registers := g.registers[4 := sp]), sp, v, 8);
    }
    hide Wrap64, LittleEndian, WriteBytes, QwordAt, StackAt;
  }

  /** PUSH of a register. */
  lemma PushesRegister(m: Machine, callback: Callback, i: Instruction)
    requires Decode(m.guest) == Decoded(i) && 0x50 <= i.opcode <= 0x57
    ensures var s, g := Execute(m, callback), m.guest;
            if !i.rexW && CanPush(g)
            then PushesThenAt(s, g, g.registers[Numbered(i.opcode - 0x50, i.rexB)], i.next) else Stops(s)
  {
    hide Execute, Decode, DispatchPrimary, PushThenGo, CanPush, PushesThenAt;
    var m' := Dispatched(m, callback, i);
    PrimaryTable(m', i);
    PushIs(m', m.guest.registers[Numbered(i.opcode - 0x50, i.rexB)], i.next);
  }

  /** POP of a register; POP RSP leaves the word that was read. */
  lemma PopsRegister(m: Machine, callback: Callback, i: Instruction)
    requires Decode(m.guest) == Decoded(i) && 0x58 <= i.opcode <= 0x5F
    ensures var s, g, sp := Execute(m, callback), m.guest, m.guest.registers[4];
            if !i.rexW && Inside(g, sp, 8) then
              Becomes(s, g.(registers := g.registers[4 := Onward(sp, 8)]
                                                    [Numbered(i.opcode - 0x58, i.rexB) := QwordAt(g, sp)],
                            ip := i.next))
            else Stops(s)
  {
    hide Execute, Decode, DispatchPrimary, Word, QwordAt, Wrap64;
    var m' := Dispatched(m, callback, i);
    PrimaryTable(m', i);
    WordIs(m.guest, m.guest.registers[4]);
  }

  /** RET. */
  lemma ReturnsToTop(m: Machine, callback: Callback, i: Instruction)
    requires Decode(m.guest) == Decoded(i) && i.opcode == 0xC3
    ensures var s, g, sp := Execute(m, callback), m.guest, m.guest.registers[4];
            if !i.rexW && Inside(g, sp, 8)
            then Becomes(s, g.(registers := g.registers[4 := Onward(sp, 8)], ip := QwordAt(g, sp))) else Stops(s)
  {
    hide Execute, Decode, DispatchPrimary, Word, QwordAt, Wrap64;
    var m' := Dispatched(m, callback, i);
    PrimaryTable(m', i);
    WordIs(m.guest, m.guest.registers[4]);
  }

  /** CALL, relative: the address behind the instruction is pushed, and execution goes on the displacement further. */
  lemma CallsRelative(m: Machine, callback: Callback, i: Instruction)
    requires Decode(m.guest) == Decoded(i) && i.opcode == 0xE8
    ensures var s, g := Execute(m, callback), m.guest;
            if !i.rexW && Inside(g, i.next, 4) && CanPush(g) then
              var behind := Wrap64(i.next + 4);
              PushesThenAt(s, g, behind, Wrap64(behind + TwosComplement(DwordAt(g, i.next), 0x1_0000_0000)))
            else Stops(s)
  {
    hide Execute, Decode, DispatchPrimary, Word, DwordAt, Wrap64, PushThenGo, CanPush, PushesThenAt;
    var m' := Dispatched(m, callback, i);
    PrimaryTable(m', i);
    if Inside(m.guest, i.next, 4) {
      WordIs(m.guest, i.next);
      var behind := Wrap64(i.next + 4);
      PushIs(m', behind, Wrap64(behind + TwosComplement(DwordAt(m.guest, i.next), 0x1_0000_0000)));
    }
  }

  /** JMP, near (E9) and short (EB), and NOP. */
  lemma JumpsAlways(m: Machine, callback: Callback, i: Instruction)
    requires Decode(m.guest) == Decoded(i) && i.opcode in {0xE9, 0xEB, 0x90}
    ensures var s, g := Execute(m, callback), m.guest;
            var n := if i.opcode == 0xE9 then 4 else if i.opcode == 0xEB then 1 else 0;
            if !i.rexW && (n != 0 ==> Inside(g, i.next, n))
            then Becomes(s, g.(ip := Wrap64(i.next + n + DisplacementAt(g, i.next, n)))) else Stops(s)
  {
    hide Execute, Decode, DispatchPrimary, Word, DwordAt, Wrap64;
    var m' := Dispatched(m, callback, i);
    PrimaryTable(m', i);
    WordIs(m.guest, i.next);
    NothingAdded(i.next);
  }

  lemma NothingAdded(a: u64)
    ensures Wrap64(a + 0 + 0) == a
  {
  }

  /** INC and DEC of a register, FF /0 and /1: one more or less modulo the operand size; CF stays. */
  lemma StepsRegister(m: Machine, callback: Callback, i: Instruction)
    requires Decode(m.guest) == Decoded(i) && i.opcode == 0xFF
    requires Inside(m.guest, i.next, 1) && RegField(ByteAt(m.guest, i.next, 0)) <= 1
    ensures var s, g, modrm := Execute(m, callback), m.guest, ByteAt(m.guest, i.next, 0);
            if ModField(modrm) == 3 then
              var r, d := Numbered(RmField(modrm), i.rexB), if RegField(modrm) == 0 then 1 else -1;
              var lhs := Part(g.registers[r], Bytes(i.rexW));
              && Computes(s, g, r, Wrap64(i.next + 1))
              && s.machine.guest.registers[r] == (lhs + d) % Modulus(i.rexW)
              && StepFlags(s.machine.guest.flags, g.flags, lhs, d, i.rexW)
            else Stops(s)
  {
    hide Execute, Decode, DispatchPrimary, Wrap64, StepFlags, SteppedByOne, PushThenGo, DecodeOperand, Word;
    var m' := Dispatched(m, callback, i);
    PrimaryTable(m', i);
    var g, modrm := m.guest, ByteAt(m.guest, i.next, 0);
    SteppedByOneFlags(g, Rm(i, modrm), RegBits(modrm) == 1, i.rexW);
    RegisterOperandIs(g, i, i.next);
  }

  /** CALL through a register, or through a slot relative to the byte behind the instruction, FF /2. */
  lemma CallsThrough(m: Machine, callback: Callback, i: Instruction)
    requires Decode(m.guest) == Decoded(i) && i.opcode == 0xFF
    requires Inside(m.guest, i.next, 1) && RegField(ByteAt(m.guest, i.next, 0)) == 2
    ensures var s, g, modrm, at := Execute(m, callback), m.guest, ByteAt(m.guest, i.next, 0), Wrap64(i.next + 1);
            if ModField(modrm) == 3 then
              if CanPush(g) then PushesThenAt(s, g, at, g.registers[Numbered(RmField(modrm), i.rexB)]) else Stops(s)
            else if ModField(modrm) == 0 && RmField(modrm) == 5 && !i.rexB && Inside(g, at, 4) then
              var slot := Wrap64(i.next + 5 + TwosComplement(DwordAt(g, at), 0x1_0000_0000));
              if Inside(g, slot, 8) && CanPush(g) then PushesThenAt(s, g, Wrap64(i.next + 5), QwordAt(g, slot)) else Stops(s)
            else Stops(s)
  {
    hide Execute, Decode, DispatchPrimary, Wrap64, SteppedByOne, PushThenGo, Word, DwordAt, QwordAt, CanPush, PushesThenAt;
    var m' := Dispatched(m, callback, i);
    PrimaryTable(m', i);
    var g, modrm, at := m.guest, ByteAt(m.guest, i.next, 0), Wrap64(i.next + 1);
    RegisterOperandIs(g, i, i.next);
    PushIs(m', at, g.registers[Numbered(RmField(modrm), i.rexB)]);
    WordIs(g, at);
    if Inside(g, at, 4) {
      var slot := Wrap64(i.next + 5 + TwosComplement(DwordAt(g, at), 0x1_0000_0000));
      WordIs(g, slot);
      if Inside(g, slot, 8) {
        PushIs(m', Wrap64(i.next + 5), QwordAt(g, slot));
      }
    }
  }

  lemma FFNeedsOperation(m: Machine, callback: Callback, i: Instruction)
    requires Decode(m.guest) == Decoded(i) && i.opcode == 0xFF
    ensures !Inside(m.guest, i.next, 1) || RegField(ByteAt(m.guest, i.next, 0)) > 2 ==> Stops(Execute(m, callback))
  {
    hide Execute, Decode, DispatchPrimary, SteppedByOne, PushThenGo, Word, Wrap64;
    var m' := Dispatched(m, callback, i);
    PrimaryTable(m', i);
  }

  /** Long NOP, 0F 1F /0: only the instruction pointer moves, over the operand. */
  lemma SkipsOperand(m: Machine, callback: Callback, i: Instruction)
    requires Decode(m.guest) == Decoded(i) && Secondary(m.guest, i, 0x1F)
    ensures var s, g, at := Execute(m, callback), m.guest, Wrap64(i.next + 1);
            var op := DecodeOperand(g, i, at);
            if !op.Unreadable? && Inside(g, at, 1) && RegField(ByteAt(g, at, 0)) == 0 then Becomes(s, g.(ip := op.next))
            else Stops(s)
  {
    hide Execute, Decode, SecondaryHandler, DecodeOperand, Wrap64;
    var m' := DispatchedSecondary(m, callback, i, 0x1F);
    SecondaryTable(m', 0x1F, i, callback);
  }

  /** SYSCALL: the handler is shown the guest behind the instruction, after all guests it was shown before; RAX takes its
      status, sign-extended, and its action decides how execution goes on. */
  lemma CallsHandler(m: Machine, callback: Callback, i: Instruction)
    requires Decode(m.guest) == Decoded(i) && Secondary(m.guest, i, 0x05)
    ensures var s, shown := Execute(m, callback), m.guest.(ip := Wrap64(i.next + 1));
            var answer := callback(m.calls + [shown]);
            var word := if answer.status < 0 then answer.status + TWO_64 else answer.status;
            && s.machine.calls == m.calls + [shown]
            && s.machine.guest == shown.(registers := shown.registers[0 := word])
            && match answer.action
               case ContinueGuest => s.outcome == ContinueRunning
               case YieldGuest => s.outcome == RetireAndStop && s.machine.report.completion == Yielded
               case ExitGuest => s.outcome == RetireAndStop && s.machine.report.completion == ThreadExited
  {
    hide Execute, Decode, SecondaryHandler, Wrap64;
    var m' := DispatchedSecondary(m, callback, i, 0x05);
    SecondaryTable(m', 0x05, i, callback);
  }
}
