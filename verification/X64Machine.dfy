/**
 The emulated x64 guest as a value: registers, flags, memory, the report of a run, and what each instruction does to
 them. X64Context proves that the emulator's handlers, which update their context in place, follow these functions.
 */
module X64Machine {
  import opened Words

  type Registers = r: seq<u64> | |r| == 16 witness [0, 0, 0, 0, 0, 0, 0, 0, 0, 0, 0, 0, 0, 0, 0, 0]
  type Vector = v: seq<u8> | |v| == 16 witness [0, 0, 0, 0, 0, 0, 0, 0, 0, 0, 0, 0, 0, 0, 0, 0]
  const ZERO_VECTOR: Vector := [0, 0, 0, 0, 0, 0, 0, 0, 0, 0, 0, 0, 0, 0, 0, 0]
  type Vectors = s: seq<Vector> | |s| == 16 
    witness [ZERO_VECTOR, ZERO_VECTOR, ZERO_VECTOR, ZERO_VECTOR, ZERO_VECTOR, ZERO_VECTOR, ZERO_VECTOR, ZERO_VECTOR,
             ZERO_VECTOR, ZERO_VECTOR, ZERO_VECTOR, ZERO_VECTOR, ZERO_VECTOR, ZERO_VECTOR, ZERO_VECTOR, ZERO_VECTOR]
  type Memory = m: seq<u8> | |m| <= 0xFFFF_FFFF_FFFF_FFFF
  type Index = i: int | 0 <= i < 16

  const RAX: Index := 0
  const RCX: Index := 1
  const RSP: Index := 4
  const RDI: Index := 7

  const CARRY: bv64 := 1
  const RESERVED: bv64 := 2
  const ZERO: bv64 := 0x40
  const SIGN: bv64 := 0x80
  const OVERFLOW: bv64 := 0x800

  datatype Guest = Guest(registers: Registers, vectors: Vectors, ip: u64, flags: bv64, base: u64, memory: Memory)

  datatype Completion = ThreadExited | Yielded | LimitReached | InvalidMemoryAccess | UnsupportedInstruction
                      | InvalidArgument | UnsupportedEngine
  datatype StopReason = NoStop | StopExited | StopYielded | StopInvalidMemoryAccess | StopUnsupportedInstruction
  datatype BackendFailure = NoFailure | FailureLimitReached | FailureInvalidArgument | FailureUnsupportedEngine

  datatype Fault = Fault(ip: u64, memoryAddress: u64, opcode: u8)

  /** x64_emulator_result but for the retired count, which only the run loop touches. */
  datatype Report = Report(completion: Completion, stop: StopReason, failure: BackendFailure,
                           faultAddress: u64, faultOpcode: u8, fault: Fault)

  /** `calls` are the guest states the system call handler has been shown so far. */
  datatype Machine = Machine(guest: Guest, report: Report, calls: seq<Guest>)

  datatype Action = ContinueGuest | YieldGuest | ExitGuest
  datatype SyscallResult = SyscallResult(status: i32, action: Action)

  /** The handler answers as any function of all the states it has seen; guest memory is not its to change. */
  type Callback = seq<Guest> -> SyscallResult

  datatype Outcome = ContinueRunning | RetireAndStop | StopRunning
  datatype Step = Step(machine: Machine, outcome: Outcome)

  datatype Instruction = Instruction(address: u64, opcode: u8, next: u64, prefix66: bool, prefixF2: bool, prefixF3: bool,
                                     rexW: bool, rexR: bool, rexX: bool, rexB: bool)

  // ----- Reports -----

  function InvalidAccess(m: Machine, a: u64, opcode: u8): Machine {
    m.(report := Report(InvalidMemoryAccess, StopInvalidMemoryAccess, NoFailure, a, opcode,
                        m.report.fault.(memoryAddress := a, opcode := opcode)))
  }

  /** What a failed guest access leaves: the opcode under execution goes into the report with the address. */
  function Faulted(m: Machine, a: u64): Machine {
    InvalidAccess(m, a, m.report.fault.opcode)
  }

  function Unsupported(m: Machine, opcode: u8): Machine {
    m.(report := m.report.(completion := UnsupportedInstruction, stop := StopUnsupportedInstruction,
                           failure := NoFailure, faultOpcode := opcode,
                           fault := m.report.fault.(memoryAddress := 0, opcode := opcode)))
  }

  function SetFault(m: Machine, i: Instruction): Machine {
    m.(report := m.report.(faultAddress := i.address, faultOpcode := i.opcode, fault := Fault(i.address, 0, i.opcode)))
  }

  function SetFaultOpcode(m: Machine, opcode: u8): Machine {
    m.(report := m.report.(faultOpcode := opcode, fault := m.report.fault.(opcode := opcode)))
  }

  function Exited(m: Machine): Machine {
    m.(report := m.report.(completion := ThreadExited, stop := StopExited, failure := NoFailure))
  }

  function YieldedTo(m: Machine): Machine {
    m.(report := m.report.(completion := Yielded, stop := StopYielded, failure := NoFailure))
  }

  function BackendFailed(m: Machine, failure: BackendFailure): Machine {
    var completion := match failure
      case NoFailure => m.report.completion
      case FailureLimitReached => LimitReached
      case FailureInvalidArgument => InvalidArgument
      case FailureUnsupportedEngine => UnsupportedEngine;
    m.(report := m.report.(completion := completion, stop := NoStop, failure := failure))
  }

  function Initialized(g: Guest, calls: seq<Guest>): Machine {
    Machine(g.(flags := g.flags | RESERVED),
            Report(LimitReached, NoStop, FailureLimitReached, g.ip, 0, Fault(g.ip, 0, 0)), calls)
  }

  function StopAt(m: Machine): Step { Step(m, StopRunning) }
  function ContinueAt(m: Machine, ip: u64): Step { Step(m.(guest := m.guest.(ip := ip)), ContinueRunning) }

  /** Guest address arithmetic, modulo 2^64. */
  function Plus(a: u64, n: int): u64 { Wrap64(a + n) }

  lemma PlusIs(a: u64, n: nat)
    requires n < 16
    ensures Plus(a, n) == if a + n < 0x1_0000_0000_0000_0000 then a + n else a + n - 0x1_0000_0000_0000_0000
  {
  }

  lemma FiveOn(a: u64)
    ensures Plus(Plus(a, 1), 1) == Plus(a, 2) && Plus(Plus(a, 1), 4) == Plus(a, 5)
  {
    PlusIs(a, 1);
    PlusIs(a, 2);
    PlusIs(a, 5);
    PlusIs(Plus(a, 1), 1);
    PlusIs(Plus(a, 1), 4);
    hide Plus;
  }

  function ByteDifference(x: u8, y: u8): u8 { (x - y) % 0x100 }

  // ----- Guest memory -----

  /** translate_guest_pointer: the n bytes at a lie inside guest memory. */
  predicate Readable(g: Guest, a: u64, n: nat) {
    g.base <= a && a - g.base <= |g.memory| && n <= |g.memory| - (a - g.base)
  }

  function BytesAt(g: Guest, a: u64, n: nat): (bytes: seq<u8>)
    requires Readable(g, a, n)
    ensures |bytes| == n
  {
    g.memory[a - g.base..a - g.base + n]
  }

  function ReadByte(g: Guest, a: u64): Option<u8> {
    if Readable(g, a, 1) then Some(g.memory[a - g.base]) else None
  }

  /** memcpy into an n-byte word. */
  function Word(g: Guest, a: u64, n: nat): (v: nat)
    requires Readable(g, a, n) && n in {4, 8}
    ensures n == 4 ==> v < TWO_32
    ensures v < TWO_64
  {
    FromLittleEndianBound(BytesAt(g, a, n));
    Pow256Values();
    FromLittleEndian(BytesAt(g, a, n))
  }

  function Overwrite(memory: Memory, at: nat, bytes: seq<u8>): (r: Memory)
    requires at + |bytes| <= |memory|
    ensures |r| == |memory|
    ensures forall k :: 0 <= k < |memory| ==> r[k] == if at <= k < at + |bytes| then bytes[k - at] else memory[k]
  {
    memory[..at] + bytes + memory[at + |bytes|..]
  }

  function WriteBytes(g: Guest, a: u64, bytes: seq<u8>): (r: Guest)
    requires Readable(g, a, |bytes|)
    ensures r == g.(memory := r.memory)
  {
    g.(memory := Overwrite(g.memory, a - g.base, bytes))
  }

  function SignExtend8(b: u8): int {
    if b < 0x80 then b else b - 0x100
  }

  function SignExtend32(w: u32): int {
    if w < 0x8000_0000 then w else w - 0x1_0000_0000
  }

  // ----- Registers -----

  function Low32(v: u64): u32 { v % 0x1_0000_0000 }
  function Low8(v: u64): u8 { v % 0x100 }

  function Register(g: Guest, i: Index, wide: bool): u64 {
    if wide then g.registers[i] else Low32(g.registers[i])
  }

  function SetRegister(g: Guest, i: Index, v: u64): Guest {
    g.(registers := g.registers[i := v])
  }

  function SetRegisterByte(g: Guest, i: Index, v: u8): Guest {
    g.(registers := g.registers[i := g.registers[i] - Low8(g.registers[i]) + v])
  }

  function Field(bits: int, extended: bool): Index
    requires 0 <= bits < 8
  {
    bits + if extended then 8 else 0
  }

  function Mod(modrm: u8): int { modrm / 64 }
  function RegBits(modrm: u8): int { modrm / 8 % 8 }
  function RmBits(modrm: u8): int { modrm % 8 }

  function Reg(i: Instruction, modrm: u8): Index { Field(RegBits(modrm), i.rexR) }
  function Rm(i: Instruction, modrm: u8): Index { Field(RmBits(modrm), i.rexB) }

  // ----- Bitwise operations and flags -----

  datatype BitOperation = BitAnd | BitOr | BitXor

  predicate Combined(operation: BitOperation, x: bool, y: bool) {
    match operation
    case BitAnd => x && y
    case BitOr => x || y
    case BitXor => x != y
  }

  /** The low n bits of two numbers, combined bit by bit. */
  function Bitwise(operation: BitOperation, x: nat, y: nat, n: nat): (v: nat)
    ensures v < Power2(n)
  {
    if n == 0 then 0
    else (if Combined(operation, x % 2 == 1, y % 2 == 1) then 1 else 0) + 2 * Bitwise(operation, x / 2, y / 2, n - 1)
  }

  function Power2(n: nat): (p: nat)
    ensures p > 0
  {
    if n == 0 then 1 else 2 * Power2(n - 1)
  }

  lemma Power2Values()
    ensures Power2(8) == 0x100 && Power2(32) == 0x1_0000_0000 && Power2(64) == 0x1_0000_0000_0000_0000
  {
    assert Power2(4) == 0x10;
    assert Power2(8) == 0x100;
    assert Power2(12) == 0x1000;
    assert Power2(16) == 0x1_0000;
    assert Power2(20) == 0x10_0000;
    assert Power2(24) == 0x100_0000;
    assert Power2(28) == 0x1000_0000;
    assert Power2(32) == 0x1_0000_0000;
    assert Power2(36) == 0x10_0000_0000;
    assert Power2(40) == 0x100_0000_0000;
    assert Power2(44) == 0x1000_0000_0000;
    assert Power2(48) == 0x1_0000_0000_0000;
    assert Power2(52) == 0x10_0000_0000_0000;
    assert Power2(56) == 0x100_0000_0000_0000;
    assert Power2(60) == 0x1000_0000_0000_0000;
  }

  function And64(x: u64, y: u64): u64 {
    Power2Values();
    Bitwise(BitAnd, x, y, 64)
  }

  function Or64(x: u64, y: u64): u64 {
    Power2Values();
    Bitwise(BitOr, x, y, 64)
  }

  function Xor32(x: u32, y: u32): u32 {
    Power2Values();
    Bitwise(BitXor, x, y, 32)
  }

  function Xor8(x: u8, y: u8): u8 {
    Power2Values();
    Bitwise(BitXor, x, y, 8)
  }

  function And8(x: u8, y: u8): u8 {
    Power2Values();
    Bitwise(BitAnd, x, y, 8)
  }

  function Or8(x: u8, y: u8): u8 {
    Power2Values();
    Bitwise(BitOr, x, y, 8)
  }

  function Width(wide: bool): int { if wide then 0x1_0000_0000_0000_0000 else 0x1_0000_0000 }

  function Masked(v: u64, wide: bool): u64 { if wide then v else Low32(v) }

  /** The sign bit of a masked value. */
  predicate Negative(v: u64, wide: bool) { v >= if wide then 0x8000_0000_0000_0000 else 0x8000_0000 }

  function Bit(set_: bool, flag: bv64): bv64 { if set_ then flag else 0 }

  function With(flags: bv64, flag: bv64): bv64 { flags | flag }

  /** No status flag, the reserved bit, and every other bit as before. */
  function Cleared(flags: bv64): bv64 { (flags & !(CARRY | ZERO | SIGN | OVERFLOW)) | RESERVED }

  function CarryOnly(flags: bv64): bv64 { (flags & CARRY) | RESERVED }

  function Arithmetic(flags: bv64, zero: bool, sign: bool, carry: bool, overflow: bool): bv64 {
    With(With(With(With(Cleared(flags), Bit(zero, ZERO)), Bit(sign, SIGN)), Bit(carry, CARRY)), Bit(overflow, OVERFLOW))
  }

  /** The reserved bit 1 is set. */
  predicate Reserves(flags: bv64) { flags & RESERVED == RESERVED }

  function LogicFlags(flags: bv64, value: u64, wide: bool): (f: bv64)
    ensures Reserves(f)
  {
    var v := Masked(value, wide);
    Arithmetic(flags, v == 0, Negative(v, wide), false, false)
  }

  function CompareFlags(flags: bv64, lhs: u64, rhs: u64, result: u64, wide: bool): (f: bv64)
    ensures Reserves(f)
  {
    var l, r, v := Masked(lhs, wide), Masked(rhs, wide), Masked(result, wide);
    var ls, rs, vs := Negative(l, wide), Negative(r, wide), Negative(v, wide);
    Arithmetic(flags, v == 0, vs, l < r, ls != rs && ls != vs)
  }

  function AddFlags(flags: bv64, lhs: u64, rhs: u64, result: u64, wide: bool): (f: bv64)
    ensures Reserves(f)
  {
    var l, r, v := Masked(lhs, wide), Masked(rhs, wide), Masked(result, wide);
    var ls, rs, vs := Negative(l, wide), Negative(r, wide), Negative(v, wide);
    Arithmetic(flags, v == 0, vs, v < l, ls == rs && ls != vs)
  }

  function IncDecFlags(flags: bv64, lhs: u64, result: u64, decrement: bool, wide: bool): (f: bv64)
    ensures Reserves(f)
  {
    var l, v := Masked(lhs, wide), Masked(result, wide);
    var ls, vs := Negative(l, wide), Negative(v, wide);
    With(With(With(CarryOnly(flags), Bit(v == 0, ZERO)), Bit(vs, SIGN)),
         Bit(if decrement then ls && !vs else !ls && vs, OVERFLOW))
  }

  predicate Has(flags: bv64, flag: bv64) { flags & flag != 0 }

  function SetFlags(g: Guest, flags: bv64): Guest { g.(flags := flags) }

  // ----- Stack -----

  /** RSP plus d, modulo 2^64. */
  function StackAt(g: Guest, d: int): u64 {
    var sp: int := g.registers[RSP];
    Wrap64(sp + d)
  }

  /** push_u64: below the memory's first word nothing changes; otherwise RSP moves before the write is tried. */
  function Push(m: Machine, value: u64): Step {
    var sp := m.guest.registers[RSP];
    if sp < Wrap64(m.guest.base + 8) then StopAt(Faulted(m, sp))
    else
      var to := StackAt(m.guest, -8);
      var moved := m.(guest := SetRegister(m.guest, RSP, to));
      if Readable(moved.guest, to, 8)
      then Step(moved.(guest := WriteBytes(moved.guest, to, LittleEndian(value, 8))), ContinueRunning)
      else StopAt(Faulted(moved, to))
  }
}
