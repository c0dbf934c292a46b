/**
 The import stub of the Win32 emulation (win32/x64_win32_emulation.cpp) as the small program it is: eleven bytes that
 move the first argument, load a system call number, trap and return; and what the interpreter does when it runs one.
 */
module ImportStubs {
  import opened Words
  import opened X64Machine
  import opened X64Instructions
  import opened X64Properties

  const STUB_SIZE: nat := 11

  /** mov rdi, rcx; mov eax, number; syscall; ret. */
  function StubBytes(number: u32): (bytes: seq<u8>)
    ensures |bytes| == STUB_SIZE
  {
    [0x48, 0x89, 0xCF, 0xB8] + LittleEndian(number, 4) + [0x0F, 0x05, 0xC3]
  }

  /** The guest can fetch the stub at a, byte by byte. */
  ghost predicate StubAt(g: Guest, a: u64, number: u32) {
    forall k: nat :: k < STUB_SIZE ==> ReadByte(g, Plus(a, k)) == Some(StubBytes(number)[k])
  }

  /** A fetchable stub lies in one piece: it never runs over the end of the 64-bit space. */
  lemma StubInOnePiece(g: Guest, a: u64, number: u32)
    requires StubAt(g, a, number)
    ensures a + STUB_SIZE <= TWO_64 && Readable(g, a, STUB_SIZE)
    ensures forall k: nat :: k < STUB_SIZE ==> g.memory[a + k - g.base] == StubBytes(number)[k]
  {
    hide StubBytes;
    var k := U64_MAX - a;
    assert k < 10 ==> ReadByte(g, Plus(a, k)).Some? && ReadByte(g, Plus(a, k + 1)).Some?;
    assert ReadByte(g, Plus(a, 0)).Some? && ReadByte(g, Plus(a, 10)).Some?;
    PlusIs(a, 10);
    forall k: nat | k < STUB_SIZE ensures g.memory[a + k - g.base] == StubBytes(number)[k] {
      PlusIs(a, k);
      assert ReadByte(g, Plus(a, k)) == Some(StubBytes(number)[k]);
    }
  }

  /** The instruction bytes of a stub at a. */
  lemma StubCode(g: Guest, a: u64, number: u32)
    requires StubAt(g, a, number)
    ensures Readable(g, a, STUB_SIZE) && Plus(a, 1) == a + 1 && Plus(a, 2) == a + 2 && Plus(a, 3) == a + 3
    ensures var c := BytesAt(g, a, STUB_SIZE);
            && c[0] == 0x48 && c[1] == 0x89 && c[2] == 0xCF && c[3] == 0xB8
            && c[8] == 0x0F && c[9] == 0x05 && c[10] == 0xC3
    ensures BytesAt(g, Plus(a, 4), 4) == LittleEndian(number, 4)
  {
    StubInOnePiece(g, a, number);
    PlusIs(a, 1);
    PlusIs(a, 2);
    PlusIs(a, 3);
    PlusIs(a, 4);
    var c := BytesAt(g, a, STUB_SIZE);
    assert forall k: nat :: k < STUB_SIZE ==> c[k] == StubBytes(number)[k];
    assert c == StubBytes(number);
    assert forall k :: 0 <= k < 4 ==> BytesAt(g, Plus(a, 4), 4)[k] == c[4..8][k];
    assert StubBytes(number)[4..8] == LittleEndian(number, 4);
  }

  // ----- Running the stub -----

  function Bare(address: u64, opcode: u8, next: u64, rexW: bool): Instruction {
    Instruction(address, opcode, next, false, false, false, rexW, false, false, false)
  }

  /** mov rdi, rcx. */
  lemma MoveArgument(m: Machine, callback: Callback, a: u64, number: u32)
    requires StubAt(m.guest, a, number) && m.guest.ip == a
    ensures var g := m.guest;
            var s := Execute(m, callback);
            && s.outcome == ContinueRunning && s.machine.calls == m.calls
            && s.machine.guest == SetRegister(g, RDI, g.registers[RCX]).(ip := Plus(a, 3))
  {
    var g := m.guest;
    StubCode(g, a, number);
    var c := BytesAt(g, a, STUB_SIZE);
    assert g.memory[a - g.base] == c[0] && g.memory[Plus(a, 1) - g.base] == c[1] && g.memory[Plus(a, 2) - g.base] == c[2];
    hide StubBytes, StubAt, BytesAt;
    DecodeRexW(g, a);
    var i := Bare(a, 0x89, Plus(a, 2), true);
    hide Decode, DecodeFrom;
    assert DecodeOperand(g, i, Plus(a, 2)) == InRegister(RDI, Plus(a, 3));
    hide DecodeOperand;
    assert Execute(m, callback) == MovRegister(SetFault(m, i), i);
  }

  lemma DecodeRexW(g: Guest, a: u64)
    requires g.ip == a && Readable(g, a, 2) && a + 2 < TWO_64
    requires g.memory[a - g.base] == 0x48 && g.memory[a + 1 - g.base] == 0x89
    ensures Decode(g) == Decoded(Bare(a, 0x89, Plus(a, 2), true))
  {
    PlusIs(a, 1);
    PlusIs(a, 2);
    assert DecodeFrom(g, Bare(a, 0, a, true), a + 1) == Decoded(Bare(a, 0x89, Plus(a, 2), true));
  }

  lemma DecodePlain(g: Guest, b: u8)
    requires Readable(g, g.ip, 1) && g.memory[g.ip - g.base] == b && !IsPrefix(b)
    ensures Decode(g) == Decoded(Bare(g.ip, b, Plus(g.ip, 1), false))
  {
  }

  /** mov eax, number. */
  lemma LoadNumber(m: Machine, callback: Callback, a: u64, number: u32)
    requires StubAt(m.guest, a, number) && m.guest.ip == Plus(a, 3)
    ensures var g := m.guest;
            var s := Execute(m, callback);
            && s.outcome == ContinueRunning && s.machine.calls == m.calls
            && s.machine.guest == SetRegister(g, RAX, number).(ip := Plus(a, 8))
  {
    var g := m.guest;
    StubCode(g, a, number);
    var c := BytesAt(g, a, STUB_SIZE);
    assert g.memory[g.ip - g.base] == c[3];
    PlusIs(a, 4);
    PlusIs(a, 8);
    PlusIs(g.ip, 1);
    Pow256Values();
    LittleEndianRoundTrip(number, 4);
    hide StubBytes, StubAt, LittleEndian, Pow256;
    DecodePlain(g, 0xB8);
    hide Decode;
    assert Word(g, Plus(a, 4), 4) == number;
    hide Word, BytesAt;
    var i := Bare(g.ip, 0xB8, Plus(a, 4), false);
    assert Execute(m, callback) == MovImmediate32(SetFault(m, i), i);
  }

  /** The guest the system call handler is shown. */
  function Shown(g: Guest, a: u64): Guest {
    g.(ip := Plus(a, 10))
  }

  lemma DispatchSyscall(m: Machine, i: Instruction, callback: Callback)
    requires i.opcode == 0x0F && !i.rexW && ReadByte(m.guest, i.next) == Some(0x05)
    ensures Dispatch(m, i, callback) == Syscall(SetFaultOpcode(SetFault(m, i), 0x05), i, callback)
  {
    hide Syscall;
  }

  /** syscall. */
  lemma Trap(m: Machine, callback: Callback, a: u64, number: u32)
    requires StubAt(m.guest, a, number) && m.guest.ip == Plus(a, 8)
    ensures var s := Execute(m, callback);
            var r := callback(m.calls + [Shown(m.guest, a)]);
            && s.machine.calls == m.calls + [Shown(m.guest, a)]
            && s.machine.guest == SetRegister(Shown(m.guest, a), RAX, SignExtend(r.status))
            && s.outcome == if r.action == ContinueGuest then ContinueRunning else RetireAndStop
  {
    var g := m.guest;
    StubTail(g, a, number);
    hide StubBytes, StubAt, LittleEndian, BytesAt, Plus;
    DecodePlain(g, 0x0F);
    var i := Bare(g.ip, 0x0F, Plus(a, 9), false);
    DispatchSyscall(m, i, callback);
    var m' := SetFaultOpcode(SetFault(m, i), 0x05);
    SyscallShows(m', i, callback, a);
    hide Decode, Dispatch, Readable, Syscall, Shown, SignExtend;
    assert Execute(m, callback) == Syscall(m', i, callback);
  }

  lemma SyscallShows(m: Machine, i: Instruction, callback: Callback, a: u64)
    requires Wrap64(i.next + 1) == Plus(a, 10)
    ensures var s := Syscall(m, i, callback);
            var calls := m.calls + [Shown(m.guest, a)];
            && s.machine.calls == calls
            && s.machine.guest == SetRegister(Shown(m.guest, a), RAX, SignExtend(callback(calls).status))
            && s.outcome == if callback(calls).action == ContinueGuest then ContinueRunning else RetireAndStop
  {
    hide Plus, SignExtend;
  }

  /** The last three bytes. */
  lemma StubTail(g: Guest, a: u64, number: u32)
    requires StubAt(g, a, number)
    ensures ReadByte(g, Plus(a, 8)) == Some(0x0F) && ReadByte(g, Plus(a, 9)) == Some(0x05)
    ensures ReadByte(g, Plus(a, 10)) == Some(0xC3)
    ensures Plus(Plus(a, 8), 1) == Plus(a, 9) && Wrap64(Plus(a, 9) + 1) == Plus(a, 10)
  {
    assert ReadByte(g, Plus(a, 8)) == Some(StubBytes(number)[8]);
    assert ReadByte(g, Plus(a, 9)) == Some(StubBytes(number)[9]);
    assert ReadByte(g, Plus(a, 10)) == Some(StubBytes(number)[10]);
    PlusIs(a, 8);
    PlusIs(a, 9);
    PlusIs(a, 10);
    PlusIs(Plus(a, 8), 1);
    PlusIs(Plus(a, 9), 1);
    hide Plus, LittleEndian;
  }

  /** ret. */
  lemma GoBack(m: Machine, callback: Callback, a: u64, number: u32)
    requires StubAt(m.guest, a, number) && m.guest.ip == Plus(a, 10) && Readable(m.guest, m.guest.registers[RSP], 8)
    ensures var g := m.guest;
            var s := Execute(m, callback);
            && s.outcome == ContinueRunning && s.machine.calls == m.calls
            && s.machine.guest == SetRegister(g, RSP, StackAt(g, 8)).(ip := Word(g, g.registers[RSP], 8))
  {
    var g := m.guest;
    StubInOnePiece(g, a, number);
    StubCode(g, a, number);
    PlusIs(a, 10);
    var c := BytesAt(g, a, STUB_SIZE);
    assert g.memory[g.ip - g.base] == c[10];
    hide StubBytes, StubAt, LittleEndian, BytesAt;
    DecodePlain(g, 0xC3);
    hide Decode, Word;
    var i := Bare(g.ip, 0xC3, Plus(g.ip, 1), false);
    assert Execute(m, callback) == Return(SetFault(m, i), i);
  }

  /** What the stub's one system call shows the handler: rax is the number, rdi the caller's rcx, and everything else
      the caller's. */
  function StubCall(g: Guest, a: u64, number: u32): Guest {
    Shown(SetRegister(SetRegister(g, RDI, g.registers[RCX]), RAX, number), a)
  }

  /** The guest after the stub has returned `status`. */
  function Returned(g: Guest, a: u64, number: u32, status: i32): Guest
    requires Readable(g, g.registers[RSP], 8)
  {
    g.(registers := g.registers[RDI := g.registers[RCX]][RAX := SignExtend(status)][RSP := StackAt(g, 8)],
       ip := Word(g, g.registers[RSP], 8))
  }

  /** For every number, stub address and guest with a readable return slot: running an emitted stub issues exactly one
      system call, with rax = number and rdi = the caller's rcx; if the handler continues the guest, four instructions
      later it is back at the return address with rax = the sign-extended status, RSP past the return address, and
      flags, vectors, memory and all other registers but rdi unchanged; otherwise the run ends there. */
  lemma StubRuns(m: Machine, callback: Callback, a: u64, number: u32, budget: nat, retired: nat) returns (m': Machine)
    requires StubAt(m.guest, a, number) && m.guest.ip == a && Readable(m.guest, m.guest.registers[RSP], 8) && budget >= 4
    ensures var g := m.guest;
            var calls := m.calls + [StubCall(g, a, number)];
            var r := callback(calls);
            && StubCall(g, a, number).registers[RAX] == number
            && StubCall(g, a, number).registers[RDI] == g.registers[RCX]
            && m'.calls == calls
            && (r.action == ContinueGuest ==>
                  && Loop(Executor(callback), m, budget, retired) == Loop(Executor(callback), m', budget - 4, retired + 4)
                  && m'.guest == Returned(g, a, number, r.status))
            && (r.action != ContinueGuest ==> Loop(Executor(callback), m, budget, retired) == RunResult(m', retired + 3))
  {
    var g := m.guest;
    hide Execute, Word, StubBytes;
    MoveArgument(m, callback, a, number);
    OneStep(callback, m, budget, retired);
    var m1 := Execute(m, callback).machine;
    SameCode(g, m1.guest, a, number);
    LoadNumber(m1, callback, a, number);
    OneStep(callback, m1, budget - 1, retired + 1);
    var m2 := Execute(m1, callback).machine;
    SameCode(g, m2.guest, a, number);
    Trap(m2, callback, a, number);
    OneStep(callback, m2, budget - 2, retired + 2);
    m' := Execute(m2, callback).machine;
    hide StubAt, Loop, Executor;
    var r := callback(m'.calls);
    if r.action == ContinueGuest {
      m' := GoBackStep(m', callback, a, number, budget - 3, retired + 3, g, r.status);
    }
  }

  lemma OneStep(callback: Callback, m: Machine, left: nat, retired: nat)
    requires left > 0
    ensures var s := Execute(m, callback);
            && (s.outcome == ContinueRunning ==>
                  Loop(Executor(callback), m, left, retired) == Loop(Executor(callback), s.machine, left - 1, retired + 1))
            && (s.outcome == RetireAndStop ==>
                  Loop(Executor(callback), m, left, retired) == RunResult(s.machine, retired + 1))
  {
    hide Execute;
  }

  /** The last step of a stub whose call was continued. */
  lemma GoBackStep(m: Machine, callback: Callback, a: u64, number: u32, left: nat, retired: nat, g: Guest, status: i32)
    returns (m': Machine)
    requires Readable(g, g.registers[RSP], 8) && StubAt(g, a, number) && left > 0
    requires m.guest == SetRegister(StubCall(g, a, number), RAX, SignExtend(status))
    ensures Loop(Executor(callback), m, left, retired) == Loop(Executor(callback), m', left - 1, retired + 1)
    ensures m'.guest == Returned(g, a, number, status) && m'.calls == m.calls
  {
    hide Execute, Word;
    SameCode(g, m.guest, a, number);
    GoBack(m, callback, a, number);
    OneStep(callback, m, left, retired);
    m' := Execute(m, callback).machine;
    SameWord(g, m.guest, g.registers[RSP]);
    hide StubAt, Loop, Executor;
    assert m'.guest.registers == Returned(g, a, number, status).registers;
  }

  lemma SameCode(g: Guest, g': Guest, a: u64, number: u32)
    requires StubAt(g, a, number) && g'.memory == g.memory && g'.base == g.base
    ensures StubAt(g', a, number)
  {
  }

  lemma SameWord(g: Guest, g': Guest, a: u64)
    requires Readable(g, a, 8) && g'.memory == g.memory && g'.base == g.base
    ensures Word(g', a, 8) == Word(g, a, 8)
  {
  }
}
