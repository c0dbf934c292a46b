/**
 Imports that run: what the loader bound (win32/x64_pe64_image.cpp) is code the emulator can execute, and a guest that
 calls through an import's slot makes the import's system call.
 */
module ImportCalls {
  import opened Words
  import opened ImportStubs
  import opened Win32Imports
  import opened PeImports
  import opened X64Machine
  import opened X64Instructions

  /** The guest can run the binding's stub. */
  ghost predicate Callable(g: Guest, b: Binding) {
    StubAt(g, Wrap64(g.base + b.stub), b.number)
  }

  /** The guest reads the stub's address from the binding's slot. */
  predicate SlotPoints(g: Guest, b: Binding) {
    && Readable(g, Wrap64(g.base + b.slot), 8)
    && Word(g, Wrap64(g.base + b.slot), 8) == Wrap64(g.base + b.stub)
  }

  /** Once bound, an import's stub is code the emulated guest can fetch, and its slot, unless a later import overlapped
      it, holds the stub's guest address. */
  lemma BoundIsCallable(before: seq<u8>, g: Guest, exports: seq<Export>, imageSize: nat, bindings: seq<Binding>,
                        next: nat, i: nat)
    requires Bound(before, g.memory, exports, g.base, imageSize, bindings, next) && i < |bindings|
    requires g.base + |g.memory| <= TWO_64
    ensures Callable(g, bindings[i]) && (LastInSlot(bindings, i) ==> SlotPoints(g, bindings[i]))
  {
    BoundAt(before, g.memory, exports, g.base, imageSize, bindings, next, i);
    hide Bound, StubHolds, SlotHolds, Callable, SlotPoints, LastInSlot;
    StubIsFetchable(g, bindings[i]);
    if LastInSlot(bindings, i) {
      SlotIsReadable(g, bindings[i]);
    }
  }

  /** The guest is about to execute FF 15 disp32, call [rip + disp32], on the slot. */
  predicate CallsThrough(g: Guest, slot: u64) {
    var operand := Plus(g.ip, 1);
    && ReadByte(g, g.ip) == Some(0xFF) && ReadByte(g, operand) == Some(0x15)
    && Readable(g, Plus(operand, 1), 4) && Plus(operand, 5 + SignExtend32(Word(g, Plus(operand, 1), 4))) == slot
  }

  function ReturnAddress(g: Guest): u64 {
    Plus(Plus(g.ip, 1), 5)
  }

  /** A return address can be pushed. */
  predicate StackReady(g: Guest) {
    g.registers[RSP] >= Wrap64(g.base + 8) && Readable(g, StackAt(g, -8), 8)
  }

  /** The guest inside the function it has called. */
  function Called(g: Guest, target: u64): Guest
    requires StackReady(g)
  {
    WriteBytes(SetRegister(g, RSP, StackAt(g, -8)), StackAt(g, -8), LittleEndian(ReturnAddress(g), 8)).(ip := target)
  }

  lemma CallDispatches(m: Machine, callback: Callback)
    requires ReadByte(m.guest, m.guest.ip) == Some(0xFF)
    ensures var i := Bare(m.guest.ip, 0xFF, Plus(m.guest.ip, 1), false);
            Execute(m, callback) == GroupFF(SetFault(m, i), i)
  {
    hide Plus, GroupFF, Decode;
    DecodePlain(m.guest, 0xFF);
  }

  lemma CallTakesSlot(m: Machine, i: Instruction, slot: u64)
    requires CallsThrough(m.guest, slot) && Readable(m.guest, slot, 8)
    requires i == Bare(m.guest.ip, 0xFF, Plus(m.guest.ip, 1), false)
    ensures GroupFF(m, i) == PushThenGo(m, ReturnAddress(m.guest), Word(m.guest, slot, 8))
  {
    hide Word, SignExtend32, PushThenGo, SteppedByOne, Readable;
    assert RegBits(0x15) == 2 && Mod(0x15) == 0 && RmBits(0x15) == 5;
  }

  lemma PushEnters(m: Machine, target: u64)
    requires StackReady(m.guest)
    ensures var s := PushThenGo(m, ReturnAddress(m.guest), target);
            && s.outcome == ContinueRunning && s.machine.calls == m.calls && s.machine.guest == Called(m.guest, target)
  {
    hide LittleEndian, ReturnAddress, StackAt, Wrap64, Overwrite;
  }

  lemma CallStep(m: Machine, callback: Callback, slot: u64)
    requires CallsThrough(m.guest, slot) && StackReady(m.guest) && Readable(m.guest, slot, 8)
    ensures var s := Execute(m, callback);
            && s.outcome == ContinueRunning && s.machine.calls == m.calls
            && s.machine.guest == Called(m.guest, Word(m.guest, slot, 8))
  {
    hide Word, Plus, Bare, GroupFF, Execute, PushThenGo, Called, Readable, StackReady, ReturnAddress;
    CallDispatches(m, callback);
    var i := Bare(m.guest.ip, 0xFF, Plus(m.guest.ip, 1), false);
    CallTakesSlot(SetFault(m, i), i, slot);
    PushEnters(SetFault(m, i), Word(m.guest, slot, 8));
  }

  /** The pushed word misses the stub. */
  predicate StackMisses(g: Guest, b: Binding) {
    var sp := StackAt(g, -8);
    sp + 8 <= g.base + b.stub || g.base + b.stub + STUB_SIZE <= sp
  }

  lemma ReadElsewhere(g: Guest, target: u64, x: u64)
    requires StackReady(g) && (x < StackAt(g, -8) || StackAt(g, -8) + 8 <= x)
    ensures ReadByte(Called(g, target), x) == ReadByte(g, x)
  {
    hide LittleEndian, ReturnAddress, StackAt, Wrap64;
  }

  lemma CalledKeepsStub(g: Guest, b: Binding, target: u64)
    requires StackReady(g) && StackMisses(g, b) && Callable(g, b)
    requires g.base + |g.memory| <= TWO_64 && b.stub + STUB_SIZE <= |g.memory|
    ensures Callable(Called(g, target), b)
  {
    hide StubBytes, LittleEndian, ReturnAddress, ReadByte, Wrap64, StackAt, StackReady;
    var a := Wrap64(g.base + b.stub);
    InRange(g.base, b.stub, |g.memory|);
    forall k: nat | k < STUB_SIZE ensures ReadByte(Called(g, target), Plus(a, k)) == ReadByte(g, Plus(a, k)) {
      PlusIs(a, k);
      ReadElsewhere(g, target, Plus(a, k));
    }
    CalledIs(g, target);
  }

  lemma WroteBytes(g: Guest, a: u64, bytes: seq<u8>)
    requires Readable(g, a, |bytes|)
    ensures Readable(WriteBytes(g, a, bytes), a, |bytes|) && BytesAt(WriteBytes(g, a, bytes), a, |bytes|) == bytes
  {
  }

  lemma CalledReturns(g: Guest, target: u64)
    requires StackReady(g)
    ensures var g' := Called(g, target);
            && Readable(g', g'.registers[RSP], 8) && Word(g', g'.registers[RSP], 8) == ReturnAddress(g)
            && StackAt(g', 8) == g.registers[RSP]
  {
    hide LittleEndian, ReturnAddress, Word, BytesAt, Wrap64, Overwrite;
    var g', to := Called(g, target), StackAt(g, -8);
    WroteBytes(SetRegister(g, RSP, to), to, LittleEndian(ReturnAddress(g), 8));
    SameBytes(g', WriteBytes(SetRegister(g, RSP, to), to, LittleEndian(ReturnAddress(g), 8)), to);
    WordAt(g', to, ReturnAddress(g));
    BackAndForth(g.registers[RSP]);
  }

  lemma SameBytes(g: Guest, g': Guest, a: u64)
    requires g'.memory == g.memory && g'.base == g.base && Readable(g, a, 8)
    ensures Readable(g', a, 8) && BytesAt(g, a, 8) == BytesAt(g', a, 8)
  {
  }

  lemma BackAndForth(sp: u64)
    ensures Plus(Plus(sp, -8), 8) == sp
  {
  }

  /** The guest after its call has returned `status`. */
  function CallReturned(g: Guest, status: i32): Guest
    requires StackReady(g)
  {
    Called(g, ReturnAddress(g)).(registers := g.registers[RDI := g.registers[RCX]][RAX := SignExtend(status)])
  }

  /** The call shows the handler the export's number in rax and the first argument in rdi, once; if the handler
      continues the guest, five instructions later it is behind the call, with the status in rax, its stack pointer
      back, and nothing else changed but rdi and the word under the stack; otherwise the run ends there, in m'. */
  ghost predicate CallRuns(m: Machine, callback: Callback, b: Binding, budget: nat, retired: nat, m': Machine)
    requires StackReady(m.guest) && budget >= 5
  {
    var g, a := m.guest, Wrap64(m.guest.base + b.stub);
    var shown := StubCall(Called(g, a), a, b.number);
    var r := callback(m.calls + [shown]);
    && shown.registers[RAX] == b.number && shown.registers[RDI] == g.registers[RCX]
    && m'.calls == m.calls + [shown]
    && (r.action == ContinueGuest ==>
          && Loop(Executor(callback), m, budget, retired) == Loop(Executor(callback), m', budget - 5, retired + 5)
          && m'.guest == CallReturned(g, r.status))
    && (r.action != ContinueGuest ==> Loop(Executor(callback), m, budget, retired) == RunResult(m', retired + 4))
  }

  /** Calling through a bound slot runs the import, for every image, import, guest and handler, as long as the pushed
      return address does not fall on the stub. */
  lemma BoundImportsRun(before: seq<u8>, m: Machine, callback: Callback, exports: seq<Export>, imageSize: nat,
                        bindings: seq<Binding>, next: nat, k: nat, budget: nat, retired: nat) returns (m': Machine)
    requires Bound(before, m.guest.memory, exports, m.guest.base, imageSize, bindings, next)
    requires k < |bindings| && LastInSlot(bindings, k) && m.guest.base + |m.guest.memory| <= TWO_64
    requires CallsThrough(m.guest, Wrap64(m.guest.base + bindings[k].slot)) && StackReady(m.guest)
    requires StackMisses(m.guest, bindings[k]) && budget >= 5
    ensures CallRuns(m, callback, bindings[k], budget, retired, m')
  {
    hide Bound, LastInSlot, CallRuns, Callable, SlotPoints, StubHolds, SlotHolds, CallsThrough, StackReady, StackMisses;
    var g, b := m.guest, bindings[k];
    BoundIsCallable(before, g, exports, imageSize, bindings, next, k);
    BoundAt(before, g.memory, exports, g.base, imageSize, bindings, next, k);
    m' := BoundCallRuns(m, callback, b, budget, retired);
  }

  lemma BoundCallRuns(m: Machine, callback: Callback, b: Binding, budget: nat, retired: nat) returns (m': Machine)
    requires Callable(m.guest, b) && SlotPoints(m.guest, b) && StubHolds(m.guest.memory, b)
    requires m.guest.base + |m.guest.memory| <= TWO_64
    requires CallsThrough(m.guest, Wrap64(m.guest.base + b.slot)) && StackReady(m.guest)
    requires StackMisses(m.guest, b) && budget >= 5
    ensures CallRuns(m, callback, b, budget, retired, m')
  {
    var g := m.guest;
    hide Execute, Loop, Executor, Word, StubBytes, LittleEndian, Wrap64, Callable, StackMisses, Called, CallsThrough,
      Readable, StackAt, Returned, Shown;
    var slot, a := Wrap64(g.base + b.slot), Wrap64(g.base + b.stub);
    CallStep(m, callback, slot);
    OneStep(callback, m, budget, retired);
    CalledKeepsStub(g, b, a);
    CalledReturns(g, a);
    var m1 := Execute(m, callback).machine;
    CalledIs(g, a);
    CallableIsStub(m1.guest, b, a);
    m' := StubRuns(m1, callback, a, b.number, budget - 1, retired + 1);
    ReturnIs(g, a, b.number, callback(m'.calls).status);
  }

  lemma CallableIsStub(g: Guest, b: Binding, a: u64)
    requires Callable(g, b) && a == Wrap64(g.base + b.stub)
    ensures StubAt(g, a, b.number)
  {
  }

  lemma CalledIs(g: Guest, a: u64)
    requires StackReady(g)
    ensures Called(g, a).ip == a && Called(g, a).base == g.base && Called(g, a).registers[RCX] == g.registers[RCX]
  {
    hide LittleEndian, ReturnAddress, StackAt;
  }

  lemma ReturnIs(g: Guest, a: u64, number: u32, status: i32)
    requires StackReady(g) && Readable(Called(g, a), Called(g, a).registers[RSP], 8)
    requires Word(Called(g, a), Called(g, a).registers[RSP], 8) == ReturnAddress(g)
    requires StackAt(Called(g, a), 8) == g.registers[RSP]
    ensures Returned(Called(g, a), a, number, status) == CallReturned(g, status)
  {
    hide LittleEndian, ReturnAddress, StackAt, Word, Readable, SignExtend, Overwrite, Wrap64;
    var regs := g.registers;
    assert regs[RSP := StackAt(g, -8)][RDI := regs[RCX]][RAX := SignExtend(status)][RSP := regs[RSP]]
        == regs[RDI := regs[RCX]][RAX := SignExtend(status)];
  }

  lemma BoundAt(before: seq<u8>, after: seq<u8>, exports: seq<Export>, imageBase: u64, imageSize: nat,
                bindings: seq<Binding>, next: nat, i: nat)
    requires Bound(before, after, exports, imageBase, imageSize, bindings, next) && i < |bindings|
    ensures StubHolds(after, bindings[i]) && (LastInSlot(bindings, i) ==> SlotHolds(after, imageBase, bindings[i]))
  {
    hide StubHolds, SlotHolds, LastInSlot, WellPlaced, RestKept, StubsApart;
  }

  lemma InRange(a: u64, n: nat, size: nat)
    requires a + size <= TWO_64 && n < size
    ensures Wrap64(a + n) == a + n
  {
  }

  lemma StubIsFetchable(g: Guest, b: Binding)
    requires StubHolds(g.memory, b) && g.base + |g.memory| <= TWO_64
    ensures Callable(g, b)
  {
    InRange(g.base, b.stub, |g.memory|);
    hide StubBytes, Wrap64;
    var a := Wrap64(g.base + b.stub);
    forall k: nat | k < STUB_SIZE ensures ReadByte(g, Plus(a, k)) == Some(StubBytes(b.number)[k]) {
      InRange(g.base, b.stub + k, |g.memory|);
      assert a + k == g.base + (b.stub + k);
      assert g.memory[b.stub..b.stub + STUB_SIZE][k] == StubBytes(b.number)[k];
    }
  }

  lemma SlotBytes(g: Guest, b: Binding)
    requires SlotHolds(g.memory, g.base, b) && g.base + |g.memory| <= TWO_64
    ensures Readable(g, Wrap64(g.base + b.slot), 8)
    ensures BytesAt(g, Wrap64(g.base + b.slot), 8) == LittleEndian(Wrap64(g.base + b.stub), 8)
  {
    hide LittleEndian, Wrap64, BytesAt, Readable;
    InRange(g.base, b.slot, |g.memory|);
    BytesAtOffset(g, b.slot, 8);
  }

  lemma SlotIsReadable(g: Guest, b: Binding)
    requires SlotHolds(g.memory, g.base, b) && g.base + |g.memory| <= TWO_64
    ensures SlotPoints(g, b)
  {
    hide SlotHolds, LittleEndian, Word, Wrap64, BytesAt, Readable;
    SlotBytes(g, b);
    WordAt(g, Wrap64(g.base + b.slot), Wrap64(g.base + b.stub));
  }

  lemma WordAt(g: Guest, a: u64, v: u64)
    requires Readable(g, a, 8) && BytesAt(g, a, 8) == LittleEndian(v, 8)
    ensures Word(g, a, 8) == v
  {
    WordRoundTrip(v);
    hide LittleEndian, FromLittleEndian, BytesAt, Readable, Pow256;
  }

  lemma BytesAtOffset(g: Guest, n: nat, length: nat)
    requires n + length <= |g.memory| && g.base + n < TWO_64
    ensures Readable(g, g.base + n, length) && BytesAt(g, g.base + n, length) == g.memory[n..n + length]
  {
  }
}
