/**
 What instructions mean to each other: a conditional jump behind a comparison or a test branches on the operands, and a
 return or a pop undoes a call or a push.
 */
module X64Sequences {
  import opened Words
  import opened X64Machine
  import opened X64Instructions
  import opened X64Flags
  import opened X64Manual
  import opened X64Laws

  /** At machine m stands a short JE or JNE that can be fetched whole. */
  ghost predicate AtJump(m: Machine, j: Instruction) {
    Decode(m.guest) == Decoded(j) && j.opcode in {0x74, 0x75} && !j.rexW && Inside(m.guest, j.next, 1)
  }

  /** Two steps on from g: only flags and instruction pointer differ, and the jump j was taken iff JE saw the condition, or
      JNE did not. */
  ghost predicate Branched(g: Guest, g1: Guest, s: Step, j: Instruction, condition: bool)
    requires Inside(g1, j.next, 1)
  {
    var taken := if j.opcode == 0x74 then condition else !condition;
    var d := TwosComplement(ByteAt(g1, j.next, 0), 0x100);
    Becomes(s, g.(flags := g1.flags, ip := Wrap64(j.next + 1 + if taken then d else 0)))
  }

  lemma JumpBranches(m: Machine, callback: Callback, g: Guest, j: Instruction, condition: bool)
    requires AtJump(m, j) && m.guest == g.(flags := m.guest.flags, ip := m.guest.ip)
    requires Zero(m.guest.flags) <==> condition
    ensures Branched(g, m.guest, Execute(m, callback), j, condition)
  {
    JumpsOnZero(m, callback, j);
    hide Execute, Decode, Zero, Wrap64;
  }

  /** CMP of an operand with a register (39), then JE or JNE: JE branches iff the two are equal. */
  lemma CompareThenJump(m: Machine, callback: Callback, i: Instruction, j: Instruction)
    requires Decode(m.guest) == Decoded(i) && i.opcode == 0x39 && Execute(m, callback).outcome == ContinueRunning
    requires AtJump(Execute(m, callback).machine, j)
    ensures var g, n, op := m.guest, Bytes(i.rexW), DecodeOperand(m.guest, i, i.next);
            var m1 := Execute(m, callback).machine;
            && Inside(g, i.next, 1) && Accessible(g, op, n)
            && Branched(g, m1.guest, Execute(m1, callback), j,
                        Value(g, op, n) == Part(g.registers[RegisterAt(g, i, i.next)], n))
  {
    hide Execute, Decode, DecodeOperand, Value, Branched, Inside, ByteAt;
    ComparesRegister(m, callback, i);
    var g, n, op, m1 := m.guest, Bytes(i.rexW), DecodeOperand(m.guest, i, i.next), Execute(m, callback).machine;
    JumpBranches(m1, callback, g, j, Value(g, op, n) == Part(g.registers[RegisterAt(g, i, i.next)], n));
  }

  /** CMP of an operand with an immediate (81 /7, 83 /7), then JE or JNE. */
  lemma CompareImmediateThenJump(m: Machine, callback: Callback, i: Instruction, j: Instruction)
    requires Decode(m.guest) == Decoded(i) && i.opcode in {0x81, 0x83} && Execute(m, callback).outcome == ContinueRunning
    requires Inside(m.guest, i.next, 1) && RegField(ByteAt(m.guest, i.next, 0)) == 7
    requires AtJump(Execute(m, callback).machine, j)
    ensures var g, n, op := m.guest, Bytes(i.rexW), DecodeOperand(m.guest, i, i.next);
            var size := if i.opcode == 0x81 then 4 else 1;
            var m1 := Execute(m, callback).machine;
            && Accessible(g, op, n) && Inside(g, op.next, size)
            && Branched(g, m1.guest, Execute(m1, callback), j, Value(g, op, n) == ImmediateAt(g, op.next, size, i.rexW))
  {
    hide Execute, Decode, DecodeOperand, Value, ImmediateAt, Branched, Stores, Inside, ByteAt;
    CombinesImmediate(m, callback, i);
    var g, n, op, m1 := m.guest, Bytes(i.rexW), DecodeOperand(m.guest, i, i.next), Execute(m, callback).machine;
    var size := if i.opcode == 0x81 then 4 else 1;
    JumpBranches(m1, callback, g, j, Value(g, op, n) == ImmediateAt(g, op.next, size, i.rexW));
  }

  /** Two numbers have no bit in common among their n low bits. */
  ghost predicate NoCommonBit(x: nat, y: nat, n: nat) {
    forall k: nat :: k < n ==> !(BitOf(x, k) && BitOf(y, k))
  }

  lemma TestedZero(flags: bv64, v: u64, x: u64, y: u64, wide: bool, n: nat)
    requires LogicResult(flags, v, wide) && IsAnd(v, x, y, n) && v < Modulus(wide)
    ensures Zero(flags) <==> NoCommonBit(x, y, n)
  {
    AndIsZero(v, x, y, n);
    hide BitOf, IsAnd, Zero, Sign, Carry, Overflow;
    assert v % Modulus(wide) == v;
  }

  /** A 64-bit AND of two operands of 32 bits has 32 bits. */
  lemma AndFits(v: u64, x: u64, y: u64, wide: bool)
    requires IsAnd(v, x, y, 64) && x < Modulus(wide) && y < Modulus(wide)
    ensures v < Modulus(wide)
  {
    if !wide {
      NoHighBits(x);
      hide Modulus, BitOf;
      assert forall k: nat :: 32 <= k < 64 ==> !BitOf(v, k);
      FewBits(v, 64, 32);
      Power32();
    }
  }

  lemma Power32()
    ensures PowerOf2(32) == 0x1_0000_0000
  {
    SamePowers(32);
    Power2Values();
  }

  lemma NoHighBits(x: u64)
    requires x < 0x1_0000_0000
    ensures forall k: nat :: k >= 32 ==> !BitOf(x, k)
  {
    Power32();
    forall k: nat | k >= 32 ensures !BitOf(x, k) {
      PowersGrow(32, k);
      SmallQuotient(x, PowerOf2(k));
    }
  }

  lemma SmallQuotient(x: nat, p: nat)
    requires x < p
    ensures x / p == 0
  {
    DivisionIs(x, p, 0, x);
  }

  lemma {:induction false} PowersGrow(a: nat, b: nat)
    requires a <= b
    ensures PowerOf2(a) <= PowerOf2(b)
    decreases b - a
  {
    if a < b {
      PowersGrow(a + 1, b);
    }
  }

  /** A number whose bits from n on are clear is below 2 to the n. */
  lemma {:induction false} FewBits(v: nat, size: nat, n: nat)
    requires v < PowerOf2(size) && forall k: nat :: n <= k < size ==> !BitOf(v, k)
    ensures v < PowerOf2(n)
    decreases size
  {
    if size > n {
      var top := size - 1;
      assert !BitOf(v, top);
      DivisionBelow(v, PowerOf2(top));
      FewBits(v, top, n);
    } else {
      PowersGrow(size, n);
    }
  }

  lemma DivisionBelow(v: nat, p: nat)
    requires p > 0 && v < 2 * p && v / p % 2 != 1
    ensures v < p
  {
    if v >= p {
      DivisionIs(v, p, 1, v - p);
    }
  }

  /** TEST of two registers (85), then JE or JNE: JE branches iff they have no bit in common. */
  lemma TestThenJump(m: Machine, callback: Callback, i: Instruction, j: Instruction)
    requires Decode(m.guest) == Decoded(i) && i.opcode == 0x85 && Execute(m, callback).outcome == ContinueRunning
    requires AtJump(Execute(m, callback).machine, j)
    ensures var g, n, m1 := m.guest, Bytes(i.rexW), Execute(m, callback).machine;
            && Inside(g, i.next, 1)
            && Branched(g, m1.guest, Execute(m1, callback), j,
                        NoCommonBit(Part(g.registers[Numbered(RmField(ByteAt(g, i.next, 0)), i.rexB)], n),
                                    Part(g.registers[RegisterAt(g, i, i.next)], n), 64))
  {
    hide Execute, Decode, Branched, IsAnd, NoCommonBit, Inside, ByteAt;
    var v := TestsRegister(m, callback, i);
    var g, n, m1 := m.guest, Bytes(i.rexW), Execute(m, callback).machine;
    var x := Part(g.registers[Numbered(RmField(ByteAt(g, i.next, 0)), i.rexB)], n);
    var y := Part(g.registers[RegisterAt(g, i, i.next)], n);
    AndFits(v, x, y, i.rexW);
    TestedZero(m1.guest.flags, v, x, y, i.rexW, 64);
    JumpBranches(m1, callback, g, j, NoCommonBit(x, y, 64));
  }

  /** TEST of a byte operand with an immediate (F6 /0), then JE or JNE. */
  lemma TestByteThenJump(m: Machine, callback: Callback, i: Instruction, j: Instruction)
    requires Decode(m.guest) == Decoded(i) && i.opcode == 0xF6 && Execute(m, callback).outcome == ContinueRunning
    requires AtJump(Execute(m, callback).machine, j)
    ensures var g, op, m1 := m.guest, DecodeOperand(m.guest, i, i.next), Execute(m, callback).machine;
            && Accessible(g, op, 1) && Inside(g, op.next, 1)
            && Branched(g, m1.guest, Execute(m1, callback), j, NoCommonBit(Value(g, op, 1), ByteAt(g, op.next, 0), 8))
  {
    hide Execute, Decode, Branched, IsAnd, NoCommonBit, Inside, ByteAt, DecodeOperand, Value;
    var v := TestsByte(m, callback, i);
    var g, op, m1 := m.guest, DecodeOperand(m.guest, i, i.next), Execute(m, callback).machine;
    ByteAndFits(v, Value(g, op, 1), ByteAt(g, op.next, 0));
    TestedZero(m1.guest.flags, v, Value(g, op, 1), ByteAt(g, op.next, 0), false, 8);
    JumpBranches(m1, callback, g, j, NoCommonBit(Value(g, op, 1), ByteAt(g, op.next, 0), 8));
  }

  lemma ByteAndFits(v: nat, x: nat, y: nat)
    requires IsAnd(v, x, y, 8)
    ensures v < 0x100
  {
    SamePowers(8);
    Power2Values();
  }

  /** A RET that finds RSP and the word at it as a CALL left them goes on behind the call, with RSP as before it. */
  lemma CallThenReturn(m: Machine, callback: Callback, i: Instruction, m2: Machine, j: Instruction)
    requires Decode(m.guest) == Decoded(i) && i.opcode == 0xE8 && Execute(m, callback).outcome == ContinueRunning
    requires Decode(m2.guest) == Decoded(j) && j.opcode == 0xC3 && !j.rexW
    requires StackKept(Execute(m, callback).machine.guest, m2.guest)
    ensures Becomes(Execute(m2, callback),
                    m2.guest.(registers := m2.guest.registers[4 := m.guest.registers[4]], ip := Wrap64(i.next + 4)))
  {
    hide Execute, Decode, QwordAt, DwordAt, Wrap64, TwosComplement, Onward;
    CallsRelative(m, callback, i);
    var g1 := Execute(m, callback).machine.guest;
    SameWord(g1, g1.(ip := m.guest.ip), g1.registers[4]);
    ReturnsToTop(m2, callback, j);
    BackAgain(m.guest.registers[4]);
  }

  /** RSP and the word it points at are the same. */
  ghost predicate StackKept(g: Guest, g': Guest) {
    && g'.registers[4] == g.registers[4] && Inside(g, g.registers[4], 8) && Inside(g', g.registers[4], 8)
    && QwordAt(g', g.registers[4]) == QwordAt(g, g.registers[4])
  }

  lemma SameWord(g: Guest, g': Guest, a: u64)
    requires Inside(g, a, 8) && g'.memory == g.memory && g'.base == g.base
    ensures QwordAt(g', a) == QwordAt(g, a)
  {
  }

  lemma BackAgain(a: u64)
    ensures Onward(Onward(a, -8), 8) == a
  {
  }

  /** A POP that finds RSP and the word at it as a PUSH left them takes the pushed register's value, with RSP as before. */
  lemma PushThenPop(m: Machine, callback: Callback, i: Instruction, m2: Machine, j: Instruction)
    requires Decode(m.guest) == Decoded(i) && 0x50 <= i.opcode <= 0x57
    requires Execute(m, callback).outcome == ContinueRunning
    requires Decode(m2.guest) == Decoded(j) && 0x58 <= j.opcode <= 0x5F && !j.rexW
    requires StackKept(Execute(m, callback).machine.guest, m2.guest)
    ensures var r, v := Numbered(j.opcode - 0x58, j.rexB), m.guest.registers[Numbered(i.opcode - 0x50, i.rexB)];
            Becomes(Execute(m2, callback),
                    m2.guest.(registers := m2.guest.registers[4 := m.guest.registers[4]][r := v], ip := j.next))
  {
    hide Execute, Decode, QwordAt, Wrap64, Numbered, Onward;
    PushesRegister(m, callback, i);
    var g1 := Execute(m, callback).machine.guest;
    SameWord(g1, g1.(ip := m.guest.ip), g1.registers[4]);
    PopsRegister(m2, callback, j);
    BackAgain(m.guest.registers[4]);
  }
}
