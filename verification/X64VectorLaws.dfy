/**
 What each vector instruction does, by opcode, over `Execute`: the bytes of its result spelled out.
 */
module X64VectorLaws {
  import opened Words
  import opened X64Machine
  import opened X64Instructions
  import opened X64Manual
  import opened X64Laws

  /** The sixteen bytes of a vector operand. */
  function VectorOf(g: Guest, op: Operand): Vector
    requires Accessible(g, op, 16)
  {
    if op.InRegister? then g.vectors[op.index] else g.memory[op.address - g.base..op.address - g.base + 16]
  }

  predicate Unprefixed(i: Instruction) { !i.prefix66 && !i.prefixF2 && !i.prefixF3 }
  predicate Prefixed66(i: Instruction) { i.prefix66 && !i.prefixF2 && !i.prefixF3 }
  predicate PrefixedF2(i: Instruction) { !i.prefix66 && i.prefixF2 && !i.prefixF3 }
  predicate PrefixedF3(i: Instruction) { !i.prefix66 && !i.prefixF2 && i.prefixF3 }

  /** Apart from the instruction pointer, vector register r is all that changes. */
  predicate SetsVector(s: Step, g: Guest, r: Index, ip: u64) {
    var g' := s.machine.guest;
    s.outcome == ContinueRunning && g' == g.(vectors := g.vectors[r := g'.vectors[r]], ip := ip)
  }

  lemma RmVectorIs(g: Guest, op: Operand)
    requires !op.Unreadable?
    ensures RmVector(g, op) == if Accessible(g, op, 16) then Some(VectorOf(g, op)) else None
  {
  }

  /** MOVUPS from an operand, 0F 10. */
  lemma LoadsVector(m: Machine, callback: Callback, i: Instruction)
    requires Decode(m.guest) == Decoded(i) && Secondary(m.guest, i, 0x10)
    ensures var s, g, at := Execute(m, callback), m.guest, Wrap64(i.next + 1);
            var op := DecodeOperand(g, i, at);
            if Unprefixed(i) && Inside(g, at, 1) && Accessible(g, op, 16) then
              var r := RegisterAt(g, i, at);
              SetsVector(s, g, r, op.next) && s.machine.guest.vectors[r] == VectorOf(g, op)
            else Stops(s)
  {
    hide Execute, Decode, SecondaryHandler, DecodeOperand, Wrap64, RmVector, VectorOf, Reg;
    var m' := DispatchedSecondary(m, callback, i, 0x10);
    SecondaryTable(m', 0x10, i, callback);
    var g, at := m.guest, Wrap64(i.next + 1);
    var op := DecodeOperand(g, i, at);
    OperandNeedsByte(g, i, at);
    if !op.Unreadable? {
      RegisterOperandIs(g, i, at);
      RmVectorIs(g, op);
    }
  }

  /** MOVUPS and MOVAPS to an operand, 0F 11 and 0F 29, and MOVDQU, F3 0F 7F. */
  lemma StoresVector(m: Machine, callback: Callback, i: Instruction, opcode: u8)
    requires Decode(m.guest) == Decoded(i) && Secondary(m.guest, i, opcode) && opcode in {0x11, 0x29, 0x7F}
    ensures var s, g, at := Execute(m, callback), m.guest, Wrap64(i.next + 1);
            var op := DecodeOperand(g, i, at);
            if (if opcode == 0x7F then PrefixedF3(i) else Unprefixed(i)) && Inside(g, at, 1) && Accessible(g, op, 16) then
              var v, g' := g.vectors[RegisterAt(g, i, at)], s.machine.guest;
              if op.InRegister? then SetsVector(s, g, op.index, op.next) && g'.vectors[op.index] == v
              else
                && s.outcome == ContinueRunning && g'.ip == op.next && WrittenAt(g, g'.(ip := g.ip), op.address, 16)
                && forall k :: 0 <= k < 16 ==> g'.memory[op.address - g.base + k] == v[k]
            else Stops(s)
  {
    hide Execute, Decode, SecondaryHandler, DecodeOperand, Wrap64, Reg;
    var m' := DispatchedSecondary(m, callback, i, opcode);
    SecondaryTable(m', opcode, i, callback);
    var g, at := m.guest, Wrap64(i.next + 1);
    OperandNeedsByte(g, i, at);
    if Inside(g, at, 1) {
      RegisterOperandIs(g, i, at);
    }
  }

  /** XORPS, 0F 57: byte by byte, bit by bit. */
  lemma XorsVector(m: Machine, callback: Callback, i: Instruction)
    requires Decode(m.guest) == Decoded(i) && Secondary(m.guest, i, 0x57)
    ensures var s, g, at := Execute(m, callback), m.guest, Wrap64(i.next + 1);
            var op := DecodeOperand(g, i, at);
            if Unprefixed(i) && Inside(g, at, 1) && Accessible(g, op, 16) then
              var r := RegisterAt(g, i, at);
              && SetsVector(s, g, r, op.next)
              && forall k :: 0 <= k < 16 ==> IsXor(s.machine.guest.vectors[r][k], g.vectors[r][k], VectorOf(g, op)[k], 8)
            else Stops(s)
  {
    hide Execute, Decode, SecondaryHandler, DecodeOperand, Wrap64, RmVector, VectorOf, IsXor, XorVectors, Reg;
    var m' := DispatchedSecondary(m, callback, i, 0x57);
    SecondaryTable(m', 0x57, i, callback);
    var g, at := m.guest, Wrap64(i.next + 1);
    var op := DecodeOperand(g, i, at);
    OperandNeedsByte(g, i, at);
    if !op.Unreadable? {
      RegisterOperandIs(g, i, at);
      RmVectorIs(g, op);
      if Accessible(g, op, 16) {
        XorVectorsAre(g.vectors[RegisterAt(g, i, at)], VectorOf(g, op));
      }
    }
  }

  lemma XorVectorsAre(x: Vector, y: Vector)
    ensures forall k :: 0 <= k < 16 ==> IsXor(XorVectors(x, y)[k], x[k], y[k], 8)
  {
    hide IsXor, Xor8;
    forall k | 0 <= k < 16 ensures IsXor(XorVectors(x, y)[k], x[k], y[k], 8) {
      ByteOperationsAre(x[k], y[k]);
    }
  }

  /** MOVD, 66 0F 6E: the operand's dword, and zeros above it. */
  lemma MovesDword(m: Machine, callback: Callback, i: Instruction)
    requires Decode(m.guest) == Decoded(i) && Secondary(m.guest, i, 0x6E)
    ensures var s, g, at := Execute(m, callback), m.guest, Wrap64(i.next + 1);
            var op := DecodeOperand(g, i, at);
            if Prefixed66(i) && Inside(g, at, 1) && Accessible(g, op, 4) then
              var v := s.machine.guest.vectors[RegisterAt(g, i, at)];
              && SetsVector(s, g, RegisterAt(g, i, at), op.next) && Quad(v[0], v[1], v[2], v[3]) == Value(g, op, 4)
              && forall k :: 4 <= k < 16 ==> v[k] == 0
            else Stops(s)
  {
    hide Execute, Decode, SecondaryHandler, DecodeOperand, Wrap64, RmValue, Value, LittleEndian, Quad, Reg;
    var m' := DispatchedSecondary(m, callback, i, 0x6E);
    SecondaryTable(m', 0x6E, i, callback);
    var g, at := m.guest, Wrap64(i.next + 1);
    var op := DecodeOperand(g, i, at);
    OperandNeedsByte(g, i, at);
    if !op.Unreadable? {
      RegisterOperandIs(g, i, at);
      RmValueIs(g, op, false);
      if Accessible(g, op, 4) {
        ValueFits(g, op, false);
        DwordBytes(Value(g, op, 4));
      }
    }
  }

  lemma DwordBytes(v: u32)
    ensures var b := LittleEndian(v, 4); Quad(b[0], b[1], b[2], b[3]) == v
  {
    Pow256Values();
    LittleEndianRoundTrip(v, 4);
    FourBytesValue(LittleEndian(v, 4));
    hide FromLittleEndian, Quad;
  }

  /** PUNPCKLBW, 66 0F 60: the low bytes of destination and operand, alternating. */
  lemma InterleavesBytes(m: Machine, callback: Callback, i: Instruction)
    requires Decode(m.guest) == Decoded(i) && Secondary(m.guest, i, 0x60)
    ensures var s, g, at := Execute(m, callback), m.guest, Wrap64(i.next + 1);
            var op := DecodeOperand(g, i, at);
            if Prefixed66(i) && Inside(g, at, 1) && Accessible(g, op, 16) then
              var r := RegisterAt(g, i, at);
              var x, y := g.vectors[r], VectorOf(g, op);
              && SetsVector(s, g, r, op.next)
              && s.machine.guest.vectors[r] == [x[0], y[0], x[1], y[1], x[2], y[2], x[3], y[3],
                                                x[4], y[4], x[5], y[5], x[6], y[6], x[7], y[7]]
            else Stops(s)
  {
    hide Execute, Decode, SecondaryHandler, DecodeOperand, Wrap64, RmVector, VectorOf, Interleaved, Reg;
    var m' := DispatchedSecondary(m, callback, i, 0x60);
    SecondaryTable(m', 0x60, i, callback);
    var g, at := m.guest, Wrap64(i.next + 1);
    var op := DecodeOperand(g, i, at);
    OperandNeedsByte(g, i, at);
    if !op.Unreadable? {
      RegisterOperandIs(g, i, at);
      RmVectorIs(g, op);
      if Accessible(g, op, 16) {
        InterleavedIs(g.vectors[RegisterAt(g, i, at)], VectorOf(g, op));
      }
    }
  }

  lemma InterleavedIs(x: Vector, y: Vector)
    ensures Interleaved(x, y) == [x[0], y[0], x[1], y[1], x[2], y[2], x[3], y[3],
                                  x[4], y[4], x[5], y[5], x[6], y[6], x[7], y[7]]
  {
  }

  /** Field j of a selector: bits 2j and 2j + 1. */
  function SelectorField(immediate: u8, j: nat): (n: nat)
    ensures n < 4
  {
    (if BitOf(immediate, 2 * j) then 1 else 0) + (if BitOf(immediate, 2 * j + 1) then 2 else 0)
  }

  /** PSHUFD, 66 0F 70: dword j of the result is the operand's dword that field j of the selector numbers. PSHUFLW,
      F2 0F 70: so it goes for the four low words, and the high half is the operand's. */
  lemma Shuffles(m: Machine, callback: Callback, i: Instruction)
    requires Decode(m.guest) == Decoded(i) && Secondary(m.guest, i, 0x70)
    ensures var s, g, at := Execute(m, callback), m.guest, Wrap64(i.next + 1);
            var op := DecodeOperand(g, i, at);
            if (Prefixed66(i) || PrefixedF2(i)) && Inside(g, at, 1) && Accessible(g, op, 16) && Inside(g, op.next, 1) then
              var r, immediate := RegisterAt(g, i, at), ByteAt(g, op.next, 0);
              && SetsVector(s, g, r, Wrap64(op.next + 1))
              && if i.prefix66 then Selects(s.machine.guest.vectors[r], VectorOf(g, op), immediate, 4)
                 else Selects(s.machine.guest.vectors[r], VectorOf(g, op), immediate, 2)
                      && s.machine.guest.vectors[r][8..] == VectorOf(g, op)[8..]
            else Stops(s)
  {
    hide Execute, Decode, SecondaryHandler, DecodeOperand, Wrap64, RmVector, VectorOf, Selects, ShuffledDwords,
      ShuffledLowWords, Reg;
    var m' := DispatchedSecondary(m, callback, i, 0x70);
    SecondaryTable(m', 0x70, i, callback);
    var g, at := m.guest, Wrap64(i.next + 1);
    var op := DecodeOperand(g, i, at);
    OperandNeedsByte(g, i, at);
    if !op.Unreadable? {
      RegisterOperandIs(g, i, at);
      RmVectorIs(g, op);
      if Accessible(g, op, 16) && Inside(g, op.next, 1) {
        ShuffledAre(VectorOf(g, op), ByteAt(g, op.next, 0));
      }
    }
  }

  /** The n-th unit of `size` bytes. */
  function Unit(v: Vector, size: nat, n: nat): seq<u8>
    requires size in {2, 4} && n < 4
  {
    v[n * size..n * size + size]
  }

  /** The first four units of `size` bytes are the selected ones of v. */
  ghost predicate Selects(v': Vector, v: Vector, immediate: u8, size: nat)
    requires size in {2, 4}
  {
    forall j: nat :: j < 4 ==> Unit(v', size, j) == Unit(v, size, SelectorField(immediate, j))
  }

  lemma SelectorIs(immediate: u8, j: nat)
    requires j < 4
    ensures Selector(immediate, j) == SelectorField(immediate, j) < 4
  {
    PowersBelow8();
    FieldIs(immediate, 2 * j);
    hide BitOf, PowerOf2;
  }

  lemma PowersBelow8()
    ensures PowerOf2(0) == 1 && PowerOf2(2) == 4 && PowerOf2(4) == 16 && PowerOf2(6) == 64
  {
    assert PowerOf2(1) == 2 && PowerOf2(3) == 8 && PowerOf2(5) == 32;
  }

  /** Two neighbouring bits, as a number. */
  lemma FieldIs(x: nat, k: nat)
    ensures (if BitOf(x, k) then 1 else 0) + (if BitOf(x, k + 1) then 2 else 0) == x / PowerOf2(k) % 4
  {
    var p := PowerOf2(k);
    DivideTwice(x, p, 2);
    assert PowerOf2(k + 1) == p * 2;
    TwoBits(x / p);
    hide PowerOf2;
  }

  lemma TwoBits(x: nat)
    ensures x % 4 == x % 2 + 2 * (x / 2 % 2)
  {
  }

  lemma ShuffledAre(v: Vector, immediate: u8)
    ensures Selects(ShuffledDwords(v, immediate), v, immediate, 4)
    ensures Selects(ShuffledLowWords(v, immediate), v, immediate, 2)
    ensures ShuffledLowWords(v, immediate)[8..] == v[8..]
  {
    hide Selector, SelectorField;
    SelectorIs(immediate, 0);
    SelectorIs(immediate, 1);
    SelectorIs(immediate, 2);
    SelectorIs(immediate, 3);
  }

  /** MOVQ, 66 0F D6: the eight low bytes go to memory. */
  lemma StoresLowQword(m: Machine, callback: Callback, i: Instruction)
    requires Decode(m.guest) == Decoded(i) && Secondary(m.guest, i, 0xD6)
    ensures var s, g, at := Execute(m, callback), m.guest, Wrap64(i.next + 1);
            var op := DecodeOperand(g, i, at);
            if Prefixed66(i) && Inside(g, at, 1) && op.InMemory? && Accessible(g, op, 8) then
              var v, g' := g.vectors[RegisterAt(g, i, at)], s.machine.guest;
              && s.outcome == ContinueRunning && g'.ip == op.next && WrittenAt(g, g'.(ip := g.ip), op.address, 8)
              && forall k :: 0 <= k < 8 ==> g'.memory[op.address - g.base + k] == v[k]
            else Stops(s)
  {
    hide Execute, Decode, SecondaryHandler, DecodeOperand, Wrap64, Reg;
    var m' := DispatchedSecondary(m, callback, i, 0xD6);
    SecondaryTable(m', 0xD6, i, callback);
    var g, at := m.guest, Wrap64(i.next + 1);
    OperandNeedsByte(g, i, at);
    if Inside(g, at, 1) {
      RegisterOperandIs(g, i, at);
    }
  }
}
