/**
 Instruction encodings as volume 2A of the Intel SDM lays them out: prefixes, ModRM and SIB fields, effective addresses. The
 reference definitions here read bytes of guest memory by plain arithmetic and share nothing with the emulator's decoders;
 the lemmas say exactly where the two agree.
 */
module X64Manual {
  import opened Words
  import opened X64Machine
  import opened X64Instructions

  // ----- Guest memory, spelled out -----

  /** The n bytes at a are guest memory. */
  predicate Inside(g: Guest, a: u64, n: nat) {
    g.base <= a && a + n <= g.base + |g.memory|
  }

  function ByteAt(g: Guest, a: u64, k: nat): u8
    requires Inside(g, a, k + 1)
  {
    g.memory[a - g.base + k]
  }

  function DwordAt(g: Guest, a: u64): u32
    requires Inside(g, a, 4)
  {
    Quad(ByteAt(g, a, 0), ByteAt(g, a, 1), ByteAt(g, a, 2), ByteAt(g, a, 3))
  }

  function QwordAt(g: Guest, a: u64): u64
    requires Inside(g, a, 8)
  {
    var low, high: int := DwordAt(g, a), Quad(ByteAt(g, a, 4), ByteAt(g, a, 5), ByteAt(g, a, 6), ByteAt(g, a, 7));
    low + 0x1_0000_0000 * high
  }

  /** The number below `modulus`, read as two's complement. */
  function TwosComplement(x: int, modulus: int): int {
    if 2 * x < modulus then x else x - modulus
  }

  // ----- Bits -----

  function PowerOf2(n: nat): (p: nat)
    ensures p > 0
  {
    if n == 0 then 1 else 2 * PowerOf2(n - 1)
  }

  predicate BitOf(x: nat, k: nat) {
    x / PowerOf2(k) % 2 == 1
  }

  /** v is the bitwise AND of two n-bit numbers. */
  ghost predicate IsAnd(v: nat, x: nat, y: nat, n: nat) {
    v < PowerOf2(n) && forall k: nat :: k < n ==> (BitOf(v, k) <==> BitOf(x, k) && BitOf(y, k))
  }

  ghost predicate IsOr(v: nat, x: nat, y: nat, n: nat) {
    v < PowerOf2(n) && forall k: nat :: k < n ==> (BitOf(v, k) <==> BitOf(x, k) || BitOf(y, k))
  }

  ghost predicate IsXor(v: nat, x: nat, y: nat, n: nat) {
    v < PowerOf2(n) && forall k: nat :: k < n ==> (BitOf(v, k) <==> BitOf(x, k) != BitOf(y, k))
  }

  lemma BitAbove(x: nat, k: nat)
    ensures BitOf(x, k + 1) <==> BitOf(x / 2, k)
    ensures BitOf(x, 0) <==> x % 2 == 1
  {
    DivideTwice(x, 2, PowerOf2(k));
  }

  /** Bit k of a combined number is the combination of the bits k. */
  lemma {:induction false} BitwiseBits(operation: BitOperation, x: nat, y: nat, n: nat, k: nat)
    requires k < n
    ensures BitOf(Bitwise(operation, x, y, n), k) <==> Combined(operation, BitOf(x, k), BitOf(y, k))
    decreases n
  {
    hide BitOf, Combined;
    var v := Bitwise(operation, x, y, n);
    if k == 0 {
      BitAbove(x, 0);
      BitAbove(y, 0);
      BitAbove(v, 0);
    } else {
      BitAbove(x, k - 1);
      BitAbove(y, k - 1);
      BitAbove(v, k - 1);
      BitwiseBits(operation, x / 2, y / 2, n - 1, k - 1);
    }
  }

  lemma BitwiseIs(operation: BitOperation, x: nat, y: nat, n: nat)
    ensures var v := Bitwise(operation, x, y, n);
            match operation
            case BitAnd => IsAnd(v, x, y, n)
            case BitOr => IsOr(v, x, y, n)
            case BitXor => IsXor(v, x, y, n)
  {
    var v := Bitwise(operation, x, y, n);
    SamePowers(n);
    hide BitOf, Bitwise, PowerOf2, Power2;
    forall k: nat | k < n ensures BitOf(v, k) <==> Combined(operation, BitOf(x, k), BitOf(y, k)) {
      BitwiseBits(operation, x, y, n, k);
    }
  }

  lemma {:induction false} SamePowers(n: nat)
    ensures PowerOf2(n) == Power2(n)
  {
    if n > 0 {
      SamePowers(n - 1);
    }
  }

  /** A number is its bits; zero has none. */
  lemma {:induction false} NoBits(v: nat, n: nat)
    requires v < PowerOf2(n)
    ensures v == 0 <==> forall k: nat :: k < n ==> !BitOf(v, k)
  {
    hide BitOf;
    if n > 0 {
      NoBits(v / 2, n - 1);
      BitAbove(v, 0);
      forall k: nat | 0 < k < n ensures BitOf(v, k) <==> BitOf(v / 2, k - 1) {
        BitAbove(v, k - 1);
      }
      forall k: nat | k < n - 1 ensures BitOf(v / 2, k) <==> BitOf(v, k + 1) {
        BitAbove(v, k);
      }
    }
  }

  /** An AND is zero iff its operands have no bit in common. */
  lemma AndIsZero(v: nat, x: nat, y: nat, n: nat)
    requires IsAnd(v, x, y, n)
    ensures v == 0 <==> forall k: nat :: k < n ==> !(BitOf(x, k) && BitOf(y, k))
  {
    hide BitOf;
    NoBits(v, n);
  }

  // ----- Words of memory -----

  lemma ReadableIsInside(g: Guest, a: u64, n: nat)
    ensures Readable(g, a, n) <==> Inside(g, a, n)
  {
  }

  lemma WordIs(g: Guest, a: u64)
    ensures Readable(g, a, 4) ==> Word(g, a, 4) == DwordAt(g, a)
    ensures Readable(g, a, 8) ==> Word(g, a, 8) == QwordAt(g, a)
  {
    if Readable(g, a, 4) {
      FourBytesValue(BytesAt(g, a, 4));
    }
    if Readable(g, a, 8) {
      EightBytesValue(BytesAt(g, a, 8));
    }
    hide FromLittleEndian, Quad;
  }

  // ----- Prefixes -----

  predicate IsRex(b: u8) { 0x40 <= b <= 0x4F }
  predicate IsPrefixByte(b: u8) { b == 0x66 || b == 0xF2 || b == 0xF3 || b == 0x2E || IsRex(b) }

  /** Guest memory from the instruction pointer on, up to the last 64-bit address. */
  function Code(g: Guest): seq<u8> {
    var end := if g.base + |g.memory| < TWO_64 then |g.memory| else TWO_64 - g.base;
    if g.base <= g.ip <= g.base + end then g.memory[g.ip - g.base..end] else []
  }

  /** One of the first n bytes is b. */
  ghost predicate HasPrefix(code: seq<u8>, n: nat, b: u8)
    requires n <= |code|
  {
    exists k :: 0 <= k < n && code[k] == b
  }

  /** The last REX byte among the first n bytes has the bit of this weight. */
  ghost predicate RexBit(code: seq<u8>, n: nat, weight: nat)
    requires n <= |code| && weight > 0
  {
    exists k :: 0 <= k < n && IsRex(code[k]) && code[k] / weight % 2 == 1 && forall j :: k < j < n ==> !IsRex(code[j])
  }

  /** The first n bytes are prefixes, and i says what they say. */
  ghost predicate Prefixed(code: seq<u8>, n: nat, i: Instruction) {
    && n <= |code| && (forall k :: 0 <= k < n ==> IsPrefixByte(code[k]))
    && (i.prefix66 <==> HasPrefix(code, n, 0x66)) && (i.prefixF2 <==> HasPrefix(code, n, 0xF2))
    && (i.prefixF3 <==> HasPrefix(code, n, 0xF3))
    && (i.rexW <==> RexBit(code, n, 8)) && (i.rexR <==> RexBit(code, n, 4))
    && (i.rexX <==> RexBit(code, n, 2)) && (i.rexB <==> RexBit(code, n, 1))
  }

  /** The instruction at the instruction pointer is i, behind n prefixes. */
  ghost predicate Encodes(g: Guest, n: nat, i: Instruction) {
    var code := Code(g);
    && n < |code| && Prefixed(code, n, i) && !IsPrefixByte(code[n])
    && i.address == g.ip && i.opcode == code[n] && i.next == Wrap64(g.ip + n + 1)
  }

  /** Nothing but prefixes up to the end of memory. */
  ghost predicate RunsOut(g: Guest) {
    forall k :: 0 <= k < |Code(g)| ==> IsPrefixByte(Code(g)[k])
  }

  lemma OnePrefixMore(code: seq<u8>, n: nat, i: Instruction)
    requires n < |code| && Prefixed(code, n, i) && IsPrefixByte(code[n])
    ensures Prefixed(code, n + 1, WithPrefix(i, code[n]))
  {
    hide HasPrefix, RexBit;
    OneLegacyMore(code, n);
    OneRexMore(code, n, 8);
    OneRexMore(code, n, 4);
    OneRexMore(code, n, 2);
    OneRexMore(code, n, 1);
  }

  lemma OneLegacyMore(code: seq<u8>, n: nat)
    requires n < |code|
    ensures HasPrefix(code, n + 1, 0x66) <==> HasPrefix(code, n, 0x66) || code[n] == 0x66
    ensures HasPrefix(code, n + 1, 0xF2) <==> HasPrefix(code, n, 0xF2) || code[n] == 0xF2
    ensures HasPrefix(code, n + 1, 0xF3) <==> HasPrefix(code, n, 0xF3) || code[n] == 0xF3
  {
  }

  lemma OneRexMore(code: seq<u8>, n: nat, w: nat)
    requires n < |code| && w > 0
    ensures RexBit(code, n + 1, w) <==> if IsRex(code[n]) then code[n] / w % 2 == 1 else RexBit(code, n, w)
  {
    hide IsRex;
    assert RexBit(code, n + 1, w) && !IsRex(code[n]) ==> RexBit(code, n, w);
    if !IsRex(code[n]) && RexBit(code, n, w) {
      var k :| 0 <= k < n && IsRex(code[k]) && code[k] / w % 2 == 1 && forall j :: k < j < n ==> !IsRex(code[j]);
      assert forall j :: k < j < n + 1 ==> !IsRex(code[j]);
    }
  }

  lemma DecodeStep(g: Guest, n: nat, i: Instruction)
    requires n < |Code(g)|
    ensures g.ip + n < TWO_64
    ensures var b := Code(g)[n];
            DecodeFrom(g, i, g.ip + n) ==
            if !IsPrefixByte(b) then Decoded(i.(opcode := b, next := Wrap64(g.ip + n + 1)))
            else if n + 1 < |Code(g)| then DecodeFrom(g, WithPrefix(i, b), g.ip + n + 1)
            else Undecodable(Wrap64(g.ip + n + 1))
  {
    hide WithPrefix, Code, Wrap64, Readable, IsPrefix, IsPrefixByte;
    CodeEnds(g, n);
    PrefixIs(Code(g)[n]);
  }

  lemma PrefixIs(b: u8)
    ensures IsPrefix(b) <==> IsPrefixByte(b)
  {
  }

  lemma CodeEnds(g: Guest, n: nat)
    requires n < |Code(g)|
    ensures g.ip + n < TWO_64 && Readable(g, g.ip + n, 1) && g.memory[g.ip + n - g.base] == Code(g)[n]
    ensures n + 1 < |Code(g)| <==> Readable(g, Wrap64(g.ip + n + 1), 1)
    ensures n + 1 < |Code(g)| ==> Wrap64(g.ip + n + 1) == g.ip + n + 1
  {
  }

  lemma {:induction false} DecodesFrom(g: Guest, n: nat, i: Instruction)
    requires n < |Code(g)| && Prefixed(Code(g), n, i) && i.address == g.ip
    ensures g.ip + n < TWO_64
    ensures match DecodeFrom(g, i, g.ip + n)
            case Decoded(j) => exists m :: Encodes(g, m, j)
            case Undecodable(a) => RunsOut(g) && a == Wrap64(g.ip + |Code(g)|)
    decreases |Code(g)| - n
  {
    hide DecodeFrom, Code, HasPrefix, RexBit, IsPrefixByte, Wrap64, WithPrefix;
    DecodeStep(g, n, i);
    var code := Code(g);
    var b := code[n];
    if IsPrefixByte(b) {
      OnePrefixMore(code, n, i);
      AddressKept(i, b);
      if n + 1 < |code| {
        DecodesFrom(g, n + 1, WithPrefix(i, b));
      }
    } else {
      assert Encodes(g, n, i.(opcode := b, next := Wrap64(g.ip + n + 1)));
    }
  }

  lemma AddressKept(i: Instruction, b: u8)
    ensures WithPrefix(i, b).address == i.address
  {
  }

  /** The bytes at the instruction pointer determine the instruction, and where its prefixes end. */
  lemma OneEncoding(g: Guest, n: nat, i: Instruction, m: nat, j: Instruction)
    requires Encodes(g, n, i) && Encodes(g, m, j)
    ensures n == m && i == j
  {
    hide Code, HasPrefix, RexBit, IsPrefixByte, Wrap64;
  }

  /** The decoder yields exactly the instruction that is encoded, and fails iff memory ends within the prefixes. */
  lemma DecodesExactly(g: Guest)
    ensures forall i :: Decode(g) == Decoded(i) <==> exists n :: Encodes(g, n, i)
    ensures forall a :: Decode(g) == Undecodable(a) <==> RunsOut(g) && a == Wrap64(g.ip + |Code(g)|)
  {
    var start := Instruction(g.ip, 0, g.ip, false, false, false, false, false, false, false);
    if Readable(g, g.ip, 1) {
      assert Prefixed(Code(g), 0, start);
      DecodesFrom(g, 0, start);
    } else {
      assert Code(g) == [];
    }
    hide Prefixed, DecodeFrom, Readable;
    forall i, n: nat | Encodes(g, n, i) ensures Decode(g) == Decoded(i) {
      assert !RunsOut(g) by { hide Code; }
      var j := Decode(g).instruction;
      var m :| Encodes(g, m, j);
      hide Encodes;
      OneEncoding(g, n, i, m, j);
    }
    hide Encodes;
  }

  // ----- Effective addresses -----

  function ModField(modrm: u8): int { modrm / 64 }
  function RegField(modrm: u8): int { modrm / 8 % 8 }
  function RmField(modrm: u8): int { modrm % 8 }
  function ScaleField(sib: u8): nat { sib / 64 }
  function IndexField(sib: u8): int { sib / 8 % 8 }
  function BaseField(sib: u8): int { sib % 8 }

  /** Four bits, the topmost from a REX prefix, number a register. */
  function Numbered(bits: int, rex: bool): Index
    requires 0 <= bits < 8
  {
    if rex then 8 + bits else bits
  }

  /** The address n bytes on. */
  function Onward(a: int, n: int): u64 { Wrap64(a + n) }

  /** A displacement of n bytes, two's complement. */
  function DisplacementAt(g: Guest, d: u64, n: nat): int
    requires n in {0, 1, 4} && (n != 0 ==> Inside(g, d, n))
  {
    if n == 0 then 0
    else if n == 1 then TwosComplement(ByteAt(g, d, 0), 0x100)
    else TwosComplement(DwordAt(g, d), 0x1_0000_0000)
  }

  /** Tables 2-2 and 2-3: what a ModRM byte and, where rm is 4, a SIB byte select. Base field 5 with mod 0 takes no base
      register whatever REX.B says: it is a displacement alone after a SIB byte, and RIP-relative otherwise. */
  datatype Form = Form(base: Option<Index>, ripRelative: bool, index: Option<Index>, scale: nat, displacementBytes: nat)

  function ManualForm(i: Instruction, modrm: u8, sib: u8): (f: Form)
    requires ModField(modrm) != 3
    ensures f.displacementBytes in {0, 1, 4}
  {
    var hasSib := RmField(modrm) == 4;
    var baseField := if hasSib then BaseField(sib) else RmField(modrm);
    var special := ModField(modrm) == 0 && baseField == 5;
    var indexField := IndexField(sib);
    Form(if special then None else Some(Numbered(baseField, i.rexB)),
         special && !hasSib,
         if hasSib && (indexField != 4 || i.rexX) then Some(Numbered(indexField, i.rexX)) else None,
         PowerOf2(ScaleField(sib)),
         if ModField(modrm) == 1 then 1 else if ModField(modrm) == 2 || special then 4 else 0)
  }

  /** Base + index * scale + displacement, section 2.1.5 of volume 2A. A RIP-relative operand counts from the address of
      the next instruction (section 2.2.1.6), which lies behind the n immediate bytes that follow the displacement. */
  function ManualOperand(g: Guest, i: Instruction, a: u64, n: nat): Operand {
    if !Inside(g, a, 1) then Unreadable(a)
    else
      var modrm := ByteAt(g, a, 0);
      if ModField(modrm) == 3 then InRegister(Numbered(RmField(modrm), i.rexB), Wrap64(a + 1))
      else
        var hasSib := RmField(modrm) == 4;
        var s := Wrap64(a + 1);
        if hasSib && !Inside(g, s, 1) then Unreadable(s)
        else
          var f := ManualForm(i, modrm, if hasSib then ByteAt(g, s, 0) else 0);
          var d := Wrap64(a + if hasSib then 2 else 1);
          if f.displacementBytes != 0 && !Inside(g, d, f.displacementBytes) then Unreadable(d)
          else
            var next := Wrap64(d + f.displacementBytes);
            var base := if f.base.Some? then g.registers[f.base.value] else if f.ripRelative then Onward(next, n) else 0;
            var index := if f.index.Some? then g.registers[f.index.value] * f.scale else 0;
            InMemory(Wrap64(base + index + DisplacementAt(g, d, f.displacementBytes)), next)
  }

  /** The immediate bytes behind the ModRM operand, for the opcodes of the two tables. TEST, in groups F6 and F7, has
      reg field 0 or 1. */
  function ImmediateBytes(i: Instruction, secondary: Option<u8>, modrm: u8): (n: nat)
    ensures n < 8
  {
    match secondary
    case Some(opcode) => if opcode == 0x70 then 1 else 0
    case None =>
      if i.opcode in {0x81, 0xC7} || (i.opcode == 0xF7 && RegField(modrm) <= 1)
      then (if i.prefix66 && !i.rexW then 2 else 4)
      else if i.opcode in {0x80, 0x83} || (i.opcode == 0xF6 && RegField(modrm) <= 1) then 1
      else 0
  }

  /** REX.B set with mod 0 and base field 5: the emulator takes R13 as base and no displacement. */
  predicate Deviates(g: Guest, i: Instruction, a: u64) {
    && i.rexB && Inside(g, a, 1)
    && var modrm := ByteAt(g, a, 0);
       && ModField(modrm) == 0
       && (RmField(modrm) == 5
           || (RmField(modrm) == 4 && Inside(g, Wrap64(a + 1), 1) && BaseField(ByteAt(g, Wrap64(a + 1), 0)) == 5))
  }

  /** A RIP-relative operand that can be read. */
  predicate RipRelative(g: Guest, a: u64) {
    && Inside(g, a, 1) && ModField(ByteAt(g, a, 0)) == 0 && RmField(ByteAt(g, a, 0)) == 5
    && Inside(g, Wrap64(a + 1), 4)
  }

  lemma SibIndex(g: Guest, i: Instruction, modrm: u8, sib: u8)
    requires RmField(modrm) == 4 && ModField(modrm) != 3
    ensures var f := ManualForm(i, modrm, sib);
            IndexValue(g, i, sib) == if f.index.Some? then g.registers[f.index.value] * f.scale else 0
  {
    hide IndexValue, Scale, PowerOf2, Numbered, IndexField, ScaleField;
    ScaleIs(sib);
    IndexValueIs(g, i, sib);
  }

  lemma IndexValueIs(g: Guest, i: Instruction, sib: u8)
    ensures 0 <= IndexField(sib) < 8
    ensures IndexValue(g, i, sib) == if IndexField(sib) != 4 || i.rexX
                                     then g.registers[Numbered(IndexField(sib), i.rexX)] * Scale(sib) else 0
  {
    hide Scale;
  }

  lemma ScaleIs(sib: u8)
    ensures Scale(sib) == PowerOf2(ScaleField(sib))
  {
    assert PowerOf2(1) == 2 && PowerOf2(2) == 4 && PowerOf2(3) == 8;
  }

  lemma DisplacementIs(g: Guest, d: u64)
    ensures Displacement(g, d, 0) == DisplacementAt(g, d, 0)
    ensures Inside(g, d, 1) ==> Displacement(g, d, 1) == DisplacementAt(g, d, 1)
    ensures Inside(g, d, 4) ==> Displacement(g, d, 4) == DisplacementAt(g, d, 4)
  {
    WordIs(g, d);
    hide Word, DwordAt;
  }

  lemma SibDecodesAsManual(g: Guest, i: Instruction, a: u64, n: nat)
    requires Inside(g, a, 1) && ModField(ByteAt(g, a, 0)) != 3 && RmField(ByteAt(g, a, 0)) == 4
    ensures DecodeOperand(g, i, a) == ManualOperand(g, i, a, n) <==> !Deviates(g, i, a)
  {
    hide Displacement, DisplacementAt, Scale, PowerOf2, Onward, IndexValue, WithDisplacement;
    var modrm, s := ByteAt(g, a, 0), Wrap64(a + 1);
    if Inside(g, s, 1) {
      var sib := ByteAt(g, s, 0);
      SibIndex(g, i, modrm, sib);
      FormsAgree(g, i, ModField(modrm), BaseField(sib), Wrap64(a + 2), IndexValue(g, i, sib), true, n);
    }
  }

  lemma PlainDecodesAsManual(g: Guest, i: Instruction, a: u64, n: nat)
    requires Inside(g, a, 1) && ModField(ByteAt(g, a, 0)) != 3 && RmField(ByteAt(g, a, 0)) != 4 && n < 16
    ensures DecodeOperand(g, i, a) == ManualOperand(g, i, a, n)
       <==> !Deviates(g, i, a) && !(RipRelative(g, a) && n != 0)
  {
    hide Displacement, DisplacementAt, Scale, PowerOf2, IndexValue, Onward;
    var modrm := ByteAt(g, a, 0);
    FormsAgree(g, i, ModField(modrm), RmField(modrm), Wrap64(a + 1), 0, false, n);
    assert ManualForm(i, modrm, 0).index == None;
  }

  /** The emulator decodes an operand as the manual does iff it is neither of two things: an encoding with REX.B, mod 0
      and base field 5, or a RIP-relative operand with immediate bytes behind it. */
  lemma DecodesAsManual(g: Guest, i: Instruction, a: u64, n: nat)
    requires n < 16
    ensures DecodeOperand(g, i, a) == ManualOperand(g, i, a, n)
       <==> !Deviates(g, i, a) && !(RipRelative(g, a) && n != 0)
  {
    if Inside(g, a, 1) && ModField(ByteAt(g, a, 0)) != 3 {
      hide DecodeOperand, ManualOperand, Deviates, ModField;
      if RmField(ByteAt(g, a, 0)) == 4 {
        SibDecodesAsManual(g, i, a, n);
      } else {
        PlainDecodesAsManual(g, i, a, n);
      }
    } else {
      hide Displacement, WithDisplacement, IndexValue, ManualForm;
    }
  }

  /** So it goes for the opcodes of both tables: outside the two exceptions, whatever follows the operand. */
  lemma OpcodeDecodesAsManual(g: Guest, i: Instruction, secondary: Option<u8>)
    ensures var a := if secondary.Some? then Wrap64(i.next + 1) else i.next;
            var n := ImmediateBytes(i, secondary, if Inside(g, a, 1) then ByteAt(g, a, 0) else 0);
            (DecodeOperand(g, i, a) == ManualOperand(g, i, a, n)
             <==> !Deviates(g, i, a) && !(RipRelative(g, a) && n != 0))
  {
    hide DecodeOperand, ManualOperand, Deviates, RipRelative, ImmediateBytes;
    var a := if secondary.Some? then Wrap64(i.next + 1) else i.next;
    DecodesAsManual(g, i, a, ImmediateBytes(i, secondary, if Inside(g, a, 1) then ByteAt(g, a, 0) else 0));
  }

  /** mov dword [rip + 0], imm32: the manual writes behind the instruction, the emulator over its immediate. */
  lemma StoreBehindImmediate(g: Guest, i: Instruction)
    requires g.base == 0 && g.memory == [0xC7, 0x05, 0, 0, 0, 0, 7, 0, 0, 0]
    requires i.opcode == 0xC7 && i.next == 1 && !i.rexB && !i.prefix66
    ensures ImmediateBytes(i, None, 0x05) == 4
    ensures DecodeOperand(g, i, 1) == InMemory(6, 6) && ManualOperand(g, i, 1, 4) == InMemory(10, 6)
  {
    assert BytesAt(g, 2, 4) == [0, 0, 0, 0];
    ZeroWord();
    hide FromLittleEndian;
    assert Displacement(g, 2, 4) == 0;
    hide Displacement;
    assert DecodeOperand(g, i, 1) == WithDisplacement(g, i, 0, 5, 2, 0, false);
  }

  /** mov eax, [rip + 0] with REX.B: the manual reads behind the instruction, the emulator where R13 points. */
  lemma RexBTakesR13(g: Guest, i: Instruction)
    requires g.base == 0 && g.memory == [0x41, 0x8B, 0x05, 0, 0, 0, 0]
    requires i.opcode == 0x8B && i.next == 2 && i.rexB
    ensures ImmediateBytes(i, None, 0x05) == 0
    ensures DecodeOperand(g, i, 2) == InMemory(g.registers[13], 3) && ManualOperand(g, i, 2, 0) == InMemory(7, 7)
  {
    assert BytesAt(g, 3, 4) == [0, 0, 0, 0];
    ZeroWord();
    hide FromLittleEndian;
    assert Displacement(g, 3, 4) == 0;
    hide Displacement;
    assert DecodeOperand(g, i, 2) == WithDisplacement(g, i, 0, 5, 3, 0, false);
  }

  lemma ZeroWord()
    ensures FromLittleEndian([0, 0, 0, 0]) == 0
  {
    assert [0, 0, 0, 0][1..] == [0, 0, 0] && [0, 0, 0][1..] == [0, 0] && [0, 0][1..] == [0];
    assert FromLittleEndian([0, 0]) == 0;
  }

  lemma OnwardMoves(a: u64, n: nat, x: int)
    requires 0 < n < 16
    ensures Wrap64(Onward(a, n) + x) != Wrap64(a + x)
  {
    var k, y: int := n, a + x;
    assert (y + k) % TWO_64 != y % TWO_64;
    assert Wrap64(Onward(a, n) + x) == (y + k) % TWO_64;
  }

  lemma FourOn(d: u64)
    ensures Wrap64(d + 4) != d && Wrap64(d + 0) == d
  {
  }

  lemma NothingOn(a: u64)
    ensures Onward(a, 0) == a
  {
  }

  /** The displacement step as the manual has it. */
  function ManualStep(g: Guest, i: Instruction, mod: int, base: int, d: u64, index: nat, sib: bool, n: nat): Operand
    requires 0 <= base < 8
  {
    var special := mod == 0 && base == 5;
    var size := if mod == 1 then 1 else if mod == 2 || special then 4 else 0;
    var next := Wrap64(d + size);
    var b := if !special then g.registers[Numbered(base, i.rexB)] else if sib then 0 else Onward(next, n);
    if size != 0 && !Inside(g, d, size) then Unreadable(d)
    else InMemory(Wrap64(b + index + DisplacementAt(g, d, size)), next)
  }

  /** The displacement step, once with and once without the two exceptions. */
  lemma FormsAgree(g: Guest, i: Instruction, mod: int, base: int, d: u64, index: nat, sib: bool, n: nat)
    requires 0 <= base < 8 && 0 <= mod < 3 && (sib || (n < 16 && index == 0))
    ensures WithDisplacement(g, i, mod, base, d, index, sib) == ManualStep(g, i, mod, base, d, index, sib, n)
       <==> !(i.rexB && mod == 0 && base == 5) && !(mod == 0 && base == 5 && !sib && n != 0 && Inside(g, d, 4))
  {
    hide WithDisplacement, DisplacementAt, Wrap64, Onward, Inside, Numbered, PowerOf2, Quad;
    DisplacementCasesOf(g, i, mod, base, d, index, sib);
    if mod == 0 && base == 5 {
      FourOn(d);
      if !i.rexB && !sib && Inside(g, d, 4) {
        RipAgrees(d, n, DisplacementAt(g, d, 4));
      }
    }
  }

  lemma RipAgrees(d: u64, n: nat, x: int)
    requires n < 16
    ensures var next := Wrap64(d + 4); Wrap64(next + 0 + x) == Wrap64(Onward(next, n) + 0 + x) <==> n == 0
  {
    var next := Wrap64(d + 4);
    hide Wrap64, Onward;
    if n == 0 {
      NothingOn(next);
    } else {
      OnwardMoves(next, n, x);
    }
  }

  /** The emulator's displacement step in the reference's terms. */
  lemma DisplacementCasesOf(g: Guest, i: Instruction, mod: int, base: int, d: u64, index: nat, sib: bool)
    requires 0 <= base < 8 && 0 <= mod < 3
    ensures var noBase := mod == 0 && base == 5 && !i.rexB;
            var size := if mod == 1 then 1 else if mod == 2 || noBase then 4 else 0;
            var next := Wrap64(d + size);
            var b := if !noBase then g.registers[Numbered(base, i.rexB)] else if sib then 0 else next;
            WithDisplacement(g, i, mod, base, d, index, sib) ==
            if size != 0 && !Inside(g, d, size) then Unreadable(d)
            else InMemory(Wrap64(b + index + DisplacementAt(g, d, size)), next)
  {
    DisplacementIs(g, d);
    ReadableIsInside(g, d, 1);
    ReadableIsInside(g, d, 4);
    hide Displacement, DisplacementAt, Wrap64, Inside, Readable;
  }

  /** With REX.B, mod 0 and base field 5 the emulator takes R13 as base and no displacement. */
  lemma DeviationIs(g: Guest, i: Instruction, a: u64)
    requires Deviates(g, i, a)
    ensures var hasSib := RmField(ByteAt(g, a, 0)) == 4;
            var f := ManualForm(i, ByteAt(g, a, 0), if hasSib then ByteAt(g, Wrap64(a + 1), 0) else 0);
            var index := if f.index.Some? then g.registers[f.index.value] * f.scale else 0;
            DecodeOperand(g, i, a) == InMemory(Wrap64(g.registers[13] + index), Wrap64(a + if hasSib then 2 else 1))
  {
    hide DisplacementAt, PowerOf2, IndexValue, WithDisplacement, Wrap64, Scale, Numbered;
    var modrm, s := ByteAt(g, a, 0), Wrap64(a + 1);
    if RmField(modrm) == 4 {
      SibIndex(g, i, modrm, ByteAt(g, s, 0));
      R13Based(g, i, Wrap64(a + 2), IndexValue(g, i, ByteAt(g, s, 0)), true);
    } else {
      R13Based(g, i, s, 0, false);
    }
  }

  lemma R13Based(g: Guest, i: Instruction, d: u64, index: nat, sib: bool)
    requires i.rexB
    ensures WithDisplacement(g, i, 0, 5, d, index, sib) == InMemory(Wrap64(g.registers[13] + index), d)
  {
  }
}
