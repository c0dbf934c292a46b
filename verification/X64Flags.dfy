/**
 The status flags of the emulator's arithmetic, against section 3.4.3.1 of volume 1 of the Intel SDM (PF and AF are not
 modelled).
 */
module X64Flags {
  import opened Words
  import opened X64Machine
  import opened X64Instructions

  predicate Carry(flags: bv64) { flags & 0x1 != 0 }
  predicate Zero(flags: bv64) { flags & 0x40 != 0 }
  predicate Sign(flags: bv64) { flags & 0x80 != 0 }
  predicate Overflow(flags: bv64) { flags & 0x800 != 0 }

  /** Bit 1 is set, and every bit but it and the four status flags is as before. */
  predicate OthersKept(flags': bv64, flags: bv64) {
    flags' & 0x2 == 0x2 && flags' & !0x8C3 == flags & !0x8C3
  }

  /** One more than the greatest operand of 64 or 32 bits. */
  function Modulus(wide: bool): int {
    if wide then 0x1_0000_0000_0000_0000 else 0x1_0000_0000
  }

  /** An operand read as two's complement. */
  function Signed(v: u64, wide: bool): int {
    if 2 * v < Modulus(wide) then v else v - Modulus(wide)
  }

  predicate SignedFits(x: int, wide: bool) {
    -Modulus(wide) <= 2 * x < Modulus(wide)
  }

  lemma BitsApart(flags: bv64, z: bv64, s: bv64, c: bv64, o: bv64)
    requires z in {0, ZERO} && s in {0, SIGN} && c in {0, CARRY} && o in {0, OVERFLOW}
    ensures var f := (flags & !(CARRY | ZERO | SIGN | OVERFLOW)) | RESERVED | z | s | c | o;
            && f & ZERO == z && f & SIGN == s && f & CARRY == c && f & OVERFLOW == o
            && f & 0x2 == 0x2 && f & !0x8C3 == flags & !0x8C3
  {
  }

  lemma ArithmeticBits(flags: bv64, zero: bool, sign: bool, carry: bool, overflow: bool)
    ensures var f := Arithmetic(flags, zero, sign, carry, overflow);
            Zero(f) == zero && Sign(f) == sign && Carry(f) == carry && Overflow(f) == overflow
  {
    BitsApart(flags, Bit(zero, ZERO), Bit(sign, SIGN), Bit(carry, CARRY), Bit(overflow, OVERFLOW));
  }

  lemma ArithmeticKeeps(flags: bv64, zero: bool, sign: bool, carry: bool, overflow: bool)
    ensures OthersKept(Arithmetic(flags, zero, sign, carry, overflow), flags)
  {
    hide Bit;
    BitSets(flags, Bit(zero, ZERO), Bit(sign, SIGN), Bit(carry, CARRY), Bit(overflow, OVERFLOW));
    BitIs(zero, ZERO);
    BitIs(sign, SIGN);
    BitIs(carry, CARRY);
    BitIs(overflow, OVERFLOW);
  }

  lemma BitIs(set_: bool, flag: bv64)
    ensures Bit(set_, flag) in {0, flag}
  {
  }

  lemma BitSets(flags: bv64, z: bv64, s: bv64, c: bv64, o: bv64)
    ensures z in {0, ZERO} && s in {0, SIGN} && c in {0, CARRY} && o in {0, OVERFLOW} ==>
              OthersKept(With(With(With(With(Cleared(flags), z), s), c), o), flags)
  {
    if z in {0, ZERO} && s in {0, SIGN} && c in {0, CARRY} && o in {0, OVERFLOW} {
      BitsApart(flags, z, s, c, o);
    }
  }

  /** Sums, differences and bitwise results leave every other flag alone. */
  lemma StatusFlagsOnly(flags: bv64, lhs: u64, rhs: u64, result: u64, wide: bool)
    ensures OthersKept(LogicFlags(flags, result, wide), flags)
    ensures OthersKept(CompareFlags(flags, lhs, rhs, result, wide), flags)
    ensures OthersKept(AddFlags(flags, lhs, rhs, result, wide), flags)
  {
    hide Arithmetic, OthersKept;
    forall z: bool, s: bool, c: bool, o: bool ensures OthersKept(Arithmetic(flags, z, s, c, o), flags) {
      ArithmeticKeeps(flags, z, s, c, o);
    }
  }

  /** Flags of a bitwise result. */
  predicate LogicResult(f: bv64, value: u64, wide: bool) {
    && !Carry(f) && !Overflow(f)
    && (Zero(f) <==> value % Modulus(wide) == 0)
    && (Sign(f) <==> Signed(value % Modulus(wide), wide) < 0)
  }

  lemma LogicMeaning(flags: bv64, value: u64, wide: bool)
    ensures LogicResult(LogicFlags(flags, value, wide), value, wide)
  {
    var v := Masked(value, wide);
    assert v == value % Modulus(wide);
    ArithmeticBits(flags, v == 0, Negative(v, wide), false, false);
    hide Arithmetic, Carry, Zero, Sign, Overflow, Masked;
  }

  lemma WrapOnce(x: int, wide: bool)
    requires -Modulus(wide) <= x < 2 * Modulus(wide)
    ensures x % Modulus(wide) == if x < 0 then x + Modulus(wide) else if x < Modulus(wide) then x else x - Modulus(wide)
  {
    if wide {
    } else {
    }
  }

  /** Flags that order lhs and rhs both ways. */
  predicate OrderFlags(f: bv64, lhs: u64, rhs: u64, wide: bool) {
    && (Zero(f) <==> lhs == rhs)
    && (Carry(f) <==> lhs < rhs)
    && (Sign(f) != Overflow(f) <==> Signed(lhs, wide) < Signed(rhs, wide))
    && (Overflow(f) <==> !SignedFits(Signed(lhs, wide) - Signed(rhs, wide), wide))
  }

  lemma CompareOrders(flags: bv64, lhs: u64, rhs: u64, wide: bool)
    requires lhs < Modulus(wide) && rhs < Modulus(wide)
    ensures OrderFlags(CompareFlags(flags, lhs, rhs, (lhs - rhs) % Modulus(wide), wide), lhs, rhs, wide)
  {
    WrapOnce(lhs - rhs, wide);
    MaskedIsItself(lhs, wide);
    MaskedIsItself(rhs, wide);
    CompareSigns(flags, lhs, rhs, if lhs < rhs then lhs - rhs + Modulus(wide) else lhs - rhs, wide);
    hide CompareFlags, OrderFlags;
  }

  lemma MaskedIsItself(v: u64, wide: bool)
    requires v < Modulus(wide)
    ensures Masked(v, wide) == v
  {
  }

  lemma CompareSigns(flags: bv64, lhs: u64, rhs: u64, v: u64, wide: bool)
    requires lhs < Modulus(wide) && rhs < Modulus(wide) && v == if lhs < rhs then lhs - rhs + Modulus(wide) else lhs - rhs
    ensures OrderFlags(CompareFlags(flags, lhs, rhs, v, wide), lhs, rhs, wide)
  {
    MaskedIsItself(lhs, wide);
    MaskedIsItself(rhs, wide);
    MaskedIsItself(v, wide);
    var ls, rs, vs := Negative(lhs, wide), Negative(rhs, wide), Negative(v, wide);
    ArithmeticBits(flags, v == 0, vs, lhs < rhs, ls != rs && ls != vs);
    hide Arithmetic, Carry, Zero, Sign, Overflow, Masked;
  }

  /** Flags of a sum: unsigned and signed overflow, zero and sign of the result. */
  predicate SumFlags(f: bv64, lhs: u64, rhs: u64, wide: bool) {
    && (Carry(f) <==> lhs + rhs >= Modulus(wide))
    && (Overflow(f) <==> !SignedFits(Signed(lhs, wide) + Signed(rhs, wide), wide))
    && (Zero(f) <==> (lhs + rhs) % Modulus(wide) == 0)
    && (Sign(f) <==> Signed((lhs + rhs) % Modulus(wide), wide) < 0)
  }

  lemma AddOverflows(flags: bv64, lhs: u64, rhs: u64, wide: bool)
    requires lhs < Modulus(wide) && rhs < Modulus(wide)
    ensures SumFlags(AddFlags(flags, lhs, rhs, (lhs + rhs) % Modulus(wide), wide), lhs, rhs, wide)
  {
    WrapOnce(lhs + rhs, wide);
    var v := if lhs + rhs < Modulus(wide) then lhs + rhs else lhs + rhs - Modulus(wide);
    assert v == (lhs + rhs) % Modulus(wide);
    AddSigns(flags, lhs, rhs, v, wide);
    hide AddFlags;
  }

  lemma AddSigns(flags: bv64, lhs: u64, rhs: u64, v: u64, wide: bool)
    requires lhs < Modulus(wide) && rhs < Modulus(wide)
    requires v == if lhs + rhs < Modulus(wide) then lhs + rhs else lhs + rhs - Modulus(wide)
    ensures var f := AddFlags(flags, lhs, rhs, v, wide);
            && (Carry(f) <==> lhs + rhs >= Modulus(wide))
            && (Overflow(f) <==> !SignedFits(Signed(lhs, wide) + Signed(rhs, wide), wide))
            && (Zero(f) <==> v == 0) && (Sign(f) <==> Signed(v, wide) < 0)
  {
    MaskedIsItself(lhs, wide);
    MaskedIsItself(rhs, wide);
    MaskedIsItself(v, wide);
    var ls, rs, vs := Negative(lhs, wide), Negative(rhs, wide), Negative(v, wide);
    ArithmeticBits(flags, v == 0, vs, v < lhs, ls == rs && ls != vs);
    hide Arithmetic, Carry, Zero, Sign, Overflow, Masked;
  }

  lemma CarryApart(flags: bv64, z: bv64, s: bv64, o: bv64)
    requires z in {0, ZERO} && s in {0, SIGN} && o in {0, OVERFLOW}
    ensures var f := (flags & CARRY) | RESERVED | z | s | o;
            f & ZERO == z && f & SIGN == s && f & CARRY == flags & CARRY && f & OVERFLOW == o
  {
  }

  lemma StepBits(flags: bv64, zero: bool, sign: bool, overflow: bool)
    ensures var f := (flags & CARRY) | RESERVED | Bit(zero, ZERO) | Bit(sign, SIGN) | Bit(overflow, OVERFLOW);
            && Zero(f) == zero && Sign(f) == sign && Overflow(f) == overflow
            && Carry(f) == Carry(flags)
  {
    CarryApart(flags, Bit(zero, ZERO), Bit(sign, SIGN), Bit(overflow, OVERFLOW));
  }

  /** Flags of a step by one: as for a sum or difference, but the carry is kept. */
  predicate StepFlags(f: bv64, flags: bv64, lhs: u64, d: int, wide: bool) {
    && Carry(f) == Carry(flags)
    && (Overflow(f) <==> !SignedFits(Signed(lhs, wide) + d, wide))
    && (Zero(f) <==> (lhs + d) % Modulus(wide) == 0)
    && (Sign(f) <==> Signed((lhs + d) % Modulus(wide), wide) < 0)
  }

  lemma IncDecSteps(flags: bv64, lhs: u64, decrement: bool, wide: bool)
    requires lhs < Modulus(wide)
    ensures var d := if decrement then -1 else 1;
            StepFlags(IncDecFlags(flags, lhs, (lhs + d) % Modulus(wide), decrement, wide), flags, lhs, d, wide)
  {
    var d := if decrement then -1 else 1;
    WrapOnce(lhs + d, wide);
    var v := if lhs + d < 0 then lhs + d + Modulus(wide) else if lhs + d < Modulus(wide) then lhs + d else 0;
    assert v == (lhs + d) % Modulus(wide);
    StepSigns(flags, lhs, v, decrement, wide);
    hide IncDecFlags;
  }

  lemma StepSigns(flags: bv64, lhs: u64, v: u64, decrement: bool, wide: bool)
    requires lhs < Modulus(wide)
    requires var x := if decrement then lhs - 1 else lhs + 1;
             v == if x < 0 then x + Modulus(wide) else if x < Modulus(wide) then x else 0
    ensures var f := IncDecFlags(flags, lhs, v, decrement, wide);
            && Carry(f) == Carry(flags)
            && (Overflow(f) <==> !SignedFits(Signed(lhs, wide) + if decrement then -1 else 1, wide))
            && (Zero(f) <==> v == 0) && (Sign(f) <==> Signed(v, wide) < 0)
  {
    MaskedIsItself(lhs, wide);
    MaskedIsItself(v, wide);
    var ls, vs := Negative(lhs, wide), Negative(v, wide);
    StepBits(flags, v == 0, vs, if decrement then ls && !vs else !ls && vs);
    hide Masked, Carry, Zero, Sign, Overflow, Bit;
  }

  // ----- The instructions that set them -----

  lemma RegisterFits(g: Guest, r: Index, wide: bool)
    ensures Register(g, r, wide) < Modulus(wide)
  {
  }

  lemma SteppedByOneFlags(g: Guest, r: Index, decrement: bool, wide: bool)
    ensures var d := if decrement then -1 else 1;
            var lhs := Register(g, r, wide);
            var g' := SteppedByOne(g, r, decrement, wide);
            && StepFlags(g'.flags, g.flags, lhs, d, wide)
            && g' == SetRegister(g, r, (lhs + d) % Modulus(wide)).(flags := g'.flags)
  {
    RegisterFits(g, r, wide);
    IncDecSteps(g.flags, Register(g, r, wide), decrement, wide);
    hide IncDecFlags, StepFlags, Register, Width;
  }
}
