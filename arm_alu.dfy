/** The ARM60 interpreter's pure computations: the condition table and its
    check against the CPSR flags, DoAdd, the immediate-operand rotate, the
    barrel shifter, the data-processing operations, the branch offset and
    the lane selection of a load. */
module ArmAlu {
  import opened ArmWord

  // ---------------------------------------------------------------------
  // CPSR flags: N, Z, C and V are bits 31, 30, 29 and 28.

  /** `w >> 28`: the top four bits.  Of the CPSR they are the flags as the
      four-bit number NZCV; of an instruction, its condition field. */
  function HighNibble(w: Word): (f: int)
    ensures 0 <= f < 16
  {
    w / 0x1000_0000
  }

  predicate FlagN(cpsr: Word) { Has(cpsr, 0x8000_0000) }
  predicate FlagZ(cpsr: Word) { Has(cpsr, 0x4000_0000) }
  predicate FlagC(cpsr: Word) { Has(cpsr, 0x2000_0000) }
  predicate FlagV(cpsr: Word) { Has(cpsr, 0x1000_0000) }

  /** The four flags as a number NZCV. */
  function Nzcv(n: bool, z: bool, c: bool, v: bool): (f: int)
    ensures 0 <= f < 16
  {
    (if n then 8 else 0) + (if z then 4 else 0) + (if c then 2 else 0) + (if v then 1 else 0)
  }

  /** The CPSR with its four flags replaced and bits 27-0 kept. */
  function SetFlags(cpsr: Word, n: bool, z: bool, c: bool, v: bool): Word {
    cpsr % 0x1000_0000 + Nzcv(n, z, c, v) * 0x1000_0000
  }

  /** Each flag reads back as set, and nothing below the flags moves. */
  lemma SetFlagsReadBack(cpsr: Word, n: bool, z: bool, c: bool, v: bool)
    ensures var w := SetFlags(cpsr, n, z, c, v);
            FlagN(w) == n && FlagZ(w) == z && FlagC(w) == c && FlagV(w) == v
            && w % 0x1000_0000 == cpsr % 0x1000_0000
  {
    var w := SetFlags(cpsr, n, z, c, v);
    var f := Nzcv(n, z, c, v);
    DivModUnique(w, 0x1000_0000, f, cpsr % 0x1000_0000);
    FlagsOf(w);
  }

  /** The flag predicates read the bits of `cpsr >> 28`. */
  lemma FlagsOf(cpsr: Word)
    ensures FlagN(cpsr) <==> (HighNibble(cpsr) / 8) % 2 == 1
    ensures FlagZ(cpsr) <==> (HighNibble(cpsr) / 4) % 2 == 1
    ensures FlagC(cpsr) <==> (HighNibble(cpsr) / 2) % 2 == 1
    ensures FlagV(cpsr) <==> HighNibble(cpsr) % 2 == 1
  {
  }

  // ---------------------------------------------------------------------
  // Conditions.

  /** One entry per condition code, EQ to NV: bit f of an entry says whether
      the condition passes when the flags NZCV read f. */
  const ConditionTable: seq<int> :=
    [0xf0f0, 0x0f0f, 0xcccc, 0x3333, 0xff00, 0x00ff, 0xaaaa, 0x5555,
     0x0c0c, 0xf3f3, 0xaa55, 0x55aa, 0x0a05, 0xf5fa, 0xffff, 0x0000]

  /** `(condition_table[instr >> 28] >> (cpsr >> 28)) & 1`. */
  predicate ConditionPassed(instr: Word, cpsr: Word) {
    Bit(ConditionTable[HighNibble(instr)], HighNibble(cpsr))
  }

  /** The conditions as the ARM60 data sheet defines them on the flags. */
  predicate ConditionHolds(cond: int, n: bool, z: bool, c: bool, v: bool)
    requires 0 <= cond < 16
  {
    match cond
    case 0 => z                   // EQ
    case 1 => !z                  // NE
    case 2 => c                   // CS
    case 3 => !c                  // CC
    case 4 => n                   // MI
    case 5 => !n                  // PL
    case 6 => v                   // VS
    case 7 => !v                  // VC
    case 8 => c && !z             // HI
    case 9 => !c || z             // LS
    case 10 => n == v             // GE
    case 11 => n != v             // LT
    case 12 => !z && n == v       // GT
    case 13 => z || n != v        // LE
    case 14 => true               // AL
    case 15 => false              // NV
  }

  /** Every entry of the table encodes its condition. */
  lemma ConditionTableRow(cond: int, f: int)
    requires 0 <= cond < 16 && 0 <= f < 16
    ensures Bit(ConditionTable[cond], f)
              == ConditionHolds(cond, (f / 8) % 2 == 1, (f / 4) % 2 == 1, (f / 2) % 2 == 1, f % 2 == 1)
  {
    if f < 4 {
      FlagsNZClear(cond, f);
    } else if f < 8 {
      FlagsZOnly(cond, f);
    } else if f < 12 {
      FlagsNOnly(cond, f);
    } else {
      FlagsNZSet(cond, f);
    }
  }

  /** N and Z clear. */
  lemma FlagsNZClear(cond: int, f: int)
    requires 0 <= cond < 16 && 0 <= f < 4
    ensures Bit(ConditionTable[cond], f)
              == ConditionHolds(cond, (f / 8) % 2 == 1, (f / 4) % 2 == 1, (f / 2) % 2 == 1, f % 2 == 1)
  {
    if f == 0 {
      TableBit0(cond);
    } else if f == 1 {
      TableBit1(cond);
    } else if f == 2 {
      TableBit2(cond);
    } else {
      TableBit3(cond);
    }
  }

  /** N clear, Z set. */
  lemma FlagsZOnly(cond: int, f: int)
    requires 0 <= cond < 16 && 4 <= f < 8
    ensures Bit(ConditionTable[cond], f)
              == ConditionHolds(cond, (f / 8) % 2 == 1, (f / 4) % 2 == 1, (f / 2) % 2 == 1, f % 2 == 1)
  {
    if f == 4 {
      TableBit4(cond);
    } else if f == 5 {
      TableBit5(cond);
    } else if f == 6 {
      TableBit6(cond);
    } else {
      TableBit7(cond);
    }
  }

  /** N set, Z clear. */
  lemma FlagsNOnly(cond: int, f: int)
    requires 0 <= cond < 16 && 8 <= f < 12
    ensures Bit(ConditionTable[cond], f)
              == ConditionHolds(cond, (f / 8) % 2 == 1, (f / 4) % 2 == 1, (f / 2) % 2 == 1, f % 2 == 1)
  {
    if f == 8 {
      TableBit8(cond);
    } else if f == 9 {
      TableBit9(cond);
    } else if f == 10 {
      TableBit10(cond);
    } else {
      TableBit11(cond);
    }
  }

  /** N and Z set. */
  lemma FlagsNZSet(cond: int, f: int)
    requires 0 <= cond < 16 && 12 <= f < 16
    ensures Bit(ConditionTable[cond], f)
              == ConditionHolds(cond, (f / 8) % 2 == 1, (f / 4) % 2 == 1, (f / 2) % 2 == 1, f % 2 == 1)
  {
    if f == 12 {
      TableBit12(cond);
    } else if f == 13 {
      TableBit13(cond);
    } else if f == 14 {
      TableBit14(cond);
    } else {
      TableBit15(cond);
    }
  }

  // Bit f of every entry, one flag combination f at a time.

  lemma TableBit0(cond: int)
    requires 0 <= cond < 16
    ensures Bit(ConditionTable[cond], 0) == ConditionHolds(cond, false, false, false, false)
  {
    assert Pow2(0) == 1;
  }

  lemma TableBit1(cond: int)
    requires 0 <= cond < 16
    ensures Bit(ConditionTable[cond], 1) == ConditionHolds(cond, false, false, false, true)
  {
    assert Pow2(1) == 2;
  }

  lemma TableBit2(cond: int)
    requires 0 <= cond < 16
    ensures Bit(ConditionTable[cond], 2) == ConditionHolds(cond, false, false, true, false)
  {
    assert Pow2(2) == 4;
  }

  lemma TableBit3(cond: int)
    requires 0 <= cond < 16
    ensures Bit(ConditionTable[cond], 3) == ConditionHolds(cond, false, false, true, true)
  {
    assert Pow2(3) == 8;
  }

  lemma TableBit4(cond: int)
    requires 0 <= cond < 16
    ensures Bit(ConditionTable[cond], 4) == ConditionHolds(cond, false, true, false, false)
  {
    assert Pow2(4) == 16;
  }

  lemma TableBit5(cond: int)
    requires 0 <= cond < 16
    ensures Bit(ConditionTable[cond], 5) == ConditionHolds(cond, false, true, false, true)
  {
    assert Pow2(5) == 32;
  }

  lemma TableBit6(cond: int)
    requires 0 <= cond < 16
    ensures Bit(ConditionTable[cond], 6) == ConditionHolds(cond, false, true, true, false)
  {
    assert Pow2(6) == 64;
  }

  lemma TableBit7(cond: int)
    requires 0 <= cond < 16
    ensures Bit(ConditionTable[cond], 7) == ConditionHolds(cond, false, true, true, true)
  {
    assert Pow2(7) == 128;
  }

  lemma TableBit8(cond: int)
    requires 0 <= cond < 16
    ensures Bit(ConditionTable[cond], 8) == ConditionHolds(cond, true, false, false, false)
  {
    assert Pow2(8) == 256;
  }

  lemma TableBit9(cond: int)
    requires 0 <= cond < 16
    ensures Bit(ConditionTable[cond], 9) == ConditionHolds(cond, true, false, false, true)
  {
    assert Pow2(9) == 512;
  }

  lemma TableBit10(cond: int)
    requires 0 <= cond < 16
    ensures Bit(ConditionTable[cond], 10) == ConditionHolds(cond, true, false, true, false)
  {
    assert Pow2(10) == 1024;
  }

  lemma TableBit11(cond: int)
    requires 0 <= cond < 16
    ensures Bit(ConditionTable[cond], 11) == ConditionHolds(cond, true, false, true, true)
  {
    assert Pow2(11) == 2048;
  }

  lemma TableBit12(cond: int)
    requires 0 <= cond < 16
    ensures Bit(ConditionTable[cond], 12) == ConditionHolds(cond, true, true, false, false)
  {
    assert Pow2(12) == 4096;
  }

  lemma TableBit13(cond: int)
    requires 0 <= cond < 16
    ensures Bit(ConditionTable[cond], 13) == ConditionHolds(cond, true, true, false, true)
  {
    assert Pow2(13) == 8192;
  }

  lemma TableBit14(cond: int)
    requires 0 <= cond < 16
    ensures Bit(ConditionTable[cond], 14) == ConditionHolds(cond, true, true, true, false)
  {
    assert Pow2(14) == 16384;
  }

  lemma TableBit15(cond: int)
    requires 0 <= cond < 16
    ensures Bit(ConditionTable[cond], 15) == ConditionHolds(cond, true, true, true, true)
  {
    assert Pow2(15) == 32768;
  }

  /** The instruction executes exactly when its condition holds on the
      CPSR's flags; AL always passes and NV never does. */
  lemma ConditionCheckMeaning(instr: Word, cpsr: Word)
    ensures ConditionPassed(instr, cpsr)
              == ConditionHolds(HighNibble(instr), FlagN(cpsr), FlagZ(cpsr), FlagC(cpsr), FlagV(cpsr))
    ensures HighNibble(instr) == 14 ==> ConditionPassed(instr, cpsr)
    ensures HighNibble(instr) == 15 ==> !ConditionPassed(instr, cpsr)
  {
    FlagsOf(cpsr);
    ConditionTableRow(HighNibble(instr), HighNibble(cpsr));
  }

  // ---------------------------------------------------------------------
  // DoAdd.

  datatype Sum = Sum(value: Word, carry: bool)

  /** DoAdd: the carry comes from adding the 16-bit halves separately; the
      sum is returned, except that it is 0 whenever op1 + op2 wraps to 0,
      whatever the carry in. */
  function DoAdd(op1: Word, op2: Word, oldCarry: bool): (r: Sum)
    ensures r.carry <==> op1 + op2 + (if oldCarry then 1 else 0) >= WordModulus
    ensures Wrap(op1 + op2) != 0 ==> r.value == Wrap(op1 + op2 + (if oldCarry then 1 else 0))
    ensures Wrap(op1 + op2) == 0 ==> r.value == 0
  {
    var c := if oldCarry then 1 else 0;
    var lowerSum := op1 % 0x1_0000 + op2 % 0x1_0000 + c;
    var higherSum := op1 / 0x1_0000 + op2 / 0x1_0000 + lowerSum / 0x1_0000;
    // (higherSum & 0xFFFF0000) > 1, where higherSum is below 2^17
    var newCarry := higherSum / 0x1_0000 > 0;
    HalvesCarry(op1, op2, c);
    WrapOnce(op1 + op2);
    WrapOnce(op1 + op2 + c);
    // (int) op1 == (int) (-op2)
    if op1 == Negate(op2) then Sum(0, newCarry)
    else Sum(Wrap(op1 + op2 + c), newCarry)
  }

  /** Adding the 16-bit halves carries out of bit 31 exactly when the full
      sum reaches 2^32. */
  lemma HalvesCarry(op1: Word, op2: Word, c: int)
    requires 0 <= c <= 1
    ensures var lowerSum := op1 % 0x1_0000 + op2 % 0x1_0000 + c;
            var higherSum := op1 / 0x1_0000 + op2 / 0x1_0000 + lowerSum / 0x1_0000;
            (higherSum / 0x1_0000 > 0 <==> op1 + op2 + c >= WordModulus)
  {
    var l1, h1, l2, h2 := op1 % 0x1_0000, op1 / 0x1_0000, op2 % 0x1_0000, op2 / 0x1_0000;
    assert op1 == h1 * 0x1_0000 + l1 && op2 == h2 * 0x1_0000 + l2;
    var lowerSum := l1 + l2 + c;
    var k := lowerSum / 0x1_0000;
    assert 0 <= k <= 1;
    assert op1 + op2 + c == (h1 + h2 + k) * 0x1_0000 + lowerSum % 0x1_0000;
  }

  /** Without a carry in, DoAdd is plain 32-bit addition; with one, it loses
      the carry when op1 + op2 wraps to 0 (1 + 0xFFFFFFFF + 1 gives 0). */
  lemma DoAddWithoutCarryIsSum(op1: Word, op2: Word)
    ensures DoAdd(op1, op2, false).value == Wrap(op1 + op2)
    ensures DoAdd(1, 0xFFFF_FFFF, true).value == 0 && Wrap(1 + 0xFFFF_FFFF + 1) == 1
  {
  }

  // ---------------------------------------------------------------------
  // Operand 2.

  /** An immediate operand: the low eight bits rotated right by twice the
      rotate field (bits 11-8). */
  function ImmediateOperand(instr: Word): Word {
    RotateRight(instr % 0x100, 2 * Field(instr, 0x100, 16))
  }

  /** Rotating the immediate operand back gives the eight-bit constant. */
  lemma ImmediateOperandRotatesBack(instr: Word)
    requires Field(instr, 0x100, 16) != 0
    ensures RotateRight(ImmediateOperand(instr), 32 - 2 * Field(instr, 0x100, 16)) == instr % 0x100
  {
    RotateRightInverse(instr % 0x100, 2 * Field(instr, 0x100, 16));
  }

  datatype Shifted = Shifted(value: Word, carry: bool)

  /** The shift types of bits 6-5. */
  const LogicalLeft := 0
  const LogicalRight := 1
  const ArithmeticRight := 2
  const RotateRightType := 3

  /** The barrel shifter of ReadShiftedRegisterOperand: `kind` is the
      shift type, `shift` the amount (0-31 from the instruction, 0-255 from
      a register) and `carryIn` the CPSR's carry. */
  function BarrelShift(kind: int, op: Word, shift: nat, carryIn: bool): Shifted
    requires 0 <= kind < 4
  {
    if kind == LogicalLeft then ShiftLeft(op, shift, carryIn)
    else if kind == LogicalRight then ShiftRight(op, shift)
    else if kind == ArithmeticRight then ShiftRightArithmetic(op, shift)
    else Rotate(op, shift, carryIn)
  }

  function ShiftLeft(op: Word, shift: nat, carryIn: bool): Shifted {
    if shift == 0 then Shifted(op, carryIn)
    else if shift == 32 then Shifted(0, op % 2 == 1)
    else if shift > 32 then Shifted(0, false)
    else Shifted(Shl(op, shift), Bit(op, 32 - shift))
  }

  function ShiftRight(op: Word, shift: nat): Shifted {
    if shift == 0 || shift == 32 then Shifted(0, Negative(op))
    else if shift > 32 then Shifted(0, false)
    else Shifted(Shr(op, shift), Bit(op, shift - 1))
  }

  function ShiftRightArithmetic(op: Word, shift: nat): Shifted {
    if shift == 0 || shift >= 32 then
      Shifted(if Negative(op) then 0xFFFF_FFFF else 0, Negative(op))
    else
      Shifted(ArithmeticShift(op, shift), Bit(op, shift - 1))
  }

  function Rotate(op: Word, shift: nat, carryIn: bool): Shifted {
    var amount := if shift > 32 then (if shift % 32 == 0 then 32 else shift % 32) else shift;
    if amount == 0 then
      // `(op >> 1) & (carry ? 0x80000000 : 0)`: an AND where an OR was meant
      Shifted((((op as bv32) >> 1) & (if carryIn then 0x8000_0000 else 0)) as int, op % 2 == 1)
    else
      Shifted(RotateRight(op, amount), Bit(op, amount - 1))
  }

  /** `op >> shift`, with the vacated top bits set when op is negative. */
  function ArithmeticShift(op: Word, shift: nat): Word
    requires 0 < shift < 32
  {
    RotateBound(op, shift);
    Pow2Word();
    Pow2Monotone(32 - shift, 32);
    Shr(op, shift) + (if Negative(op) then WordModulus - Pow2(32 - shift) else 0)
  }

  /** LSL by 1-31 keeps the low 32 bits of op * 2^shift, and the carry is
      bit 32 of that product: the last bit shifted out. */
  lemma LogicalLeftMeaning(op: Word, shift: nat, carryIn: bool)
    requires 0 < shift < 32
    ensures BarrelShift(LogicalLeft, op, shift, carryIn).value == Wrap(op * Pow2(shift))
    ensures BarrelShift(LogicalLeft, op, shift, carryIn).carry == Bit(op * Pow2(shift), 32)
  {
    Pow2Add(shift, 32 - shift);
    DivMulCancel(op, Pow2(shift), Pow2(32 - shift));
  }

  /** LSR by 1-31: op is value * 2^shift plus the bits shifted out, and the
      carry is the highest of those. */
  lemma LogicalRightMeaning(op: Word, shift: nat, carryIn: bool)
    requires 0 < shift < 32
    ensures var r := BarrelShift(LogicalRight, op, shift, carryIn);
            var dropped := op - r.value * Pow2(shift);
            0 <= dropped < Pow2(shift)
            && (r.carry <==> dropped >= Pow2(shift - 1))
  {
    DroppedBits(op, shift);
  }

  /** x / 2^s and x % 2^s, and bit s-1 of x is the top bit of x % 2^s. */
  lemma DroppedBits(x: int, shift: nat)
    requires x >= 0 && 0 < shift
    ensures 0 <= x - (x / Pow2(shift)) * Pow2(shift) < Pow2(shift)
    ensures Bit(x, shift - 1) <==> x - (x / Pow2(shift)) * Pow2(shift) >= Pow2(shift - 1)
  {
    var p := Pow2(shift - 1);
    assert Pow2(shift) == 2 * p;
    var d := x / p;
    var m := x % p;
    assert x == d * p + m;
    var e := d / 2;
    assert d == 2 * e + d % 2;
    assert x == e * (2 * p) + ((d % 2) * p + m);
    DivModUnique(x, 2 * p, e, (d % 2) * p + m);
  }

  /** ASR by 1-31 is division by 2^shift rounding down, on the signed
      value; the carry is the highest bit shifted out. */
  lemma ArithmeticRightMeaning(op: Word, shift: nat, carryIn: bool)
    requires 0 < shift < 32
    ensures var r := BarrelShift(ArithmeticRight, op, shift, carryIn);
            Signed(r.value) == Signed(op) / Pow2(shift)
            && (r.carry <==> op - (op / Pow2(shift)) * Pow2(shift) >= Pow2(shift - 1))
  {
    DroppedBits(op, shift);
    Pow2Add(shift, 32 - shift);
    Pow2Word();
    Pow2Monotone(32 - shift, 31);
    RotateBound(op, shift);
    if Negative(op) {
      NegativeShift(op, Pow2(shift), Pow2(32 - shift));
    }
  }

  /** The sign-filled quotient of a negative word is its signed quotient. */
  lemma NegativeShift(op: Word, p: int, q: int)
    requires p > 0 && 0 < q <= 0x8000_0000 && p * q == WordModulus
    requires Negative(op) && op / p < q
    ensures var v := op / p + WordModulus - q;
            0x8000_0000 <= v < WordModulus && v - WordModulus == (op - WordModulus) / p
  {
    DivSubMultiple(op, q, p);
  }

  /** ROR by 1-31 can be undone by rotating the rest of the way, and the
      carry is the bit that lands on top. */
  lemma RotateMeaning(op: Word, shift: nat, carryIn: bool)
    requires 0 < shift < 32
    ensures var r := BarrelShift(RotateRightType, op, shift, carryIn);
            RotateRight(r.value, 32 - shift) == op && (r.carry <==> Negative(r.value))
  {
    RotateRightInverse(op, shift);
    RotateCarry(op, shift);
  }

  lemma RotateCarry(op: Word, shift: nat)
    requires 0 < shift < 32
    ensures Bit(op, shift - 1) <==> Negative(RotateRight(op, shift))
  {
    var p, q, top := Pow2(shift), Pow2(32 - shift), Pow2(shift - 1);
    assert p == 2 * top;
    RotateBound(op, shift);
    DroppedBits(op, shift);
    RotatedTopBit(op, p, q, top);
  }

  /** Rotating puts the low part of op on top: the result's top bit is the
      top bit of op % p. */
  lemma RotatedTopBit(op: Word, p: int, q: int, top: int)
    requires top > 0 && p == 2 * top && q > 0 && p * q == WordModulus
    requires op / p < q
    ensures op % p == op - (op / p) * p
    ensures op / p + (op % p) * q >= 0x8000_0000 <==> op % p >= top
  {
    assert q * top == 0x8000_0000 by {
      assert p * q == 2 * (top * q);
    }
    var h, l := op / p, op % p;
    if l >= top {
      MulLe(top, l, q);
    } else {
      MulLe(l, top - 1, q);
      assert (top - 1) * q == 0x8000_0000 - q;
    }
  }

  /** A zero amount: LSL #0 passes the operand and the carry through, while
      LSR and ASR by 0 act as a shift by 32, even when the 0 comes from a
      register. */
  lemma ZeroShiftAmount(op: Word, carryIn: bool)
    ensures BarrelShift(LogicalLeft, op, 0, carryIn) == Shifted(op, carryIn)
    ensures BarrelShift(LogicalRight, op, 0, carryIn) == BarrelShift(LogicalRight, op, 32, carryIn)
    ensures BarrelShift(ArithmeticRight, op, 0, carryIn) == BarrelShift(ArithmeticRight, op, 32, carryIn)
  {
  }

  /** Beyond 32, LSL and LSR give 0 with no carry; RRX (ROR by 0) always
      yields 0. */
  lemma LargeShiftAmount(op: Word, carryIn: bool, shift: nat)
    ensures shift > 32 ==> BarrelShift(LogicalLeft, op, shift, carryIn) == Shifted(0, false)
    ensures shift > 32 ==> BarrelShift(LogicalRight, op, shift, carryIn) == Shifted(0, false)
    ensures BarrelShift(RotateRightType, op, 0, carryIn).value == 0
  {
  }

  /** ROR by more than 32 reduces the amount modulo 32, with 32 for a
      multiple of 32. */
  lemma RotateAmountWraps(op: Word, carryIn: bool, shift: nat)
    requires 0 < shift <= 32
    ensures BarrelShift(RotateRightType, op, shift + 32, carryIn) == BarrelShift(RotateRightType, op, shift, carryIn)
  {
    if shift == 32 {
      DivModUnique(shift + 32, 32, 2, 0);
    } else {
      DivModUnique(shift + 32, 32, 1, shift);
    }
    assert Rotate(op, shift + 32, carryIn) == Rotate(op, shift, carryIn);
  }

  // ---------------------------------------------------------------------
  // Data processing.

  /** What one data-processing operation computes: the result, the carry
      it leaves, whether Rd is written and whether it counts as a logic
      operation (which takes the shifter's carry and keeps V). */
  datatype AluOut = AluOut(result: Word, carry: bool, writes: bool, logic: bool)

  function Arithmetic(s: Sum, writes: bool): AluOut {
    AluOut(s.value, s.carry, writes, false)
  }

  /** The opcode switch of ProcessDataProcessing. */
  function Alu(opCode: int, op1: Word, op2: Word, carry: bool, shifterCarry: bool): (r: AluOut)
    requires 0 <= opCode < 16
    ensures r.writes <==> !(8 <= opCode <= 11)
    ensures r.logic <==> (opCode < 2 || 8 <= opCode <= 9 || opCode >= 12)
    ensures r.logic ==> r.carry == shifterCarry
  {
    match opCode
    case 0 => AluOut(And(op1, op2), shifterCarry, true, true)                // AND
    case 1 => AluOut(Xor(op1, op2), shifterCarry, true, true)                // EOR
    case 2 => Arithmetic(DoAdd(op1, Negate(op2), false), true)               // SUB
    case 3 => Arithmetic(DoAdd(op2, Negate(op1), false), true)               // RSB
    case 4 => Arithmetic(DoAdd(op1, op2, false), true)                       // ADD
    case 5 => Arithmetic(DoAdd(op1, op2, carry), true)                       // ADC
    case 6 => Arithmetic(DoAdd(op1, Negate(op2), carry), true)               // SBC
    case 7 => Arithmetic(DoAdd(op2, Negate(op1), carry), true)               // RSC
    case 8 => AluOut(And(op2, op1), shifterCarry, false, true)               // TST
    case 9 => AluOut(Xor(op2, op1), shifterCarry, false, true)               // TEQ
    case 10 => Arithmetic(DoAdd(op1, Negate(op2), carry), false)             // CMP
    case 11 => Arithmetic(DoAdd(op1, Negate(op2), carry), false)             // CMN
    case 12 => AluOut(Or(op2, op1), shifterCarry, true, true)                // ORR
    case 13 => AluOut(op2, shifterCarry, true, true)                         // MOV
    case 14 => AluOut(And(op1, Not(op2)), shifterCarry, true, true)          // BIC
    case 15 => AluOut(Not(op2), shifterCarry, true, true)                    // MVN
  }

  /** ADD gives the 32-bit sum, with the carry out of bit 31. */
  lemma AddMeaning(op1: Word, op2: Word, carry: bool, shifterCarry: bool)
    ensures Alu(4, op1, op2, carry, shifterCarry).result == Wrap(op1 + op2)
    ensures Alu(4, op1, op2, carry, shifterCarry).carry <==> op1 + op2 >= WordModulus
  {
    DoAddWithoutCarryIsSum(op1, op2);
  }

  /** SUB gives the 32-bit difference; it sets the carry exactly when op2
      is non-zero and at most op1, so `SUB rd, rn, #0` clears C. */
  lemma SubMeaning(op1: Word, op2: Word, carry: bool, shifterCarry: bool)
    ensures Alu(2, op1, op2, carry, shifterCarry).result == Wrap(op1 - op2)
    ensures Alu(2, op1, op2, carry, shifterCarry).carry <==> (op2 != 0 && op1 >= op2)
  {
    var s := DoAdd(op1, Negate(op2), false);
    assert Alu(2, op1, op2, carry, shifterCarry) == Arithmetic(s, true);
    DoAddWithoutCarryIsSum(op1, Negate(op2));
    AddNegated(op1, op2);
  }

  /** Adding ~op2 + 1 subtracts op2, and carries unless it borrows. */
  lemma AddNegated(op1: Word, op2: Word)
    ensures Wrap(op1 + Negate(op2)) == Wrap(op1 - op2)
    ensures op1 + Negate(op2) >= WordModulus <==> (op2 != 0 && op1 >= op2)
  {
    if op2 != 0 {
      assert Negate(op2) == WordModulus - op2;
      DivSubMultiple(op1 - op2 + WordModulus, 1, WordModulus);
    }
  }

  /** CMP and CMN compute the same thing, op1 - op2 plus the CPSR carry:
      with C set, comparing 4 with 5 gives a zero result and a carry. */
  lemma CompareAddsCarry(op1: Word, op2: Word, carry: bool, shifterCarry: bool)
    ensures Alu(10, op1, op2, carry, shifterCarry) == Alu(11, op1, op2, carry, shifterCarry)
    ensures Alu(10, 4, 5, true, shifterCarry).result == 0
    ensures Alu(10, 4, 5, true, shifterCarry).carry
  {
  }

  /** The CPSR after a data-processing instruction with S set: logic
      operations set N, Z and C and keep V; arithmetic ones also clear V
      when the operands' signs differ and keep it otherwise. */
  function DataProcessingFlags(cpsr: Word, out: AluOut, op1: Word, op2: Word): (r: Word)
    ensures FlagN(r) == Negative(out.result) && FlagZ(r) == (out.result == 0)
    ensures FlagC(r) == out.carry
    ensures FlagV(r) == (FlagV(cpsr) && (out.logic || Negative(op1) == Negative(op2)))
    ensures r % 0x1000_0000 == cpsr % 0x1000_0000
  {
    var v := if !out.logic && Negative(op1) != Negative(op2) then false else FlagV(cpsr);
    SetFlagsReadBack(cpsr, Negative(out.result), out.result == 0, out.carry, v);
    SetFlags(cpsr, Negative(out.result), out.result == 0, out.carry, v)
  }

  // ---------------------------------------------------------------------
  // Branch offset.

  /** The 24-bit offset field read as a signed number of words. */
  function SignExtend24(x: int): int
    requires 0 <= x < 0x100_0000
  {
    if x >= 0x80_0000 then x - 0x100_0000 else x
  }

  /** `offset = (instr & 0x00FFFFFF) << 2`, ORed with 0xFC000000 when bit
      25 is set, plus 4 for the prefetch. */
  function BranchOffset(instr: Word): (r: Word)
    ensures r == Wrap(SignExtend24(instr % 0x100_0000) * 4 + 4)
  {
    var offset := (instr % 0x100_0000) * 4;
    var extended := if Has(offset, 0x200_0000) then offset + 0xFC00_0000 else offset;
    Wrap(extended + 4)
  }

  // ---------------------------------------------------------------------
  // Byte lanes.

  /** The byte of the word that address `a` selects: `3 - a % 4` when big
      endian, `a % 4` otherwise. */
  function Lane(a: Word, bigEnd: bool): (l: int)
    ensures 0 <= l < 4
  {
    if bigEnd then 3 - a % 4 else a % 4
  }

  function LaneWeight(lane: int): (w: int)
    requires 0 <= lane < 4
    ensures w > 0
  {
    [1, 0x100, 0x1_0000, 0x100_0000][lane]
  }

  function ByteOf(w: Word, lane: int): (b: int)
    requires 0 <= lane < 4
    ensures 0 <= b < 0x100
  {
    (w / LaneWeight(lane)) % 0x100
  }

  /** The word whose byte lanes 0 to 3 are b. */
  function FromBytes(b: seq<int>): Word
    requires |b| == 4 && forall k :: 0 <= k < 4 ==> 0 <= b[k] < 0x100
  {
    b[0] + 0x100 * b[1] + 0x1_0000 * b[2] + 0x100_0000 * b[3]
  }

  function Bytes(w: Word): (b: seq<int>)
    ensures |b| == 4 && forall k :: 0 <= k < 4 ==> b[k] == ByteOf(w, k)
  {
    [ByteOf(w, 0), ByteOf(w, 1), ByteOf(w, 2), ByteOf(w, 3)]
  }

  /** A word is its four bytes, and four bytes read back from their word. */
  lemma BytesRoundTrip(w: Word, b: seq<int>)
    requires |b| == 4 && forall k :: 0 <= k < 4 ==> 0 <= b[k] < 0x100
    ensures FromBytes(Bytes(w)) == w
    ensures Bytes(FromBytes(b)) == b
  {
    WordFromItsBytes(w);
    BytesFromTheirWord(b);
  }

  lemma WordFromItsBytes(w: Word)
    ensures FromBytes(Bytes(w)) == w
  {
    var q1, q2, q3 := w / 0x100, w / 0x1_0000, w / 0x100_0000;
    DivDiv(w, 0x100, 0x100);
    DivDiv(w, 0x1_0000, 0x100);
    assert q1 / 0x100 == q2 && q2 / 0x100 == q3;
    assert w == w % 0x100 + 0x100 * q1;
    assert q1 == q1 % 0x100 + 0x100 * q2;
    assert q2 == q2 % 0x100 + 0x100 * q3;
    assert q3 < 0x100 && q3 % 0x100 == q3;
    assert Bytes(w) == [w % 0x100, q1 % 0x100, q2 % 0x100, q3 % 0x100];
  }

  lemma BytesFromTheirWord(b: seq<int>)
    requires |b| == 4 && forall k :: 0 <= k < 4 ==> 0 <= b[k] < 0x100
    ensures Bytes(FromBytes(b)) == b
  {
    var x := FromBytes(b);
    DivModUnique(x, 0x100, b[1] + 0x100 * b[2] + 0x1_0000 * b[3], b[0]);
    DivModUnique(x, 0x1_0000, b[2] + 0x100 * b[3], b[0] + 0x100 * b[1]);
    DivModUnique(x, 0x100_0000, b[3], b[0] + 0x100 * b[1] + 0x1_0000 * b[2]);
    DivModUnique(b[1] + 0x100 * b[2] + 0x1_0000 * b[3], 0x100, b[2] + 0x100 * b[3], b[1]);
    DivModUnique(b[2] + 0x100 * b[3], 0x100, b[3], b[2]);
    assert Bytes(x)[0] == b[0] && Bytes(x)[1] == b[1] && Bytes(x)[2] == b[2] && Bytes(x)[3] == b[3];
  }

  /** The word w with lane `lane` replaced by byte b. */
  function ReplaceLane(w: Word, lane: int, b: int): Word
    requires 0 <= lane < 4 && 0 <= b < 0x100
  {
    FromBytes(Bytes(w)[lane := b])
  }

  /** DoLDR once the word is fetched: a byte load returns the addressed
      lane; a big-endian word load rotates right by 8 * (a % 4); a
      little-endian one rotates by 0, 0, 16 or 8 for a % 4 = 0 to 3. */
  function LoadValue(word: Word, a: Word, isByte: bool, bigEnd: bool): (v: Word)
    ensures isByte ==> v < 0x100 && v == ByteOf(word, Lane(a, bigEnd))
    ensures !isByte && bigEnd ==> v == RotateRight(word, 8 * (a % 4))
  {
    if isByte then ByteOf(word, Lane(a, bigEnd))
    else if bigEnd then RotateRight(word, 8 * (a % 4))
    else [word, word, RotateRight(word, 16), RotateRight(word, 8)][a % 4]
  }

  /** A word load from an aligned address returns the word unrotated. */
  lemma AlignedWordLoad(word: Word, a: Word, bigEnd: bool)
    requires a % 4 == 0
    ensures LoadValue(word, a, false, bigEnd) == word
  {
    Pow2Word();
  }
}
