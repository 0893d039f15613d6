/** Properties of the ARM60CPU handlers, stated on the functions of
    ArmSpec. */
module ArmProperties {
  import opened Outcomes
  import opened ArmWord
  import opened ArmAlu
  import opened ArmSpec

  // ---------------------------------------------------------------------
  // Memory.

  /** A byte stored at `a` loads back from `a`. */
  lemma ByteStoreThenLoad(mem: map<Word, Word>, r: seq<Word>, a: Word, reg: int, bigEnd: bool)
    requires |r| == 16 && 0 <= reg < 16
    ensures DoLDR(DoSTR(mem, r, a, reg, true, bigEnd), a, true, bigEnd) == StoreValue(r, reg) % 0x100
  {
    var w := GetWord(mem, a);
    var lane := Lane(a, bigEnd);
    var b := Bytes(w)[lane := StoreValue(r, reg) % 0x100];
    BytesRoundTrip(w, b);
  }

  /** Storing a byte leaves the other three bytes of its word as they were. */
  lemma ByteStoreKeepsOtherLanes(mem: map<Word, Word>, r: seq<Word>, a: Word, b: Word, reg: int, bigEnd: bool)
    requires |r| == 16 && 0 <= reg < 16
    requires AlignDown(b) == AlignDown(a) && Lane(b, bigEnd) != Lane(a, bigEnd)
    ensures DoLDR(DoSTR(mem, r, a, reg, true, bigEnd), b, true, bigEnd) == DoLDR(mem, b, true, bigEnd)
  {
    var w := GetWord(mem, a);
    var bs := Bytes(w)[Lane(a, bigEnd) := StoreValue(r, reg) % 0x100];
    BytesRoundTrip(w, bs);
  }

  /** A word stored at an aligned address loads back unrotated. */
  lemma WordStoreThenLoad(mem: map<Word, Word>, r: seq<Word>, a: Word, reg: int, bigEnd: bool)
    requires |r| == 16 && 0 <= reg < 16 && a % 4 == 0
    ensures DoLDR(DoSTR(mem, r, a, reg, false, bigEnd), a, false, bigEnd) == StoreValue(r, reg)
  {
    AlignedWordLoad(StoreValue(r, reg), a, bigEnd);
  }

  /** A store changes only the word that holds its address. */
  lemma StoreKeepsOtherWords(mem: map<Word, Word>, r: seq<Word>, a: Word, b: Word, reg: int, isByte: bool, bigEnd: bool)
    requires |r| == 16 && 0 <= reg < 16 && AlignDown(a) != AlignDown(b)
    ensures GetWord(DoSTR(mem, r, a, reg, isByte, bigEnd), b) == GetWord(mem, b)
  {
  }

  // ---------------------------------------------------------------------
  // Condition check and fetch.

  /** A skipped instruction moves the PC on by 4, costs 2S + N and changes
      nothing else. */
  lemma SkippedInstruction(c: Cpu, cfg: Config)
    requires Wf(c) && !ConditionPassed(Fetch(c), c.cpsr)
    ensures Step(c, cfg) == Some(Advance(c).(cycles := c.cycles + 2 * cfg.sCycles + cfg.nCycles))
    ensures Step(c, cfg).value.r[PC] == Wrap(c.r[PC] as int + 4)
  {
  }

  // ---------------------------------------------------------------------
  // Branch.

  /** For a branch fetched from address a (so the PC already reads a + 4),
      the target is a + 8 plus four times the signed offset field; with L,
      R14 gets a + 8; no other register changes. */
  lemma BranchTarget(c: Cpu, cfg: Config, instr: Word, a: Word)
    requires Wf(c) && c.r[PC] == Wrap(a as int + 4)
    ensures var r := DoBranch(c, cfg, instr);
            r.r[PC] == Wrap(a as int + 8 + SignExtend24(instr % 0x100_0000) * 4)
            && r.r[LinkRegister] == (if Has(instr, 0x100_0000) then Wrap(a as int + 8) else c.r[LinkRegister])
            && (forall k :: 0 <= k < LinkRegister ==> r.r[k] == c.r[k])
  {
    var x := SignExtend24(instr % 0x100_0000) * 4 + 4;
    WrapAdd(a as int + 4, 4);
    calc {
      Wrap(c.r[PC] as int + BranchOffset(instr));
      Wrap(Wrap(a as int + 4) + Wrap(x));
      { WrapAdd(a as int + 4, Wrap(x)); }
      Wrap(a as int + 4 + Wrap(x));
      { WrapAdd(x, a as int + 4); }
      Wrap(a as int + 8 + SignExtend24(instr % 0x100_0000) * 4);
    }
  }

  // ---------------------------------------------------------------------
  // Data processing.

  function OpCode(instr: Word): int {
    Field(instr, 0x20_0000, 16)
  }

  function Rd(instr: Word): int {
    Field(instr, 0x1000, 16)
  }

  /** TST, TEQ, CMP and CMN never write a register. */
  lemma TestsNeverWrite(c: Cpu, cfg: Config, instr: Word)
    requires Wf(c) && 8 <= OpCode(instr) <= 11
    ensures DoDataProcessing(c, cfg, instr).r == c.r
  {
  }

  /** A write to R15 is word-aligned and costs S + N on top of the S every
      data-processing instruction costs. */
  lemma WriteToPcAligned(c: Cpu, cfg: Config, instr: Word)
    requires Wf(c) && Rd(instr) == PC && !(8 <= OpCode(instr) <= 11)
    ensures var r := DoDataProcessing(c, cfg, instr);
            r.r[PC] % 4 == 0
            && r.cycles == c.cycles + SecondOperand(c, cfg, instr).cycles + 2 * cfg.sCycles + cfg.nCycles
  {
  }

  /** ADD writes the wrapped sum of its operands to Rd (other than R15). */
  lemma AddWritesSum(c: Cpu, cfg: Config, instr: Word)
    requires Wf(c) && OpCode(instr) == 4 && Rd(instr) != PC
    ensures DoDataProcessing(c, cfg, instr).r
            == c.r[Rd(instr) := Wrap(FirstOperand(c, instr) + SecondOperand(c, cfg, instr).value)]
  {
    AddMeaning(FirstOperand(c, instr), SecondOperand(c, cfg, instr).value, FlagC(c.cpsr), SecondOperand(c, cfg, instr).carry);
  }

  /** With S set and Rd other than R15, a logic operation sets N and Z from
      the result and C from the shifter, and leaves V alone. */
  lemma LogicOperationFlags(c: Cpu, cfg: Config, instr: Word)
    requires Wf(c) && Has(instr, 0x10_0000) && Rd(instr) != PC
    requires var op := OpCode(instr); op < 2 || 8 <= op <= 9 || op >= 12
    ensures var r := DoDataProcessing(c, cfg, instr);
            var out := Alu(OpCode(instr), FirstOperand(c, instr), SecondOperand(c, cfg, instr).value,
                           FlagC(c.cpsr), SecondOperand(c, cfg, instr).carry);
            FlagV(r.cpsr) == FlagV(c.cpsr) && FlagC(r.cpsr) == SecondOperand(c, cfg, instr).carry
            && FlagZ(r.cpsr) == (out.result == 0) && FlagN(r.cpsr) == Negative(out.result)
  {
  }

  /** Every data-processing instruction costs at least one S cycle and
      leaves memory alone. */
  lemma DataProcessingCost(c: Cpu, cfg: Config, instr: Word)
    requires Wf(c)
    ensures DoDataProcessing(c, cfg, instr).cycles >= c.cycles + cfg.sCycles
    ensures DoDataProcessing(c, cfg, instr).mem == c.mem
  {
  }

  // ---------------------------------------------------------------------
  // Single data transfer.

  function Rn(instr: Word): int {
    Field(instr, 0x1_0000, 16)
  }

  /** A load into R15 is word-aligned, unless write-back then moves R15 as
      the base. */
  lemma LoadIntoPcAligned(c: Cpu, cfg: Config, instr: Word)
    requires Wf(c) && Has(instr, 0x10_0000) && Rd(instr) == PC
    requires !(Has(instr, 0x20_0000) && Rn(instr) == PC)
    ensures DoSingleDataTransfer(c, cfg, instr).r[PC] % 4 == 0
  {
  }

  /** A pre-indexed store with write-back stores at base + offset and then
      leaves the base advanced by the offset twice. */
  lemma PreIndexedWriteBackTwice(c: Cpu, cfg: Config, instr: Word)
    requires Wf(c) && Has(instr, 0x100_0000) && Has(instr, 0x20_0000) && !Has(instr, 0x10_0000)
    ensures var offset := TransferOffset(c, cfg, instr).value;
            var r := DoSingleDataTransfer(c, cfg, instr);
            r.r[Rn(instr)] == Wrap(c.r[Rn(instr)] as int + 2 * offset)
            && r.mem == DoSTR(c.mem, c.r[Rn(instr) := Wrap(c.r[Rn(instr)] as int + offset)],
                              Wrap(c.r[Rn(instr)] as int + offset), Rd(instr), Has(instr, 0x40_0000), cfg.bigEnd)
  {
    var offset := TransferOffset(c, cfg, instr).value;
    WrapAdd(c.r[Rn(instr)] as int + offset, offset);
  }

  /** A post-indexed store without write-back stores at the base and
      changes no register. */
  lemma PostIndexedStoreKeepsBase(c: Cpu, cfg: Config, instr: Word)
    requires Wf(c) && !Has(instr, 0x100_0000) && !Has(instr, 0x20_0000) && !Has(instr, 0x10_0000)
    ensures var r := DoSingleDataTransfer(c, cfg, instr);
            r.r == c.r && r.mem == DoSTR(c.mem, c.r, c.r[Rn(instr)], Rd(instr), Has(instr, 0x40_0000), cfg.bigEnd)
  {
  }

  // ---------------------------------------------------------------------
  // Swap, PSR transfer, multiply.

  /** A word swap through Rm (not R15) at an aligned address exchanges Rm
      with the word it points to. */
  lemma SwapExchanges(c: Cpu, cfg: Config, instr: Word)
    requires Wf(c) && instr % 16 != PC && !Has(instr, 0x40_0000) && c.r[instr % 16] % 4 == 0
    ensures var m := instr % 16;
            var r := DoSwap(c, cfg, instr);
            r.r[m] == GetWord(c.mem, c.r[m]) && GetWord(r.mem, c.r[m]) == c.r[m]
  {
    var m := instr % 16;
    AlignedWordLoad(GetWord(c.mem, c.r[m]), c.r[m], cfg.bigEnd);
  }

  /** MRS writes R0 or R1, whatever register the Rd field names. */
  lemma MrsTargetsR0OrR1(c: Cpu, instr: Word)
    requires Wf(c) && Field(instr, 0x1_0000, 64) == 0x0F
    ensures var r := DoPsrTransfer(c, instr);
            var target := if Rd(instr) != 0 then 1 else 0;
            r.r == c.r[target := if Has(instr, 0x40_0000) then c.spsr else c.cpsr]
            && r.cpsr == c.cpsr && r.spsr == c.spsr
  {
  }

  /** MSR replaces the whole chosen PSR with Rm, or in the flags-only form
      with Rm or the rotated immediate, control bits included; the other
      PSR and every register are left alone. */
  lemma MsrReplacesWholePsr(c: Cpu, instr: Word)
    requires Wf(c)
    requires Field(instr, 0x1_0000, 64) == 0x29 || Field(instr, 0x1_0000, 64) == 0x28
    ensures var r := DoPsrTransfer(c, instr);
            var source := if Field(instr, 0x1_0000, 64) == 0x28 && Has(instr, 0x200_0000)
                          then ImmediateOperand(instr) else c.r[instr % 16];
            r.r == c.r
            && r.spsr == (if Has(instr, 0x40_0000) then source else c.spsr)
            && r.cpsr == (if Has(instr, 0x40_0000) then c.cpsr else source)
  {
  }

  /** The multiply is defined only when the Rd and Rs fields are 0 (and Rn
      too under A); it then multiplies Rm by R0 into R0, giving 0 when Rm is
      R0 as well. */
  lemma MultiplyAsWritten(c: Cpu, instr: Word)
    requires Wf(c)
    ensures DoMultiply(c, instr).Some?
            <==> (Field(instr, 0x1_0000, 16) == 0 && Field(instr, 0x100, 16) == 0
                  && (!Has(instr, 0x20_0000) || Field(instr, 0x1000, 16) == 0))
    ensures DoMultiply(c, instr).Some? && !Has(instr, 0x20_0000)
            ==> DoMultiply(c, instr).value.r
                == c.r[0 := if instr % 16 == 0 then 0 else Wrap(c.r[instr % 16] as int * c.r[0])]
  {
  }

  // ---------------------------------------------------------------------
  // Block data transfer.

  /** After the first n registers the address has moved by 4 (or -4) once
      per listed register. */
  lemma {:induction false} BlockAddressAdvances(c: Cpu, instr: Word, base: int, n: int)
    requires Wf(c) && 0 <= base < 16 && 0 <= n <= 16
    ensures BlockTransfer(c, instr, base, n).address
            == Wrap(c.r[base] as int + BlockIncrement(instr) * RegisterCount(instr, n))
  {
    if n > 0 {
      var t := BlockTransfer(c, instr, base, n - 1);
      BlockAddressAdvances(c, instr, base, n - 1);
      var k := RegisterCount(instr, n - 1);
      var inc := BlockIncrement(instr);
      if Bit(instr, n - 1) {
        assert BlockTransfer(c, instr, base, n) == BlockRegister(t, instr, n - 1, base);
        assert RegisterCount(instr, n) == k + 1;
        RegisterAdvancesAddress(t, instr, n - 1, base);
        WrapAdd(c.r[base] as int + inc * k, inc);
        MulSucc(inc, k);
      } else {
        assert BlockTransfer(c, instr, base, n) == t;
        assert RegisterCount(instr, n) == k;
      }
    }
  }

  /** Each listed register moves the address by one increment. */
  lemma RegisterAdvancesAddress(t: Transfer, instr: Word, reg: int, base: int)
    requires Wf(t.cpu) && 0 <= reg < 16 && 0 <= base < 16
    ensures BlockRegister(t, instr, reg, base).address == Wrap(t.address as int + BlockIncrement(instr))
  {
  }

  /** With write-back, once a register has been transferred the base holds
      the current address, provided a load does not list the base. */
  lemma {:induction false} BlockBaseFollowsAddress(c: Cpu, instr: Word, base: int, n: int)
    requires Wf(c) && 0 <= base < 16 && 0 <= n <= 16
    requires Has(instr, 0x20_0000) && (!Has(instr, 0x10_0000) || !Bit(instr, base))
    requires RegisterCount(instr, n) > 0
    ensures BlockTransfer(c, instr, base, n).cpu.r[base] == BlockTransfer(c, instr, base, n).address
  {
    if !Bit(instr, n - 1) {
      BlockBaseFollowsAddress(c, instr, base, n - 1);
    } else {
      assert n - 1 != base || !Has(instr, 0x10_0000);
    }
  }

  /** A block transfer with write-back whose base is R0 (the only base the
      handler can reach) and, for a load, not in the list leaves R0 moved
      by 4 times the number of listed registers. */
  lemma BlockWriteBack(c: Cpu, instr: Word)
    requires Wf(c) && Field(instr, 0x1_0000, 16) == 0 && Has(instr, 0x20_0000)
    requires !Has(instr, 0x10_0000) || !Bit(instr, 0)
    requires RegisterCount(instr, 16) > 0
    ensures DoBlockDataTransfer(c, instr).value.r[0]
            == Wrap(c.r[0] as int + BlockIncrement(instr) * RegisterCount(instr, 16))
  {
    BlockAddressAdvances(c, instr, 0, 16);
    BlockBaseFollowsAddress(c, instr, 0, 16);
  }

  // ---------------------------------------------------------------------
  // Running.

  /** ExecuteCycles stops at the quota or when out of fuel or on an
      instruction the model does not define; only the first leaves the count
      at or above the quota. */
  lemma RunStops(c: Cpu, cfg: Config, quota: nat, fuel: nat)
    requires Wf(c)
    ensures var res := ExecuteCycles(c, cfg, quota, fuel);
            (res.stop == QuotaReached <==> res.cpu.cycles >= quota)
            && (quota == 0 ==> res == RunResult(c.(cycles := 0), QuotaReached))
  {
  }
}
