/** What each ARM60CPU handler does to the processor state, as functions
    of the state before it.  The register file holds R0-R15 of the current
    mode (R15 is the PC); memory maps word-aligned addresses to words, and
    a word never written reads as 0. */
module ArmSpec {
  import opened Outcomes
  import opened ArmWord
  import opened ArmAlu
  import ArmDecode

  const PC := 15
  const LinkRegister := 14

  /** What the CPU takes from outside this file: the cycle costs SCYCLES,
      NCYCLES and ICYCLES, the BIGEND setting and the mode number
      CPUMODE_USR. */
  datatype Config = Config(sCycles: nat, nCycles: nat, iCycles: nat, bigEnd: bool, userMode: int)

  datatype Cpu = Cpu(r: seq<Word>, cpsr: Word, spsr: Word, mem: map<Word, Word>, cycles: nat)

  predicate Wf(c: Cpu) {
    |c.r| == 16
  }

  /** The CPSR's mode bits 4-0. */
  function Mode(psr: Word): int {
    psr % 32
  }

  /** `value & 0xfffffffc`. */
  function AlignDown(v: Word): (r: Word)
    ensures r % 4 == 0 && r <= v < r + 4
  {
    v - v % 4
  }

  // ---------------------------------------------------------------------
  // Memory, as the DMA's GetWord, SetWord and SetByte use it.

  function GetWord(mem: map<Word, Word>, a: Word): Word {
    var k := AlignDown(a);
    if k in mem then mem[k] else 0
  }

  function SetWord(mem: map<Word, Word>, a: Word, v: Word): map<Word, Word> {
    mem[AlignDown(a) := v]
  }

  /** Writes byte b into the lane of its word that a load from `a` reads. */
  function SetByte(mem: map<Word, Word>, a: Word, b: int, bigEnd: bool): map<Word, Word>
    requires 0 <= b < 0x100
  {
    mem[AlignDown(a) := ReplaceLane(GetWord(mem, a), Lane(a, bigEnd), b)]
  }

  /** DoLDR: fetch the word holding `a`, then pick the byte or rotate. */
  function DoLDR(mem: map<Word, Word>, a: Word, isByte: bool, bigEnd: bool): Word {
    LoadValue(GetWord(mem, a), a, isByte, bigEnd)
  }

  /** The value DoSTR stores from register `reg`: R15 reads 8 ahead. */
  function StoreValue(r: seq<Word>, reg: int): Word
    requires |r| == 16 && 0 <= reg < 16
  {
    if reg == PC then Wrap(r[PC] as int + 8) else r[reg]
  }

  /** DoSTR: a byte store writes the low byte, a word store the word. */
  function DoSTR(mem: map<Word, Word>, r: seq<Word>, a: Word, reg: int, isByte: bool, bigEnd: bool): map<Word, Word>
    requires |r| == 16 && 0 <= reg < 16
  {
    var value := StoreValue(r, reg);
    if isByte then SetByte(mem, a, value % 0x100, bigEnd) else SetWord(mem, a, value)
  }

  // ---------------------------------------------------------------------
  // Operand 2 from a register.

  datatype Operand = Operand(value: Word, carry: bool, cycles: nat)

  /** ReadShiftedRegisterOperand: Rm (bits 3-0; R15 reads 4 ahead, or 8
      with a register shift) through the barrel shifter, by the amount in
      bits 11-7 or in the bottom byte of Rs (bits 11-8), which costs an I
      cycle. */
  function ShiftedRegisterOperand(c: Cpu, cfg: Config, instr: Word): (o: Operand)
    requires Wf(c)
    ensures o.cycles == if Has(instr, 0x10) then cfg.iCycles else 0
  {
    var s := BarrelShift(Field(instr, 0x20, 4), ShiftSource(c, instr), ShiftAmount(c, instr), FlagC(c.cpsr));
    Operand(s.value, s.carry, if Has(instr, 0x10) then cfg.iCycles else 0)
  }

  /** Rm, read 8 ahead as R15 with a register shift and 4 ahead otherwise. */
  function ShiftSource(c: Cpu, instr: Word): Word
    requires Wf(c)
  {
    var rm := instr % 16;
    if rm == PC then Wrap(c.r[PC] as int + (if Has(instr, 0x10) then 8 else 4)) else c.r[rm]
  }

  /** The bottom byte of Rs (bits 11-8) with a register shift (bit 4), the
      immediate amount in bits 11-7 otherwise. */
  function ShiftAmount(c: Cpu, instr: Word): nat
    requires Wf(c)
  {
    if Has(instr, 0x10) then c.r[Field(instr, 0x100, 16)] % 0x100 else Field(instr, 0x80, 32)
  }

  // ---------------------------------------------------------------------
  // The handlers.

  /** ProcessBranch: with L (bit 24) R14 gets the PC + 4; the PC moves by
      the branch offset; 2S + N cycles. */
  function DoBranch(c: Cpu, cfg: Config, instr: Word): (r: Cpu)
    requires Wf(c)
    ensures Wf(r) && r.cycles == c.cycles + 2 * cfg.sCycles + cfg.nCycles
  {
    var pc := c.r[PC];
    var r1 := if Has(instr, 0x100_0000) then c.r[LinkRegister := Wrap(pc + 4)] else c.r;
    c.(r := r1[PC := Wrap(pc + BranchOffset(instr))], cycles := c.cycles + 2 * cfg.sCycles + cfg.nCycles)
  }

  /** The Rn operand of a data-processing instruction: R15 reads 4 ahead. */
  function FirstOperand(c: Cpu, instr: Word): Word
    requires Wf(c)
  {
    var rn := Field(instr, 0x1_0000, 16);
    if rn == PC then Wrap(c.r[PC] as int + 4) else c.r[rn]
  }

  /** Operand 2: a rotated immediate (bit 25, no carry) or a shifted register. */
  function SecondOperand(c: Cpu, cfg: Config, instr: Word): Operand
    requires Wf(c)
  {
    if Has(instr, 0x200_0000) then Operand(ImmediateOperand(instr), false, 0)
    else ShiftedRegisterOperand(c, cfg, instr)
  }

  /** ProcessDataProcessing: the ALU result goes to Rd unless the opcode is
      a test (a write to R15 is word-aligned and costs S + N more); with S
      set, the flags are written, over the SPSR copied into the CPSR first
      when Rd is R15 outside user mode; always one more S cycle. */
  function DoDataProcessing(c: Cpu, cfg: Config, instr: Word): (r: Cpu)
    requires Wf(c)
    ensures Wf(r)
  {
    var op2 := SecondOperand(c, cfg, instr);
    Operate(Charged(c, op2), cfg, instr, FirstOperand(c, instr), op2.value, op2.carry)
  }

  /** The data-processing instruction once its operands are known. */
  function Operate(c: Cpu, cfg: Config, instr: Word, op1: Word, op2: Word, shifterCarry: bool): (r: Cpu)
    requires Wf(c)
    ensures Wf(r)
  {
    var opCode := Field(instr, 0x20_0000, 16);
    var rd := Field(instr, 0x1000, 16);
    var out := Alu(opCode, op1, op2, FlagC(c.cpsr), shifterCarry);
    var regs := if !out.writes then c.r
                else c.r[rd := if rd == PC then AlignDown(out.result) else out.result];
    var extra := if out.writes && rd == PC then cfg.sCycles + cfg.nCycles else 0;
    var psr := if rd == PC && Mode(c.cpsr) != cfg.userMode then c.spsr else c.cpsr;
    var cpsr := if Has(instr, 0x10_0000) then DataProcessingFlags(psr, out, op1, op2) else c.cpsr;
    c.(r := regs, cpsr := cpsr, cycles := c.cycles + extra + cfg.sCycles)
  }

  /** The offset of a single data transfer, negated when U (bit 23) is clear. */
  function TransferOffset(c: Cpu, cfg: Config, instr: Word): Operand
    requires Wf(c)
  {
    var o := if Has(instr, 0x200_0000) then ShiftedRegisterOperand(c, cfg, instr)
             else Operand(instr % 0x1000, false, 0);
    if Has(instr, 0x80_0000) then o else o.(value := Negate(o.value))
  }

  /** The LDR half: R15 as base reads 4 ahead; a load into R15 is
      word-aligned and costs S + N more; S + N + I cycles. */
  function Load(c: Cpu, cfg: Config, rn: int, rd: int, address: Word, isByte: bool): (r: Cpu)
    requires Wf(c) && 0 <= rn < 16 && 0 <= rd < 16
    ensures Wf(r)
  {
    var a := if rn == PC then Wrap(address + 4) else address;
    var v := DoLDR(c.mem, a, isByte, cfg.bigEnd);
    var extra := if rd == PC then cfg.sCycles + cfg.nCycles else 0;
    c.(r := c.r[rd := if rd == PC then AlignDown(v) else v],
       cycles := c.cycles + extra + cfg.sCycles + cfg.nCycles + cfg.iCycles)
  }

  /** The STR half: 2N cycles. */
  function Store(c: Cpu, cfg: Config, rd: int, address: Word, isByte: bool): (r: Cpu)
    requires Wf(c) && 0 <= rd < 16
    ensures Wf(r) && r.r == c.r
  {
    c.(mem := DoSTR(c.mem, c.r, address, rd, isByte, cfg.bigEnd), cycles := c.cycles + 2 * cfg.nCycles)
  }

  /** ProcessSingleDataTransfer: pre-indexed (P, bit 24) transfers use
      base + offset, post-indexed ones the base; with W (bit 21) the base is
      advanced before a pre-indexed transfer and again after any transfer. */
  function DoSingleDataTransfer(c: Cpu, cfg: Config, instr: Word): (r: Cpu)
    requires Wf(c)
    ensures Wf(r)
  {
    TransferWith(Charged(c, TransferOffset(c, cfg, instr)), cfg, instr, TransferOffset(c, cfg, instr).value)
  }

  /** The shifter's cycles added to the count. */
  function Charged(c: Cpu, o: Operand): (r: Cpu)
    requires Wf(c)
    ensures Wf(r)
  {
    c.(cycles := c.cycles + o.cycles)
  }

  /** The load (L, bit 20) or the store at `address`. */
  function Access(c: Cpu, cfg: Config, instr: Word, address: Word): (r: Cpu)
    requires Wf(c)
    ensures Wf(r)
  {
    var rn := Field(instr, 0x1_0000, 16);
    var rd := Field(instr, 0x1000, 16);
    if Has(instr, 0x10_0000) then Load(c, cfg, rn, rd, address, Has(instr, 0x40_0000))
    else Store(c, cfg, rd, address, Has(instr, 0x40_0000))
  }

  /** The address of the access: base plus offset when pre-indexed
      (P, bit 24), the base alone otherwise. */
  function TransferAddress(c: Cpu, instr: Word, offset: Word): Word
    requires Wf(c)
  {
    var rn := Field(instr, 0x1_0000, 16);
    if Has(instr, 0x100_0000) then Wrap(c.r[rn] as int + offset) else c.r[rn]
  }

  /** Pre-indexed with write-back (W, bit 21): the base takes the address
      before the access. */
  function PreIndexed(c: Cpu, instr: Word, offset: Word): (r: Cpu)
    requires Wf(c)
    ensures Wf(r)
  {
    var rn := Field(instr, 0x1_0000, 16);
    if Has(instr, 0x100_0000) && Has(instr, 0x20_0000) then c.(r := c.r[rn := TransferAddress(c, instr, offset)])
    else c
  }

  /** With W set the base gets the offset added after the access, a second
      time when pre-indexed. */
  function WrittenBack(c: Cpu, instr: Word, offset: Word): (r: Cpu)
    requires Wf(c)
    ensures Wf(r)
  {
    var rn := Field(instr, 0x1_0000, 16);
    if Has(instr, 0x20_0000) then c.(r := c.r[rn := Wrap(c.r[rn] as int + offset)]) else c
  }

  /** The transfer once the offset is known. */
  function TransferWith(c: Cpu, cfg: Config, instr: Word, offset: Word): (r: Cpu)
    requires Wf(c)
    ensures Wf(r)
  {
    WrittenBack(Access(PreIndexed(c, instr, offset), cfg, instr, TransferAddress(c, instr, offset)), instr, offset)
  }


  /** ProcessSingleDataSwap as written: the base, the destination and the
      source are all Rm (bits 3-0). */
  function DoSwap(c: Cpu, cfg: Config, instr: Word): (r: Cpu)
    requires Wf(c)
    ensures Wf(r)
  {
    var rm := instr % 16;
    var isByte := Has(instr, 0x40_0000);
    var address := c.r[rm];
    var value := DoLDR(c.mem, address, isByte, cfg.bigEnd);
    c.(r := c.r[rm := value],
       mem := DoSTR(c.mem, c.r, address, rm, isByte, cfg.bigEnd),
       cycles := c.cycles + cfg.sCycles + 2 * cfg.nCycles + cfg.iCycles)
  }

  /** ProcessPSRTransfer, chosen by bits 21-16: 0x0F is MRS, into R1 when
      the Rd field is non-zero and into R0 otherwise; 0x29 is MSR from Rm;
      0x28 is MSR from Rm or from a rotated immediate.  Bit 22 selects the
      SPSR.  No cycles are counted. */
  function DoPsrTransfer(c: Cpu, instr: Word): (r: Cpu)
    requires Wf(c)
    ensures Wf(r) && r.cycles == c.cycles && r.mem == c.mem
  {
    var toSpsr := Has(instr, 0x40_0000);
    var kind := Field(instr, 0x1_0000, 64);
    if kind == 0x0F then
      var rd := if Field(instr, 0x1000, 16) != 0 then 1 else 0;
      c.(r := c.r[rd := if toSpsr then c.spsr else c.cpsr])
    else if kind == 0x29 || kind == 0x28 then
      var source := if kind == 0x28 && Has(instr, 0x200_0000) then ImmediateOperand(instr)
                    else c.r[instr % 16];
      if toSpsr then c.(spsr := source) else c.(cpsr := source)
    else c
  }

  /** The register indices ProcessMultiply uses: the Rd, Rn and Rs fields
      unshifted, so Rd is 65536 times the field; Rm is bits 3-0. */
  function MultiplyIndices(instr: Word): (ix: (int, int, int, int))
    ensures ix.0 < 16 <==> Field(instr, 0x1_0000, 16) == 0
    ensures ix.1 < 16 <==> Field(instr, 0x1000, 16) == 0
    ensures ix.2 < 16 <==> Field(instr, 0x100, 16) == 0
    ensures 0 <= ix.0 && 0 <= ix.1 && 0 <= ix.2 && 0 <= ix.3 < 16
  {
    (Field(instr, 0x1_0000, 16) * 0x1_0000, Field(instr, 0x1000, 16) * 0x1000,
     Field(instr, 0x100, 16) * 0x100, instr % 16)
  }

  /** ProcessMultiply as written.  A register index outside R0-R15 (any
      non-zero Rd or Rs field, or Rn field under A) reaches past the
      register file, which the model does not define: None. */
  function DoMultiply(c: Cpu, instr: Word): (r: Option<Cpu>)
    requires Wf(c)
    ensures r.Some? ==> Wf(r.value) && r.value.cycles == c.cycles
  {
    var (rd, rn, rs, rm) := MultiplyIndices(instr);
    var accumulate := Has(instr, 0x20_0000);
    if rd >= 16 || rs >= 16 || (accumulate && rn >= 16) then None
    else
      var product := if rm == rd then 0 else Wrap(c.r[rm] as int * c.r[rs]);
      var result := if accumulate then Wrap(product + c.r[rn]) else product;
      var cpsr := if Has(instr, 0x10_0000)
                  then SetFlags(c.cpsr, Negative(result), result == 0, false, FlagV(c.cpsr))
                  else c.cpsr;
      Some(c.(r := c.r[rd := result], cpsr := cpsr))
  }

  // ---------------------------------------------------------------------
  // Block data transfer.

  /** The block transfer's running state: the CPU and the next address. */
  datatype Transfer = Transfer(cpu: Cpu, address: Word)

  /** `increment`: +4 with U (bit 23), -4 otherwise, as a 32-bit addend. */
  function BlockIncrement(instr: Word): Word {
    if Has(instr, 0x80_0000) then 4 else WordModulus - 4
  }

  /** As written: the base register index is `instr & 0x000F0000`, 65536
      times the Rn field. */
  function BlockBaseIndex(instr: Word): (k: int)
    ensures 0 <= k && (k < 16 <==> Field(instr, 0x1_0000, 16) == 0)
  {
    Field(instr, 0x1_0000, 16) * 0x1_0000
  }

  /** One listed register: pre-index, load or store, post-index. */
  function BlockRegister(t: Transfer, instr: Word, reg: int, base: int): (u: Transfer)
    requires Wf(t.cpu) && 0 <= reg < 16 && 0 <= base < 16
    ensures Wf(u.cpu) && u.cpu.cycles == t.cpu.cycles
  {
    var pre := Has(instr, 0x100_0000);
    var writeBack := Has(instr, 0x20_0000);
    var c := t.cpu;
    var a1 := if pre then Wrap(t.address + BlockIncrement(instr)) else t.address;
    var r1 := if pre && writeBack then c.r[base := a1] else c.r;
    var c1 :=
      if Has(instr, 0x10_0000) then
        // with S and R15 listed, the SPSR goes to the CPSR on each load
        var cpsr := if Has(instr, 0x40_0000) && Has(instr, 0x8000) then c.spsr else c.cpsr;
        c.(r := r1[reg := GetWord(c.mem, a1)], cpsr := cpsr)
      else
        c.(r := r1, mem := SetWord(c.mem, a1, r1[reg]));
    var a2 := if pre then a1 else Wrap(a1 + BlockIncrement(instr));
    var r2 := if !pre && writeBack then c1.r[base := a2] else c1.r;
    Transfer(c1.(r := r2), a2)
  }

  /** The transfer after registers 0 to n - 1 have been visited. */
  function BlockTransfer(c: Cpu, instr: Word, base: int, n: int): (t: Transfer)
    requires Wf(c) && 0 <= base < 16 && 0 <= n <= 16
    ensures Wf(t.cpu) && t.cpu.cycles == c.cycles
  {
    if n == 0 then Transfer(c, c.r[base])
    else
      var t := BlockTransfer(c, instr, base, n - 1);
      if Bit(instr, n - 1) then BlockRegister(t, instr, n - 1, base) else t
  }

  /** ProcessBlockDataTransfer: no cycles are counted. */
  function DoBlockDataTransfer(c: Cpu, instr: Word): (r: Option<Cpu>)
    requires Wf(c)
    ensures r.Some? <==> Field(instr, 0x1_0000, 16) == 0
    ensures r.Some? ==> Wf(r.value) && r.value.cycles == c.cycles
  {
    var base := BlockBaseIndex(instr);
    if base >= 16 then None else Some(BlockTransfer(c, instr, base, 16).cpu)
  }

  /** How many of registers 0 to n - 1 the list names. */
  function RegisterCount(instr: Word, n: nat): (k: nat)
    ensures k <= n
  {
    if n == 0 then 0 else RegisterCount(instr, n - 1) + (if Bit(instr, n - 1) then 1 else 0)
  }

  // ---------------------------------------------------------------------
  // One instruction, and a run of them.

  /** ProcessInstruction: a failed condition costs 2S + N and nothing else;
      otherwise the handler Decode picks runs.  The software interrupt,
      coprocessor and undefined handlers do nothing.  None when the
      instruction reaches past the register file. */
  function Execute(c: Cpu, cfg: Config, instr: Word): (r: Option<Cpu>)
    requires Wf(c)
    ensures r.Some? ==> Wf(r.value) && r.value.cycles >= c.cycles
    ensures !ConditionPassed(instr, c.cpsr) ==> r == Some(c.(cycles := c.cycles + 2 * cfg.sCycles + cfg.nCycles))
  {
    if !ConditionPassed(instr, c.cpsr) then Some(c.(cycles := c.cycles + 2 * cfg.sCycles + cfg.nCycles))
    else match ArmDecode.Decode(instr)
      case Multiply => DoMultiply(c, instr)
      case SingleDataSwap => Some(DoSwap(c, cfg, instr))
      case PsrTransfer => Some(DoPsrTransfer(c, instr))
      case DataProcessing => Some(DoDataProcessing(c, cfg, instr))
      case SingleDataTransfer => Some(DoSingleDataTransfer(c, cfg, instr))
      case BlockDataTransfer => DoBlockDataTransfer(c, instr)
      case Branch => Some(DoBranch(c, cfg, instr))
      case _ => Some(c)
  }

  /** The word at the PC. */
  function Fetch(c: Cpu): Word
    requires Wf(c)
  {
    GetWord(c.mem, c.r[PC])
  }

  /** The state with the PC moved on by 4 past the fetched word. */
  function Advance(c: Cpu): (r: Cpu)
    requires Wf(c)
    ensures Wf(r)
  {
    c.(r := c.r[PC := Wrap(c.r[PC] as int + 4)])
  }

  /** DoSingleInstruction: fetch at the PC, move the PC on by 4, execute. */
  function Step(c: Cpu, cfg: Config): (r: Option<Cpu>)
    requires Wf(c)
    ensures r.Some? ==> Wf(r.value) && r.value.cycles >= c.cycles
  {
    Execute(Advance(c), cfg, Fetch(c))
  }

  datatype StopReason = QuotaReached | FuelSpent | Unmodelled

  datatype RunResult = RunResult(cpu: Cpu, stop: StopReason)

  /** The loop of ExecuteCycles from state c, for at most `fuel` more
      instructions.  An instruction outside the model stops the run with the
      PC already past it and nothing else changed. */
  function RunFrom(c: Cpu, cfg: Config, quota: nat, fuel: nat): (r: RunResult)
    requires Wf(c)
    ensures Wf(r.cpu) && r.cpu.cycles >= c.cycles
    ensures r.stop == QuotaReached <==> r.cpu.cycles >= quota
    decreases fuel, 1
  {
    if c.cycles >= quota then RunResult(c, QuotaReached)
    else if fuel == 0 then RunResult(c, FuelSpent)
    else RunOn(c, cfg, quota, fuel)
  }

  /** The turn of the loop below the quota with fuel left: one instruction,
      then the rest of the run. */
  function RunOn(c: Cpu, cfg: Config, quota: nat, fuel: nat): (r: RunResult)
    requires Wf(c) && c.cycles < quota && fuel > 0
    ensures Wf(r.cpu) && r.cpu.cycles >= c.cycles
    ensures r.stop == QuotaReached <==> r.cpu.cycles >= quota
    decreases fuel, 0
  {
    match Step(c, cfg)
    case None => RunResult(Advance(c), Unmodelled)
    case Some(next) => RunFrom(next, cfg, quota, fuel - 1)
  }

  /** The loop ends once the count reaches the quota. */
  lemma RunFromQuota(c: Cpu, cfg: Config, quota: nat, fuel: nat)
    requires Wf(c) && c.cycles >= quota
    ensures RunFrom(c, cfg, quota, fuel) == RunResult(c, QuotaReached)
  {
  }

  /** Below the quota with no fuel left the run stops as it is. */
  lemma RunFromFuelSpent(c: Cpu, cfg: Config, quota: nat)
    requires Wf(c) && c.cycles < quota
    ensures RunFrom(c, cfg, quota, 0) == RunResult(c, FuelSpent)
  {
  }

  /** One more instruction of the loop, when the quota is not reached and
      the instruction is modelled. */
  lemma RunFromSteps(c: Cpu, cfg: Config, quota: nat, fuel: nat, next: Cpu)
    requires Wf(c) && c.cycles < quota && fuel > 0 && Step(c, cfg) == Some(next)
    ensures Wf(next) && RunFrom(c, cfg, quota, fuel) == RunFrom(next, cfg, quota, fuel - 1)
  {
  }

  /** The loop stops at an instruction outside the model. */
  lemma RunFromStops(c: Cpu, cfg: Config, quota: nat, fuel: nat)
    requires Wf(c) && c.cycles < quota && fuel > 0 && Step(c, cfg).None?
    ensures RunFrom(c, cfg, quota, fuel) == RunResult(Advance(c), Unmodelled)
  {
  }

  /** ExecuteCycles: the count restarts at 0 and instructions run until it
      reaches the quota. */
  function ExecuteCycles(c: Cpu, cfg: Config, quota: nat, fuel: nat): RunResult
    requires Wf(c)
  {
    RunFrom(c.(cycles := 0), cfg, quota, fuel)
  }
}
