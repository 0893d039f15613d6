/** The ARM60CPU object: the registers, the two status registers, the
    memory it reaches through the DMA and the cycle counter, updated in place
    by one handler per instruction class.  Each method is proved to leave
    exactly the state that the matching ArmSpec function gives. */
module ArmCpu {
  import opened Outcomes
  import opened ArmWord
  import opened ArmAlu
  import opened ArmSpec
  import ArmDecode

  class ARM60CPU {
    /** R0-R15 of the current mode, which the source keeps in its register
        object; R15 is the PC. */
    var regs: seq<Word>
    var cpsr: Word
    var spsr: Word
    /** The DMA's memory, by word-aligned address. */
    var mem: map<Word, Word>
    var cycleCount: nat
    const config: Config

    predicate Valid()
      reads this
    {
      |regs| == 16
    }

    /** The whole processor state as a value. */
    function State(): (c: Cpu)
      reads this
      requires Valid()
      ensures Wf(c)
    {
      Cpu(regs, cpsr, spsr, mem, cycleCount)
    }

    constructor (config: Config)
      ensures Valid()
      ensures State() == Cpu(seq(16, _ => 0), 0, 0, map[], 0) && this.config == config
    {
      regs := seq(16, _ => 0);
      cpsr, spsr := 0, 0;
      mem := map[];
      cycleCount := 0;
      this.config := config;
    }

    /** Fetches, moves the PC on by 4 and executes; false when the
        instruction reaches past the register file, and then only the PC
        has moved. */
    method DoSingleInstruction() returns (ok: bool)
      requires Valid()
      modifies this
      ensures Valid()
      ensures ok == Step(old(State()), config).Some?
      ensures ok ==> State() == Step(old(State()), config).value
      ensures !ok ==> State() == Advance(old(State()))
    {
      var instruction := GetWord(mem, regs[PC]);
      assert instruction == Fetch(old(State()));
      regs := regs[PC := Wrap(regs[PC] as int + 4)];
      assert State() == Advance(old(State()));
      ok := ProcessInstruction(instruction);
    }

    /** Runs instructions until the cycle count, restarted at 0, reaches
        `cycles`, at most `fuel` of them. */
    method ExecuteCycles(cycles: nat, fuel: nat) returns (stop: StopReason)
      requires Valid()
      modifies this
      ensures Valid()
      ensures RunResult(State(), stop) == ArmSpec.ExecuteCycles(old(State()), config, cycles, fuel)
    {
      ghost var goal := ArmSpec.ExecuteCycles(old(State()), config, cycles, fuel);
      cycleCount := 0;
      var remaining := fuel;
      while cycleCount < cycles
        invariant Valid()
        invariant RunFrom(State(), config, cycles, remaining) == goal
        decreases remaining
      {
        if remaining == 0 {
          RunFromFuelSpent(State(), config, cycles);
          return FuelSpent;
        }
        var ok := RunOne(cycles, remaining);
        if !ok {
          return Unmodelled;
        }
        remaining := remaining - 1;
      }
      RunFromQuota(State(), config, cycles, remaining);
      return QuotaReached;
    }

    /** One turn of the ExecuteCycles loop below the quota. */
    method RunOne(quota: nat, fuel: nat) returns (ok: bool)
      requires Valid() && cycleCount < quota && fuel > 0
      modifies this
      ensures Valid()
      ensures ok ==> RunFrom(State(), config, quota, fuel - 1) == RunFrom(old(State()), config, quota, fuel)
      ensures !ok ==> RunResult(State(), Unmodelled) == RunFrom(old(State()), config, quota, fuel)
    {
      ghost var before := State();
      ok := DoSingleInstruction();
      if !ok {
        RunFromStops(before, config, quota, fuel);
      } else {
        RunFromSteps(before, config, quota, fuel, State());
      }
    }

    /** The condition check, then the handler Decode picks. */
    method ProcessInstruction(instruction: Word) returns (ok: bool)
      requires Valid()
      modifies this
      ensures Valid()
      ensures ok == Execute(old(State()), config, instruction).Some?
      ensures ok ==> State() == Execute(old(State()), config, instruction).value
      ensures !ok ==> State() == old(State())
    {
      if !ConditionPassed(instruction, cpsr) {
        cycleCount := cycleCount + 2 * config.sCycles + config.nCycles;
        return true;
      }
      ok := true;
      match ArmDecode.Decode(instruction)
      case Multiply =>
        ok := ProcessMultiply(instruction);
      case SingleDataSwap =>
        ProcessSingleDataSwap(instruction);
      case PsrTransfer =>
        ProcessPSRTransfer(instruction);
      case DataProcessing =>
        ProcessDataProcessing(instruction);
      case SingleDataTransfer =>
        ProcessSingleDataTransfer(instruction);
      case BlockDataTransfer =>
        ok := ProcessBlockDataTransfer(instruction);
      case Branch =>
        ProcessBranch(instruction);
      case _ =>
    }

    method ProcessBranch(instruction: Word)
      requires Valid()
      modifies this
      ensures Valid() && State() == DoBranch(old(State()), config, instruction)
    {
      var pc := regs[PC];
      if Has(instruction, 0x100_0000) {
        regs := regs[LinkRegister := Wrap(pc as int + 4)];
      }
      regs := regs[PC := Wrap(pc as int + BranchOffset(instruction))];
      cycleCount := cycleCount + 2 * config.sCycles + config.nCycles;
    }

    /** Operand 2 from a register through the barrel shifter; a shift by a
        register costs an I cycle. */
    method ReadShiftedRegisterOperand(instruction: Word) returns (op: Word, newCarry: bool)
      requires Valid()
      modifies this
      ensures Valid()
      ensures var o := ShiftedRegisterOperand(old(State()), config, instruction);
              op == o.value && newCarry == o.carry
              && State() == old(State()).(cycles := old(cycleCount) + o.cycles)
    {
      var rm := instruction % 16;
      var isRegShift := Has(instruction, 0x10);
      op := regs[rm];
      if rm == PC {
        op := Wrap(op as int + (if isRegShift then 8 else 4));
      }
      var shift: nat;
      if isRegShift {
        shift := regs[Field(instruction, 0x100, 16)] % 0x100;
        cycleCount := cycleCount + config.iCycles;
      } else {
        shift := Field(instruction, 0x80, 32);
      }
      assert op == ShiftSource(old(State()), instruction);
      assert shift == ShiftAmount(old(State()), instruction);
      var s := BarrelShift(Field(instruction, 0x20, 4), op, shift, FlagC(cpsr));
      op, newCarry := s.value, s.carry;
    }

    method ProcessDataProcessing(instruction: Word)
      requires Valid()
      modifies this
      ensures Valid() && State() == DoDataProcessing(old(State()), config, instruction)
    {
      var newCarry := false;
      var op1Type := Field(instruction, 0x1_0000, 16);
      var op1 := regs[op1Type];
      if op1Type == PC {
        op1 := Wrap(op1 as int + 4);
      }
      var op2: Word;
      if Has(instruction, 0x200_0000) {
        op2 := ImmediateOperand(instruction);
      } else {
        op2, newCarry := ReadShiftedRegisterOperand(instruction);
      }
      ghost var operand := SecondOperand(old(State()), config, instruction);
      assert op1 == FirstOperand(old(State()), instruction);
      assert op2 == operand.value && newCarry == operand.carry;
      assert State() == Charged(old(State()), operand);
      ProcessOperands(instruction, op1, op2, newCarry);
    }

    /** The ALU, the write to Rd and the flags, once the operands are
        known. */
    method ProcessOperands(instruction: Word, op1: Word, op2: Word, newCarry: bool)
      requires Valid()
      modifies this
      ensures Valid() && State() == Operate(old(State()), config, instruction, op1, op2, newCarry)
    {
      var opCode := Field(instruction, 0x20_0000, 16);
      var setCond := Has(instruction, 0x10_0000);
      var regDest := Field(instruction, 0x1000, 16);
      var out := Alu(opCode, op1, op2, FlagC(cpsr), newCarry);
      if out.writes {
        if regDest == PC {
          cycleCount := cycleCount + config.sCycles + config.nCycles;
          regs := regs[regDest := AlignDown(out.result)];
        } else {
          regs := regs[regDest := out.result];
        }
      }
      if setCond {
        if regDest == PC && Mode(cpsr) != config.userMode {
          cpsr := spsr;
        }
        cpsr := DataProcessingFlags(cpsr, out, op1, op2);
      }
      cycleCount := cycleCount + config.sCycles;
    }

    method ProcessSingleDataTransfer(instruction: Word)
      requires Valid()
      modifies this
      ensures Valid() && State() == DoSingleDataTransfer(old(State()), config, instruction)
    {
      var newCarry := false;
      var offset: Word;
      if Has(instruction, 0x200_0000) {
        offset, newCarry := ReadShiftedRegisterOperand(instruction);
      } else {
        offset := instruction % 0x1000;
      }
      if !Has(instruction, 0x80_0000) {
        offset := Negate(offset);
      }
      ghost var o := TransferOffset(old(State()), config, instruction);
      assert offset == o.value;
      assert State() == Charged(old(State()), o);
      TransferAtOffset(instruction, offset);
    }

    /** The rest of ProcessSingleDataTransfer once the offset is known:
        the address, the load or store, and the write-backs. */
    method TransferAtOffset(instruction: Word, offset: Word)
      requires Valid()
      modifies this
      ensures Valid() && State() == TransferWith(old(State()), config, instruction, offset)
    {
      var baseRegNum := Field(instruction, 0x1_0000, 16);
      var address: Word;
      if Has(instruction, 0x100_0000) {
        if Has(instruction, 0x20_0000) {
          regs := regs[baseRegNum := Wrap(regs[baseRegNum] as int + offset)];
          address := regs[baseRegNum];
        } else {
          address := Wrap(regs[baseRegNum] as int + offset);
        }
      } else {
        address := regs[baseRegNum];
      }
      assert address == TransferAddress(old(State()), instruction, offset);
      assert State() == PreIndexed(old(State()), instruction, offset);
      LoadOrStore(instruction, address);
      ghost var c2 := State();
      if Has(instruction, 0x20_0000) {
        regs := regs[baseRegNum := Wrap(regs[baseRegNum] as int + offset)];
      }
      assert State() == WrittenBack(c2, instruction, offset);
    }

    /** The L bit (20) chooses a load into Rd or a store of Rd. */
    method LoadOrStore(instruction: Word, address: Word)
      requires Valid()
      modifies this
      ensures Valid() && State() == Access(old(State()), config, instruction, address)
    {
      var isByte := Has(instruction, 0x40_0000);
      if Has(instruction, 0x10_0000) {
        LoadRegister(Field(instruction, 0x1_0000, 16), Field(instruction, 0x1000, 16), address, isByte);
      } else {
        DoSTR(address, Field(instruction, 0x1000, 16), isByte);
        cycleCount := cycleCount + 2 * config.nCycles;
      }
    }

    /** The load half of ProcessSingleDataTransfer: R15 as base reads 4
        ahead, and a load into R15 is word-aligned and costs S + N more. */
    method LoadRegister(baseRegNum: int, regToLoad: int, address: Word, isByte: bool)
      requires Valid() && 0 <= baseRegNum < 16 && 0 <= regToLoad < 16
      modifies this
      ensures Valid() && State() == Load(old(State()), config, baseRegNum, regToLoad, address, isByte)
    {
      var a := address;
      if baseRegNum == PC {
        a := Wrap(a as int + 4);
      }
      if regToLoad == PC {
        regs := regs[regToLoad := AlignDown(DoLDR(mem, a, isByte, config.bigEnd))];
        cycleCount := cycleCount + config.sCycles + config.nCycles;
      } else {
        regs := regs[regToLoad := DoLDR(mem, a, isByte, config.bigEnd)];
      }
      cycleCount := cycleCount + config.sCycles + config.nCycles + config.iCycles;
    }

    /** Stores register `sourceReg` (R15 reads 8 ahead): its low byte or
        the whole word. */
    method DoSTR(address: Word, sourceReg: int, isByte: bool)
      requires Valid() && 0 <= sourceReg < 16
      modifies this
      ensures Valid()
      ensures State() == old(State()).(mem := ArmSpec.DoSTR(old(mem), regs, address, sourceReg, isByte, config.bigEnd))
    {
      var value := regs[sourceReg];
      if sourceReg == PC {
        value := Wrap(value as int + 8);
      }
      if isByte {
        mem := SetByte(mem, address, value % 0x100, config.bigEnd);
      } else {
        mem := SetWord(mem, address, value);
      }
    }

    method ProcessSingleDataSwap(instruction: Word)
      requires Valid()
      modifies this
      ensures Valid() && State() == DoSwap(old(State()), config, instruction)
    {
      var rm := instruction % 16;
      var isByte := Has(instruction, 0x40_0000);
      var address := regs[rm];
      var value := DoLDR(mem, address, isByte, config.bigEnd);
      DoSTR(address, rm, isByte);
      regs := regs[rm := value];
      cycleCount := cycleCount + config.sCycles + 2 * config.nCycles + config.iCycles;
    }

    method ProcessPSRTransfer(instruction: Word)
      requires Valid()
      modifies this
      ensures Valid() && State() == DoPsrTransfer(old(State()), instruction)
    {
      var toSpsr := Has(instruction, 0x40_0000);
      var kind := Field(instruction, 0x1_0000, 64);
      if kind == 0x0F {
        var rd := if Field(instruction, 0x1000, 16) != 0 then 1 else 0;
        regs := regs[rd := if toSpsr then spsr else cpsr];
      } else if kind == 0x29 || kind == 0x28 {
        var source := if kind == 0x28 && Has(instruction, 0x200_0000) then ImmediateOperand(instruction)
                      else regs[instruction % 16];
        if toSpsr {
          spsr := source;
        } else {
          cpsr := source;
        }
      }
    }

    /** False, with nothing changed, when an index reaches past R15. */
    method ProcessMultiply(instruction: Word) returns (ok: bool)
      requires Valid()
      modifies this
      ensures Valid()
      ensures ok == DoMultiply(old(State()), instruction).Some?
      ensures ok ==> State() == DoMultiply(old(State()), instruction).value
      ensures !ok ==> State() == old(State())
    {
      var (rd, rn, rs, rm) := MultiplyIndices(instruction);
      var accumulate := Has(instruction, 0x20_0000);
      if rd >= 16 || rs >= 16 || (accumulate && rn >= 16) {
        return false;
      }
      var result := Wrap(regs[rm] as int * regs[rs]);
      if rm == rd {
        result := 0;
      }
      if accumulate {
        result := Wrap(result as int + regs[rn]);
      }
      regs := regs[rd := result];
      if Has(instruction, 0x10_0000) {
        cpsr := SetFlags(cpsr, Negative(result), result == 0, false, FlagV(cpsr));
      }
      return true;
    }

    /** Counts the listed registers, then visits them from R0 up; false,
        with nothing changed, when the base index reaches past R15. */
    method ProcessBlockDataTransfer(instruction: Word) returns (ok: bool)
      requires Valid()
      modifies this
      ensures Valid()
      ensures ok == DoBlockDataTransfer(old(State()), instruction).Some?
      ensures ok ==> State() == DoBlockDataTransfer(old(State()), instruction).value
      ensures !ok ==> State() == old(State())
    {
      var registerCount := 0;
      var reg := 0;
      while reg < 16
        invariant 0 <= reg <= 16 && registerCount == RegisterCount(instruction, reg)
      {
        if Bit(instruction, reg) {
          registerCount := registerCount + 1;
        }
        reg := reg + 1;
      }
      var base := BlockBaseIndex(instruction);
      if base >= 16 {
        return false;
      }
      var address := regs[base];
      reg := 0;
      while reg < 16
        invariant 0 <= reg <= 16 && Valid()
        invariant BlockTransfer(old(State()), instruction, base, reg) == Transfer(State(), address)
      {
        if Bit(instruction, reg) {
          address := TransferRegister(instruction, reg, base, address);
        }
        reg := reg + 1;
      }
      return true;
    }

    /** One listed register: pre-index, load or store, post-index; with W
        each new address goes back to the base register. */
    method TransferRegister(instruction: Word, reg: int, base: int, address: Word) returns (next: Word)
      requires Valid() && 0 <= reg < 16 && 0 <= base < 16
      modifies this
      ensures Valid()
      ensures Transfer(State(), next) == BlockRegister(Transfer(old(State()), address), instruction, reg, base)
    {
      var increment := BlockIncrement(instruction);
      var isR15used := Has(instruction, 0x8000);
      var preIndex := Has(instruction, 0x100_0000);
      var isWriteBack := Has(instruction, 0x20_0000);
      var isPSR := Has(instruction, 0x40_0000);
      var isLoad := Has(instruction, 0x10_0000);
      next := address;
      if preIndex {
        next := Wrap(next as int + increment);
        if isWriteBack {
          regs := regs[base := next];
        }
      }
      if isLoad {
        regs := regs[reg := GetWord(mem, next)];
        if isPSR && isR15used {
          cpsr := spsr;
        }
      } else {
        mem := SetWord(mem, next, regs[reg]);
      }
      if !preIndex {
        next := Wrap(next as int + increment);
        if isWriteBack {
          regs := regs[base := next];
        }
      }
    }
  }
}
