/** ProcessInstruction's choice of handler for an instruction whose
    condition passed.  The masks of the source test bits 27-20 and bits 7-4;
    here they read the two fields `Op` and `Low`. */
module ArmDecode {
  import opened ArmWord

  datatype InstructionClass =
    | Multiply
    | SingleDataSwap
    | PsrTransfer
    | DataProcessing
    | SingleDataTransfer
    | Undefined
    | BlockDataTransfer
    | Branch
    | CoprocessorDataTransfer
    | SoftwareInterrupt
    | CoprocessorRegisterTransfer
    | CoprocessorDataOperation
    | Unrecognised

  /** Bits 27-20. */
  function Op(instr: Word): (r: int)
    ensures 0 <= r < 0x100
  {
    Field(instr, 0x10_0000, 0x100)
  }

  /** Bits 7-4. */
  function Low(instr: Word): (r: int)
    ensures 0 <= r < 0x10
  {
    Field(instr, 0x10, 0x10)
  }

  /** `(instr & 0x0FC000F0) == 0x00000090`: bits 27-22 clear, bits 7-4 read 1001. */
  predicate MultiplyPattern(instr: Word) {
    Op(instr) / 4 == 0 && Low(instr) == 9
  }

  /** `(instr & 0x01900000) == 0x01000000`: bit 24 set, bits 23 and 20 clear. */
  predicate PsrOrSwapPattern(instr: Word) {
    (Op(instr) / 16) % 2 == 1 && (Op(instr) / 8) % 2 == 0 && Op(instr) % 2 == 0
  }

  /** `(instr & 0x02200080) == 0x00000080`: bits 25 and 21 clear, bit 7 set. */
  predicate SwapPattern(instr: Word) {
    (Op(instr) / 32) % 2 == 0 && (Op(instr) / 2) % 2 == 0 && Low(instr) / 8 == 1
  }

  /** The if-else chain of ProcessInstruction, in its order. */
  function Decode(instr: Word): (r: InstructionClass)
    ensures r != Undefined && r != Unrecognised
    ensures r == Branch <==> Op(instr) / 32 == 5
    ensures r == BlockDataTransfer <==> Op(instr) / 32 == 4
    ensures r == SingleDataTransfer <==> Op(instr) / 64 == 1
    ensures r == SoftwareInterrupt <==> Op(instr) / 16 == 15
    ensures r == Multiply <==> MultiplyPattern(instr)
    ensures r == DataProcessing <==> (Op(instr) / 64 == 0 && !MultiplyPattern(instr) && !PsrOrSwapPattern(instr))
  {
    var op := Op(instr);
    if MultiplyPattern(instr) then Multiply
    else if op / 64 == 0 then                          // 00
      if PsrOrSwapPattern(instr) then
        if SwapPattern(instr) then SingleDataSwap else PsrTransfer
      else DataProcessing
    else if op / 64 == 1 then SingleDataTransfer       // 01
    else if op / 32 == 3 then Undefined                // 011, already taken by 01
    else if op / 32 == 4 then BlockDataTransfer        // 100
    else if op / 32 == 5 then Branch                   // 101
    else if op / 32 == 6 then CoprocessorDataTransfer  // 110
    else if op / 16 == 15 then SoftwareInterrupt       // 1111
    else if op / 16 == 14 && Low(instr) % 2 == 1 then CoprocessorRegisterTransfer
    else if op / 16 == 14 then CoprocessorDataOperation
    else Unrecognised
  }
}
