/**
 * The opcode table `InitInstructions` fills (K6502/K6502_Instructions.cs:21-251).
 *
 * Every row is `CYCLE_0` followed by the micro-operations of one instruction.
 * The source lists the rows opcode by opcode, laid out as the 6502 decodes
 * an opcode `aaabbbcc`: `cc` picks the control, ALU or read-modify-write
 * column group, `aaa` the instruction within it and `bbb` the addressing
 * mode. The rows here are built the same way, from one row shape per
 * addressing mode, and the x3/x7/xB/xF column is the two-step NOP the fill
 * loop writes. Slots 256 and 257 hold the IRQ and NMI sequences.
 */
module OpcodeTable {
  import opened Bytes
  import opened Registers
  import opened Status
  import opened MicroOps

  /** The pseudo-opcodes of the interrupt sequences. */
  const IrqOpCode := 256
  const NmiOpCode := 257

  /** The addressing modes, named as the source's micro-op suffixes (`_xi`, `_d`, `_im`, ...). */
  datatype Mode = IndirectX | ZeroPage | Immediate | Absolute | IndirectY | ZeroPageX | AbsoluteY | AbsoluteX | ZeroPageY

  /** The `bbb` field of the ALU column group. */
  function AluMode(bbb: nat): Mode
    requires bbb < 8
  {
    [IndirectX, ZeroPage, Immediate, Absolute, IndirectY, ZeroPageX, AbsoluteY, AbsoluteX][bbb]
  }

  /** The steps of a read instruction: the address is formed, then the byte used as `op` says. */
  function ReadRow(mode: Mode, op: ReadOp): (r: seq<MicroOp>)
    ensures 1 <= |r| <= 5 && Cycle0 !in r
  {
    match mode
    case IndirectX =>
      [Reading(ReadImmediate(ToOperand)), Addressing(PointerAddX), Addressing(FetchPointerLower), Addressing(FetchPointerUpper(false)), Reading(ReadAbsolute(op))]
    case ZeroPage => [Addressing(FetchAddressLower), Reading(ReadZeroPage(op))]
    case Immediate => [Reading(ReadImmediate(op))]
    case Absolute => [Addressing(FetchAddressLower), Addressing(FetchAddressUpper), Reading(ReadAbsolute(op))]
    case IndirectY =>
      [Reading(ReadImmediate(ToOperand)), Addressing(FetchPointerLower), Addressing(FetchPointerUpper(true)), IndexedReading(ReadIndexed(IndexY, op)), Reading(ReadAbsolute(op))]
    case ZeroPageX => [Addressing(FetchAddressLower), Addressing(IndexZeroPage(IndexX)), Reading(ReadZeroPage(op))]
    case ZeroPageY => [Addressing(FetchAddressLower), Addressing(IndexZeroPage(IndexY)), Reading(ReadZeroPage(op))]
    case AbsoluteY => [Addressing(FetchAddressLower), Addressing(FetchAddressUpperIndexed(IndexY)), IndexedReading(ReadIndexed(IndexY, op)), Reading(ReadAbsolute(op))]
    case AbsoluteX => [Addressing(FetchAddressLower), Addressing(FetchAddressUpperIndexed(IndexX)), IndexedReading(ReadIndexed(IndexX, op)), Reading(ReadAbsolute(op))]
  }

  /** LDY abs,X, LDX abs,Y and NOP abs,X use the byte before testing for a page cross. */
  function EagerRow(i: Index, op: ReadOp): (r: seq<MicroOp>)
    ensures |r| == 4 && Cycle0 !in r
  {
    [Addressing(FetchAddressLower), Addressing(FetchAddressUpperIndexed(i)), IndexedReading(ReadIndexedEager(i, op)), Reading(ReadAbsolute(op))]
  }

  /** The steps of a store; the indexed modes always spend the page-fix cycle. */
  function StoreRow(mode: Mode, src: Register): (r: seq<MicroOp>)
    requires mode != Immediate
    ensures 2 <= |r| <= 5 && Cycle0 !in r
  {
    match mode
    case IndirectX =>
      [Reading(ReadImmediate(ToOperand)), Addressing(PointerAddX), Addressing(FetchPointerLower), Addressing(FetchPointerUpper(false)), Writing(StoreAbsolute(src))]
    case ZeroPage => [Addressing(FetchAddressLower), Writing(StoreZeroPage(src))]
    case Absolute => [Addressing(FetchAddressLower), Addressing(FetchAddressUpper), Writing(StoreAbsolute(src))]
    case IndirectY =>
      [Reading(ReadImmediate(ToOperand)), Addressing(FetchPointerLower), Addressing(FetchPointerUpper(true)), IndexedReading(ReadFixingPage(IndexY, Discard)), Writing(StoreAbsolute(src))]
    case ZeroPageX => [Addressing(FetchAddressLower), Addressing(IndexZeroPage(IndexX)), Writing(StoreZeroPage(src))]
    case ZeroPageY => [Addressing(FetchAddressLower), Addressing(IndexZeroPage(IndexY)), Writing(StoreZeroPage(src))]
    case AbsoluteY => [Addressing(FetchAddressLower), Addressing(FetchAddressUpperIndexed(IndexY)), IndexedReading(ReadFixingPage(IndexY, Discard)), Writing(StoreAbsolute(src))]
    case AbsoluteX => [Addressing(FetchAddressLower), Addressing(FetchAddressUpperIndexed(IndexX)), IndexedReading(ReadFixingPage(IndexX, Discard)), Writing(StoreAbsolute(src))]
  }

  /** SHY abs,X and SHX abs,Y: the stored byte is masked with the high address byte plus one. */
  function StoreHighRow(i: Index, src: Register): (r: seq<MicroOp>)
    ensures |r| == 4 && Cycle0 !in r
  {
    [Addressing(FetchAddressLower), Addressing(FetchAddressUpperIndexed(i)), IndexedReading(ReadFixingPage(i, Discard)), Writing(StoreHighMasked(src))]
  }

  /** The read-modify-write steps: read into Operand, write it back unchanged, write the result. */
  function RmwRow(mode: Mode, f: RmwOp): (r: seq<MicroOp>)
    requires mode in {ZeroPage, Absolute, ZeroPageX, AbsoluteX}
    ensures 4 <= |r| <= 6 && Cycle0 !in r
  {
    match mode
    case ZeroPage => [Addressing(FetchAddressLower), Reading(ReadZeroPage(ToOperand)), Writing(RmwWriteBack(false, f)), Writing(RmwWriteResult(false))]
    case Absolute =>
      [Addressing(FetchAddressLower), Addressing(FetchAddressUpper), Reading(ReadAbsolute(ToOperand)), Writing(RmwWriteBack(true, f)), Writing(RmwWriteResult(true))]
    case ZeroPageX =>
      [Addressing(FetchAddressLower), Addressing(IndexZeroPage(IndexX)), Reading(ReadZeroPage(ToOperand)), Writing(RmwWriteBack(false, f)), Writing(RmwWriteResult(false))]
    case AbsoluteX =>
      [Addressing(FetchAddressLower), Addressing(FetchAddressUpperIndexed(IndexX)), IndexedReading(ReadFixingPage(IndexX, ToOperand)), Reading(ReadAbsolute(ToOperand)),
       Writing(RmwWriteBack(true, f)), Writing(RmwWriteResult(true))]
  }

  /** A conditional branch: taken when `flag` equals `taken`. */
  function BranchRow(flag: FlagBit, taken: bool): (r: seq<MicroOp>)
    ensures |r| == 3 && Cycle0 !in r
  {
    [Control(BranchFetch(flag, taken)), Control(BranchAdd), Control(BranchFixPage)]
  }

  /** BRK (00), IRQ and NMI: push PC and P, then load PC from a vector. */
  function InterruptRow(first: MicroOp, status: PushSource, vector: Word): (r: seq<MicroOp>)
    requires !first.Cycle0? && vector < 0xFFFF
    ensures |r| == 6 && Cycle0 !in r
  {
    [first, Stack(Push(PushPCUpper)), Stack(Push(PushPCLower)), Stack(Push(status)), Control(VectorLower(vector)), Control(VectorUpper(vector + 1))]
  }

  /** The branch condition of column 4: BPL, BMI, BVC, BVS, BCC, BCS, BNE, BEQ. */
  function BranchFlag(aaa: nat): FlagBit
    requires aaa < 8
  {
    [NegativeBit, OverflowBit, CarryBit, ZeroBit][aaa / 2]
  }

  /** The steps of the control group, `cc == 00` (K6502/K6502_Instructions.cs:24-94). */
  function ControlRow(aaa: nat, bbb: nat): (r: seq<MicroOp>)
    requires aaa < 8 && bbb < 8
    ensures 1 <= |r| <= 6 && Cycle0 !in r
  {
    match bbb
    case 0 =>
      if aaa == 0 then InterruptRow(Reading(ReadImmediate(Discard)), PushStatus, 0xFFFE)                      // BRK
      else if aaa == 1 then [Addressing(FetchAddressLower), Implied(Idle), Stack(Push(PushPCUpper)), Stack(Push(PushPCLower)), Control(JumpAbsolute)] // JSR
      else if aaa == 2 then [Implied(DummyReadPC), Stack(IncrementS), Stack(PullStatus(true)), Stack(PullPCLower), Stack(PullPCUpper)]   // RTI
      else if aaa == 3 then [Implied(DummyReadPC), Stack(IncrementS), Stack(PullPCLower), Stack(PullPCUpper), Control(IncrementPC)]        // RTS
      else if aaa == 4 then [Reading(ReadImmediate(Discard))]                                                // NOP #
      else ReadRow(Immediate, [LDY, CPY, CPX][aaa - 5])
    case 1 =>
      if aaa == 1 then ReadRow(ZeroPage, BIT)
      else if aaa == 4 then StoreRow(ZeroPage, RegY)
      else if aaa < 5 then ReadRow(ZeroPage, Discard)                                               // NOP zpg
      else ReadRow(ZeroPage, [LDY, CPY, CPX][aaa - 5])
    case 2 =>
      [[Implied(DummyReadPC), Stack(Push(PushStatus))], [Implied(DummyReadPC), Stack(IncrementS), Stack(PullStatus(false))],               // PHP, PLP
       [Implied(DummyReadPC), Stack(Push(PushA))], [Implied(DummyReadPC), Stack(IncrementS), Stack(PullA)],                                // PHA, PLA
       [Implied(DecrementRegister(RegY))], [Implied(Transfer(RegA, RegY))],                                           // DEY, TAY
       [Implied(IncrementRegister(RegY))], [Implied(IncrementRegister(RegX))]][aaa]                                   // INY, INX
    case 3 =>
      if aaa == 0 then ReadRow(Absolute, Discard)                                                   // NOP abs
      else if aaa == 1 then ReadRow(Absolute, BIT)
      else if aaa == 2 then [Addressing(FetchAddressLower), Control(JumpAbsolute)]                                       // JMP abs
      else if aaa == 3 then [Addressing(FetchAddressLower), Addressing(FetchAddressUpper), Reading(ReadAbsolute(ToOperand)), Control(JumpIndirect)] // JMP (ind)
      else if aaa == 4 then StoreRow(Absolute, RegY)
      else ReadRow(Absolute, [LDY, CPY, CPX][aaa - 5])
    case 4 => BranchRow(BranchFlag(aaa), aaa % 2 == 1)
    case 5 =>
      if aaa == 4 then StoreRow(ZeroPageX, RegY)
      else if aaa == 5 then ReadRow(ZeroPageX, LDY)
      else ReadRow(ZeroPageX, Discard)                                                              // NOP zpg,X
    case 6 =>
      [[Implied(SetFlag(CarryBit, false))], [Implied(SetFlag(CarryBit, true))], [Implied(SetFlag(InterruptBit, false))],       // CLC, SEC, CLI
       [Implied(SetFlag(InterruptBit, true))], [Implied(Transfer(RegY, RegA))], [Implied(SetFlag(OverflowBit, false))],        // SEI, TYA, CLV
       [Implied(SetFlag(DecimalBit, false))], [Implied(SetFlag(DecimalBit, true))]][aaa]                              // CLD, SED
    case _ =>
      if aaa == 4 then StoreHighRow(IndexX, RegY)                                                   // SHY abs,X
      else if aaa == 5 then EagerRow(IndexX, LDY)
      else EagerRow(IndexX, Discard)                                                                // NOP abs,X
  }

  /** The steps of the ALU group, `cc == 01` (K6502/K6502_Instructions.cs:97-167). */
  function AluRow(aaa: nat, bbb: nat): (r: seq<MicroOp>)
    requires aaa < 8 && bbb < 8
    ensures 1 <= |r| <= 5 && Cycle0 !in r
  {
    if aaa == 4 then
      if bbb == 2 then [Reading(ReadImmediate(Discard))]                                                     // 89: NOP #
      else StoreRow(AluMode(bbb), RegA)
    else ReadRow(AluMode(bbb), [ORA, AND, EOR, ADC, Discard, LDA, CMP, SBC][aaa])
  }

  /** The steps of the read-modify-write group, `cc == 10` (K6502/K6502_Instructions.cs:170-240). */
  function RmwGroupRow(aaa: nat, bbb: nat): (r: seq<MicroOp>)
    requires aaa < 8 && bbb < 8
    ensures 1 <= |r| <= 6 && Cycle0 !in r
  {
    if bbb == 4 then [Implied(Stop)]                                                                         // STP
    else if aaa < 4 || aaa >= 6 then
      var f := if aaa < 4 then [ASL, ROL, LSR, ROR][aaa] else if aaa == 6 then DEC else INC;
      match bbb
      case 0 => if aaa < 4 then [Implied(Stop)] else [Reading(ReadImmediate(Discard))]                                // STP, NOP #
      case 1 => RmwRow(ZeroPage, f)
      case 2 => if aaa < 4 then [Writing(ShiftAccumulator(f))] else if aaa == 6 then [Implied(DecrementRegister(RegX))] else [Implied(DummyReadPC)]
      case 3 => RmwRow(Absolute, f)
      case 5 => RmwRow(ZeroPageX, f)
      case 6 => [Implied(DummyReadPC)]                                                                       // NOP
      case _ => RmwRow(AbsoluteX, f)
    else if aaa == 4 then
      match bbb
      case 0 => [Reading(ReadImmediate(Discard))]                                                            // NOP #
      case 1 => StoreRow(ZeroPage, RegX)
      case 2 => [Implied(Transfer(RegX, RegA))]                                                              // TXA
      case 3 => StoreRow(Absolute, RegX)
      case 5 => StoreRow(ZeroPageY, RegX)
      case 6 => [Implied(Transfer(RegX, RegS))]                                                              // TXS
      case _ => StoreHighRow(IndexY, RegX)                                                          // SHX abs,Y
    else
      match bbb
      case 0 => ReadRow(Immediate, LDX)
      case 1 => ReadRow(ZeroPage, LDX)
      case 2 => [Implied(Transfer(RegA, RegX))]                                                              // TAX
      case 3 => ReadRow(Absolute, LDX)
      case 5 => ReadRow(ZeroPageY, LDX)
      case 6 => [Implied(Transfer(RegS, RegX))]                                                              // TSX
      case _ => EagerRow(IndexY, LDX)
  }

  /** The row of the fill loop (K6502/K6502_Instructions.cs:243-246). */
  const FillerRow: seq<MicroOp> := [Cycle0, Implied(DummyReadPC)]

  /** `Instructions[op]`. */
  function Table(op: nat): (r: seq<MicroOp>)
    requires op < 258
  {
    if op == IrqOpCode then [Cycle0] + InterruptRow(Implied(DummyReadPC), PushStatusBreakClear, 0x00FE)
    else if op == NmiOpCode then [Cycle0] + InterruptRow(Implied(DummyReadPC), PushStatusBreakClear, 0x00FA)
    else
      var aaa, bbb := op / 0x20, op % 0x20 / 4;
      match op % 4
      case 0 => [Cycle0] + ControlRow(aaa, bbb)
      case 1 => [Cycle0] + AluRow(aaa, bbb)
      case 2 => [Cycle0] + RmwGroupRow(aaa, bbb)
      case _ => FillerRow
  }
}
