/**
 * The per-cycle micro-operations of the CPU (K6502/K6502_Instructions.cs),
 * as a pure function from the CPU state before a cycle to the state after it.
 *
 * The source has one C# method per opcode and cycle (`LDA_ax_3`, `ASL_z_4`,
 * ...); most of them are the same few steps with a different register, index
 * or ALU helper. Here each distinct step is one constructor of `MicroOp`,
 * parametrised by what varies, and `Exec` gives its meaning. The CPU's memory
 * interface is a flat 64 KiB array, and every access through it is recorded in
 * `Trace`, so the dummy reads and writes the source performs for their bus
 * side effects stay visible.
 */
module MicroOps {
  import opened Bytes
  import opened Registers
  import opened Status
  import opened Alu

  /** The 64 KiB the CPU addresses. */
  type Ram = m: seq<Byte> | |m| == 0x1_0000 witness seq(0x1_0000, _ => 0)

  /** One access through the memory interface. */
  datatype Access = ReadAt(address: Word) | WriteAt(address: Word, value: Byte)

  /** The state the micro-operations and `Tick` work on (K6502/K6502.cs:10-46). */
  datatype Cpu = Cpu(
    A: Byte, X: Byte, Y: Byte, S: Byte, P: Flags,
    PC: DoubleRegister, Address: DoubleRegister, Operand: Byte,
    OpCode: nat, OpCodeCycle: nat, instructionEnded: bool,
    IRQLevelDetector: bool, IRQSignal: bool, NMIEdgeDetector: bool, NMISignal: bool,
    DecimalModeEnabled: bool,
    Memory: Ram, Trace: seq<Access>)

  /** The index register an addressing mode adds. */
  datatype Index = IndexX | IndexY

  /** The byte registers a transfer, store or increment names. */
  datatype Register = RegA | RegX | RegY | RegS

  /** What an instruction does with the byte it reads. */
  datatype ReadOp =
    | ORA | AND | EOR | ADC | SBC | CMP | CPX | CPY | LDA | LDX | LDY | BIT
    | Discard     // `_ = Memory[...]`
    | ToOperand   // `Operand = Memory[...]`

  /** The read-modify-write operations. */
  datatype RmwOp = ASL | ROL | LSR | ROR | INC | DEC

  /** What a push writes to the stack. */
  datatype PushSource = PushPCUpper | PushPCLower | PushStatus | PushStatusBreakClear | PushA

  /** Forming the effective address of an addressing mode. */
  datatype AddressOp =
    | FetchAddressLower                   // Address.Lower = Memory[PC.Whole++]
    | FetchAddressUpper                   // Address.Upper = Memory[PC.Whole++]
    | FetchAddressUpperIndexed(i: Index)  // ... and then Address.Lower += index
    | IndexZeroPage(i: Index)             // Address.Lower += index
    | PointerAddX                         // _ = Memory[Operand]; Operand += X
    | FetchPointerLower                   // Address.Lower = Memory[Operand]
    | FetchPointerUpper(addY: bool)       // Address.Upper = Memory[(Operand + 1) & 0xff]; maybe Lower += Y

  /** The reads whose address needs no page fix. */
  datatype ReadingOp =
    | ReadImmediate(op: ReadOp)           // op(Memory[PC.Whole++])
    | ReadZeroPage(op: ReadOp)            // op(Memory[Address.Lower])
    | ReadAbsolute(op: ReadOp)            // op(Memory[Address.Whole])

  /** The reads after an indexed `Address.Lower += index`, which may have to fix the page. */
  datatype IndexedOp =
    | ReadIndexed(i: Index, op: ReadOp)      // on a page cross: dummy read, Upper++; else op(...) and end
    | ReadIndexedEager(i: Index, op: ReadOp) // op(...) first; then Upper++ on a page cross, else end
    | ReadFixingPage(i: Index, op: ReadOp)   // op(...); Upper++ on a page cross; never ends

  /** Stores, the read-modify-write writes and the accumulator shifts. */
  datatype WriteOp =
    | StoreZeroPage(src: Register)        // Memory[Address.Lower] = src
    | StoreAbsolute(src: Register)        // Memory[Address.Whole] = src
    | StoreHighMasked(src: Register)      // Memory[Address.Whole] = src & (Address.Upper + 1)
    | RmwWriteBack(absolute: bool, f: RmwOp) // Memory[address] = Operand; Operand = f(Operand)
    | RmwWriteResult(absolute: bool)      // Memory[address] = Operand
    | ShiftAccumulator(f: RmwOp)          // _ = Memory[PC.Whole]; A = f(A)

  /** The one-byte implied instructions. */
  datatype ImpliedOp =
    | DummyReadPC                         // _ = Memory[PC.Whole]
    | SetFlag(flag: FlagBit, value: bool) // CLC, SEC, CLI, SEI, CLV, CLD, SED
    | IncrementRegister(reg: Register)    // INX, INY
    | DecrementRegister(reg: Register)    // DEX, DEY
    | Transfer(from: Register, to: Register) // TAX, TAY, TXA, TYA, TSX, TXS
    | Stop                                // STP: nothing but a log line
    | Idle                                // JSR_2: no operation

  /** Branches, jumps and the interrupt vectors. */
  datatype ControlOp =
    | BranchFetch(flag: FlagBit, taken: bool) // Operand = Memory[PC.Whole++]; end unless flag == taken
    | BranchAdd                           // PC.Lower += Operand; end unless the page was crossed
    | BranchFixPage                       // PC.Upper-- or PC.Upper++
    | IncrementPC                         // PC.Whole++
    | JumpAbsolute                        // (PC.Lower, PC.Upper) = (Address.Lower, Memory[PC.Whole])
    | JumpIndirect                        // PC = Memory[Address], high byte without carry
    | VectorLower(vector: Word)           // PC.Lower = Memory[vector]; P.Interrupt = true
    | VectorUpper(vector: Word)           // PC.Upper = Memory[vector]

  /** Pushes write at `0x0100 + S` and then decrement S; pulls read there. */
  datatype StackOp =
    | Push(pushed: PushSource)            // Memory[0x0100 + S--] = pushed
    | IncrementS                          // S++
    | PullStatus(postIncrement: bool)     // P.Byte = Memory[0x0100 + S] (S++ after, for RTI)
    | PullPCLower                         // PC.Lower = Memory[0x0100 + S++]
    | PullPCUpper                         // PC.Upper = Memory[0x0100 + S]
    | PullA                               // A = SetFlagsZN(Memory[0x0100 + S])

  /** One step of a row: CYCLE_0 (interrupt entry or opcode fetch) or a step of one of the groups above. */
  datatype MicroOp =
    | Cycle0
    | Addressing(address: AddressOp)
    | Reading(read: ReadingOp)
    | IndexedReading(indexed: IndexedOp)
    | Writing(write: WriteOp)
    | Implied(implied: ImpliedOp)
    | Control(control: ControlOp)
    | Stack(stack: StackOp)

  /** Records a read of `address`; the value read is `c.Memory[address]`. */
  function Touch(c: Cpu, address: Word): Cpu
  {
    c.(Trace := c.Trace + [ReadAt(address)])
  }

  /** A write through the memory interface. */
  function Store(c: Cpu, address: Word, value: Byte): Cpu
  {
    c.(Memory := c.Memory[address := value], Trace := c.Trace + [WriteAt(address, value)])
  }

  function IndexValue(c: Cpu, i: Index): Byte
  {
    if i == IndexX then c.X else c.Y
  }

  function RegisterValue(c: Cpu, r: Register): Byte
  {
    match r
    case RegA => c.A
    case RegX => c.X
    case RegY => c.Y
    case RegS => c.S
  }

  /**
   * Assigning a register as the transfers and increments do: the X and Y
   * setters always pass through `SetFlagsZN` (K6502/K6502.cs:11-12), the
   * assignments to A call it explicitly, and S is assigned without flags.
   */
  function Assign(c: Cpu, r: Register, v: Byte): (c': Cpu)
    ensures RegisterValue(c', r) == v
    ensures c' == c.(A := c'.A, X := c'.X, Y := c'.Y, S := c'.S, P := c'.P)
  {
    match r
    case RegA => c.(A := v, P := ZN(c.P, v))
    case RegX => c.(X := v, P := ZN(c.P, v))
    case RegY => c.(Y := v, P := ZN(c.P, v))
    case RegS => c.(S := v)
  }

  /** Uses a byte read from memory as `r` says (the ALU helpers are in `Alu`). */
  function Apply(c: Cpu, r: ReadOp, v: Byte): (c': Cpu)
    ensures c' == c.(A := c'.A, X := c'.X, Y := c'.Y, P := c'.P, Operand := c'.Operand)
  {
    match r
    case ORA => var a := Or(c.A, v); c.(A := a, P := ZN(c.P, a))
    case AND => var a := And(c.A, v); c.(A := a, P := ZN(c.P, a))
    case EOR => var a := Xor(c.A, v); c.(A := a, P := ZN(c.P, a))
    case ADC => var o := Adc(c.DecimalModeEnabled, c.A, v, c.P); c.(A := o.Value, P := o.Flags)
    case SBC => var o := Sbc(c.DecimalModeEnabled, c.A, v, c.P); c.(A := o.Value, P := o.Flags)
    case CMP => c.(P := Compare(c.P, c.A, v))
    case CPX => c.(P := Compare(c.P, c.X, v))
    case CPY => c.(P := Compare(c.P, c.Y, v))
    case LDA => c.(A := v, P := ZN(c.P, v))
    case LDX => c.(X := v, P := ZN(c.P, v))
    case LDY => c.(Y := v, P := ZN(c.P, v))
    case BIT => c.(P := c.P.(Overflow := BitSet(v, 6), Negative := BitSet(v, 7), Zero := And(v, c.A) == 0))
    case Discard => c
    case ToOperand => c.(Operand := v)
  }

  /** The result and flags of a read-modify-write operation on `v`. */
  function Modify(f: RmwOp, p: Flags, v: Byte): Outcome
  {
    match f
    case ASL => Asl(p, v)
    case ROL => Rol(p, v)
    case LSR => Lsr(p, v)
    case ROR => Ror(p, v)
    case INC => var r := ToByte(v + 1); Outcome(r, ZN(p, r))
    case DEC => var r := ToByte(v - 1); Outcome(r, ZN(p, r))
  }

  /**
   * `src & (Address.Upper + 1)`, the value SHY and SHX store: a carry out of
   * `Upper` is bit 8, which meets no bit of `src`.
   */
  function HighMasked(c: Cpu, src: Register): Byte
  {
    And(RegisterValue(c, src), ToByte(c.Address.Upper() + 1))
  }

  /** The address a zero-page (`absolute == false`) or absolute micro-op uses. */
  function Effective(c: Cpu, absolute: bool): Word
  {
    if absolute then c.Address.Whole else c.Address.Lower()
  }

  /** The stack cell S points at. */
  function StackTop(c: Cpu): Word
  {
    0x0100 + c.S
  }

  /** `Memory[0x0100 + S--] = v`. */
  function PushByte(c: Cpu, v: Byte): (r: Cpu)
    ensures OneCycle(c, r)
    ensures r.OpCode == c.OpCode
  {
    Store(c, StackTop(c), v).(S := ToByte(c.S - 1))
  }

  function PushValue(c: Cpu, src: PushSource): Byte
  {
    match src
    case PushPCUpper => c.PC.Upper()
    case PushPCLower => c.PC.Lower()
    case PushStatus => c.P.Byte()
    case PushStatusBreakClear => And(c.P.Byte(), 0xEF)
    case PushA => c.A
  }

  /** Reads `address` and uses the byte as `op` says. */
  function ReadUsing(c: Cpu, address: Word, op: ReadOp): (r: Cpu)
    ensures OneCycle(c, r)
    ensures r.OpCode == c.OpCode && r.Address == c.Address && r.PC == c.PC
  {
    Apply(Touch(c, address), op, c.Memory[address])
  }

  /**
   * Whether `Address.Lower += index` wrapped: the index then exceeds the new
   * low byte.
   */
  predicate Crossed(c: Cpu, i: Index)
  {
    IndexValue(c, i) > c.Address.Lower()
  }

  /** `Address.Upper++`, the page fix after a wrapped index addition. */
  function FixPage(c: Cpu): (r: Cpu)
    ensures OneCycle(c, r)
    ensures r.OpCode == c.OpCode
  {
    c.(Address := c.Address.WithUpper(ToByte(c.Address.Upper() + 1)))
  }

  /**
   * Fetching the branch offset into `Operand`, ending the instruction when the
   * flag does not have the value the branch is taken on
   * (K6502/K6502_Instructions.cs:303-308).
   */
  function BranchFetchStep(c: Cpu, flag: FlagBit, taken: bool): (r: Cpu)
    ensures OneCycle(c, r)
    ensures r.OpCode == c.OpCode
  {
    Touch(c, c.PC.Whole).(Operand := c.Memory[c.PC.Whole], PC := c.PC.Increment(),
                            instructionEnded := c.instructionEnded || c.P.Get(flag) != taken)
  }

  /**
   * `PC.Lower += Operand`, ending the instruction unless `PC.Lower` plus the
   * signed offset left the page (K6502/K6502_Instructions.cs:309-315).
   */
  function BranchAddStep(c: Cpu): (r: Cpu)
    ensures OneCycle(c, r)
    ensures r.OpCode == c.OpCode
  {
    var t := c.PC.Lower() + Signed(c.Operand);
    var c' := c.(PC := c.PC.AddToLower(c.Operand));
    if 0 <= t <= 255 then c'.(instructionEnded := true) else c'
  }

  /** The page fix after a crossing branch (K6502/K6502_Instructions.cs:316-322). */
  function BranchFixStep(c: Cpu): (r: Cpu)
    ensures OneCycle(c, r)
    ensures r.OpCode == c.OpCode
  {
    if c.PC.Lower() - c.Operand >= 0 then c.(PC := c.PC.WithUpper(ToByte(c.PC.Upper() - 1)))
    else c.(PC := c.PC.WithUpper(ToByte(c.PC.Upper() + 1)))
  }

  /**
   * What every micro-operation leaves alone: the cycle counter, the
   * configuration and the interrupt inputs. It can end its instruction but
   * never un-end it, it can clear a pending interrupt signal but never raise
   * one, and it makes at most one access through the memory interface,
   * appended to the trace.
   */
  predicate OneCycle(c: Cpu, r: Cpu)
  {
    && r.OpCodeCycle == c.OpCodeCycle && r.DecimalModeEnabled == c.DecimalModeEnabled
    && r.IRQLevelDetector == c.IRQLevelDetector && r.NMIEdgeDetector == c.NMIEdgeDetector
    && (c.instructionEnded ==> r.instructionEnded)
    && (r.IRQSignal ==> c.IRQSignal) && (r.NMISignal ==> c.NMISignal)
    && c.Trace <= r.Trace && |r.Trace| <= |c.Trace| + 1
  }

  /** The state after one micro-operation; only CYCLE_0 changes the opcode. */
  function Exec(c: Cpu, m: MicroOp): (r: Cpu)
    ensures OneCycle(c, r)
    ensures r.OpCode == c.OpCode || m.Cycle0?
    ensures m.Cycle0? ==> r.OpCode < 258
  {
    match m
    case Cycle0 => Cycle0Step(c)
    case Addressing(a) => AddressStep(c, a)
    case Reading(r) => ReadStep(c, r)
    case IndexedReading(x) => IndexedReadStep(c, x)
    case Writing(w) => WriteStep(c, w)
    case Implied(g) => RegisterStep(c, g)
    case Control(k) => ControlStep(c, k)
    case Stack(t) => StackStep(c, t)
  }

  /** CYCLE_0 (K6502/K6502_Instructions.cs:254-276). */
  function Cycle0Step(c: Cpu): (r: Cpu)
    ensures OneCycle(c, r) && r.OpCode < 258
  {
    var pc := c.PC.Whole;
    if c.NMISignal then Touch(c, pc).(OpCode := 257, NMISignal := false)
    else if c.IRQSignal && !c.P.Interrupt then Touch(c, pc).(OpCode := 256, IRQSignal := false)
    else FetchOpCode(c)
  }

  /** `OpCode = Memory[PC.Whole++]`. */
  function FetchOpCode(c: Cpu): (r: Cpu)
    ensures OneCycle(c, r) && r.OpCode < 256
  {
    Touch(c, c.PC.Whole).(OpCode := c.Memory[c.PC.Whole], PC := c.PC.Increment())
  }

  /** The address and pointer fetches of the addressing modes. */
  function AddressStep(c: Cpu, m: AddressOp): (r: Cpu)
    ensures OneCycle(c, r)
    ensures r.OpCode == c.OpCode
  {
    match m
    case FetchAddressLower =>
      Touch(c, c.PC.Whole).(Address := c.Address.WithLower(c.Memory[c.PC.Whole]), PC := c.PC.Increment())
    case FetchAddressUpper =>
      Touch(c, c.PC.Whole).(Address := c.Address.WithUpper(c.Memory[c.PC.Whole]), PC := c.PC.Increment())
    case FetchAddressUpperIndexed(i) =>
      Touch(c, c.PC.Whole).(Address := c.Address.WithUpper(c.Memory[c.PC.Whole]).AddToLower(IndexValue(c, i)), PC := c.PC.Increment())
    case IndexZeroPage(i) => c.(Address := c.Address.AddToLower(IndexValue(c, i)))
    case PointerAddX => Touch(c, c.Operand).(Operand := ToByte(c.Operand + c.X))
    case FetchPointerLower => Touch(c, c.Operand).(Address := c.Address.WithLower(c.Memory[c.Operand]))
    case FetchPointerUpper(addY) =>
      // `Memory[(Operand + 1) & 0xff]`: the pointer wraps within page zero
      var p := ToByte(c.Operand + 1);
      var address := c.Address.WithUpper(c.Memory[p]);
      Touch(c, p).(Address := if addY then address.AddToLower(c.Y) else address)
  }

  /** Reads that always use the byte: immediate (PC moves on), zero page and absolute. */
  function ReadStep(c: Cpu, m: ReadingOp): (r: Cpu)
    ensures OneCycle(c, r)
    ensures r.OpCode == c.OpCode
  {
    var address := match m
      case ReadImmediate(_) => c.PC.Whole
      case ReadZeroPage(_) => c.Address.Lower()
      case ReadAbsolute(_) => c.Address.Whole;
    ReadUsing(if m.ReadImmediate? then c.(PC := c.PC.Increment()) else c, address, m.op)
  }

  /**
   * The indexed reads after `Address.Lower += index`: the index exceeding the
   * new low byte means the addition wrapped, so `Upper` must be incremented.
   * `ReadIndexed` tests first and reads the wrong page only as a dummy read;
   * `ReadIndexedEager` (LDY abs,X, LDX abs,Y and NOP abs,X) uses the byte it
   * read and re-reads after the fix; `ReadFixingPage` (stores and
   * read-modify-write) never ends the instruction.
   */
  function IndexedReadStep(c: Cpu, m: IndexedOp): (r: Cpu)
    ensures OneCycle(c, r)
    ensures r.OpCode == c.OpCode
  {
    var used := ReadUsing(c, c.Address.Whole, m.op);
    match m
    case ReadIndexed(i, _) =>
      if Crossed(c, i) then FixPage(Touch(c, c.Address.Whole)) else used.(instructionEnded := true)
    case ReadIndexedEager(i, _) =>
      if Crossed(used, i) then FixPage(used) else used.(instructionEnded := true)
    case ReadFixingPage(i, _) =>
      if Crossed(used, i) then FixPage(used) else used
  }

  /** Stores, the two writes of read-modify-write, and the accumulator shifts. */
  function WriteStep(c: Cpu, m: WriteOp): (r: Cpu)
    ensures OneCycle(c, r)
    ensures r.OpCode == c.OpCode
  {
    match m
    case StoreZeroPage(src) => Store(c, c.Address.Lower(), RegisterValue(c, src))
    case StoreAbsolute(src) => Store(c, c.Address.Whole, RegisterValue(c, src))
    case StoreHighMasked(src) => Store(c, c.Address.Whole, HighMasked(c, src))
    case RmwWriteBack(absolute, f) =>
      var o := Modify(f, c.P, c.Operand);
      Store(c, Effective(c, absolute), c.Operand).(Operand := o.Value, P := o.Flags)
    case RmwWriteResult(absolute) => Store(c, Effective(c, absolute), c.Operand)
    case ShiftAccumulator(f) =>
      var o := Modify(f, c.P, c.A);
      Touch(c, c.PC.Whole).(A := o.Value, P := o.Flags)
  }

  /** The one-byte implied instructions. */
  function RegisterStep(c: Cpu, m: ImpliedOp): (r: Cpu)
    ensures OneCycle(c, r)
    ensures r.OpCode == c.OpCode
  {
    match m
    case DummyReadPC => Touch(c, c.PC.Whole)
    case SetFlag(flag, value) => c.(P := c.P.With(flag, value))
    case IncrementRegister(reg) => Assign(c, reg, ToByte(RegisterValue(c, reg) + 1))
    case DecrementRegister(reg) => Assign(c, reg, ToByte(RegisterValue(c, reg) - 1))
    case Transfer(from, to) => Assign(c, to, RegisterValue(c, from))
    case Stop => c
    case Idle => c
  }

  /** Branches, jumps, the RTS increment and the vector fetches. */
  function ControlStep(c: Cpu, m: ControlOp): (r: Cpu)
    ensures OneCycle(c, r)
    ensures r.OpCode == c.OpCode
  {
    match m
    case BranchFetch(flag, taken) => BranchFetchStep(c, flag, taken)
    case BranchAdd => BranchAddStep(c)
    case BranchFixPage => BranchFixStep(c)
    case IncrementPC => c.(PC := c.PC.Increment())
    case JumpAbsolute => Touch(c, c.PC.Whole).(PC := Halves(c.Address.Lower(), c.Memory[c.PC.Whole]))
    case JumpIndirect =>
      // `(Address.Whole & 0xff00) | ((Address.Lower + 1) & 0xff)`: no carry into the high byte
      var high := c.Address.AddToLower(1).Whole;
      Touch(c, high).(PC := Halves(c.Operand, c.Memory[high]))
    case VectorLower(v) => Touch(c, v).(PC := c.PC.WithLower(c.Memory[v]), P := c.P.(Interrupt := true))
    case VectorUpper(v) => Touch(c, v).(PC := c.PC.WithUpper(c.Memory[v]))
  }

  /** Pushes write at `0x0100 + S` and then decrement S; pulls read there (S incremented before). */
  function StackStep(c: Cpu, m: StackOp): (r: Cpu)
    ensures OneCycle(c, r)
    ensures r.OpCode == c.OpCode
  {
    match m
    case Push(pushed) => PushByte(c, PushValue(c, pushed))
    case IncrementS => c.(S := ToByte(c.S + 1))
    case PullStatus(post) => Touch(c, StackTop(c)).(P := FromByte(c.Memory[StackTop(c)]), S := if post then ToByte(c.S + 1) else c.S)
    case PullPCLower => Touch(c, StackTop(c)).(PC := c.PC.WithLower(c.Memory[StackTop(c)]), S := ToByte(c.S + 1))
    case PullPCUpper => Touch(c, StackTop(c)).(PC := c.PC.WithUpper(c.Memory[StackTop(c)]))
    case PullA => var v := c.Memory[StackTop(c)]; Touch(c, StackTop(c)).(A := v, P := ZN(c.P, v))
  }
}
