/**
 * The CPU object (K6502/K6502.cs, K6502/K6502_Instructions.cs): its fields,
 * the constructor, `Tick`, the interrupt inputs, the flag helpers and the
 * per-cycle instruction bodies. Each method is proved to change the fields
 * exactly as the pure model says: `Step` as `Exec`, `Tick` as `TickSpec`.
 */
module Processor {
  import opened Bytes
  import opened Registers
  import opened Status
  import opened Alu
  import opened MicroOps
  import opened OpcodeTable
  import Ticks

  /**
   * `InitInstructions`: the listed rows first, then the fill loop over the
   * x3/x7/xB/xF column, then the two interrupt rows.
   */
  method InitInstructions(instructions: array<seq<MicroOp>>)
    requires instructions.Length == 258
    modifies instructions
    ensures forall op :: 0 <= op < 258 ==> instructions[op] == Table(op)
  {
    for op := 0 to 256
      invariant forall k :: 0 <= k < op && k % 4 != 3 ==> instructions[k] == Table(k)
    {
      if op % 4 != 3 {
        instructions[op] := Table(op);
      }
    }
    var i := 3;
    while i <= 0xFF
      invariant 3 <= i <= 0x103 && i % 4 == 3
      invariant forall k :: 0 <= k < 256 && (k % 4 != 3 || k < i) ==> instructions[k] == Table(k)
    {
      instructions[i] := FillerRow;
      i := i + 4;
    }
    instructions[IrqOpCode] := Table(IrqOpCode);
    instructions[NmiOpCode] := Table(NmiOpCode);
  }

  /**
   * The emulated CPU. The per-cycle methods come in pairs with the pure
   * model: each `XCycle` method refines `MicroOps.XStep` (`AddressCycle` and
   * `AddressStep`, `ReadCycle` and `ReadStep`, ...), and its ensures
   * `State() == XStep(old(State()), m)` is the link between the two.
   */
  class K6502 {
    var A: Byte
    var X: Byte
    var Y: Byte
    var Address: DoubleRegister
    var PC: DoubleRegister
    const P: StatusRegister
    var S: Byte
    const Instructions: array<seq<MicroOp>>
    var Memory: Ram
    var Trace: seq<Access>
    var Operand: Byte
    var OpCodeCycle: nat
    var OpCode: nat
    var instructionEnded: bool
    var IRQLevelDetector: bool
    var IRQSignal: bool
    var NMIEdgeDetector: bool
    var NMISignal: bool
    const DecimalModeEnabled: bool

    /** The fields as a value of the pure model. */
    function State(): Cpu
      reads this, P
    {
      Cpu(A, X, Y, S, P.View(), PC, Address, Operand, OpCode, OpCodeCycle, instructionEnded,
          IRQLevelDetector, IRQSignal, NMIEdgeDetector, NMISignal, DecimalModeEnabled, Memory, Trace)
    }

    /** The table is the one `InitInstructions` builds, and the state is one `Tick` keeps. */
    predicate Valid()
      reads this, P, Instructions
    {
      && Instructions.Length == 258
      && (forall op :: 0 <= op < 258 ==> Instructions[op] == Table(op))
      && Ticks.Valid(State())
    }

    /**
     * `new K6502(addressableComponent, enableDecimalMode)` with the field
     * initialisers; the memory is the 64 KiB the component presents.
     */
    constructor(memory: Ram, enableDecimalMode: bool)
      ensures Valid() && State() == Ticks.PowerUp(memory, enableDecimalMode)
    {
      A, X, Y := 0, 0, 0;
      PC := DoubleRegister(0xFFFC);
      Address := DoubleRegister(0);
      P := new StatusRegister(0x34);
      S := 0xFD;
      Instructions := new seq<MicroOp>[258](_ => []);
      Memory := memory;
      Trace := [];
      Operand := 0;
      OpCodeCycle := 1;
      OpCode := 0x4C;
      instructionEnded := false;
      IRQLevelDetector, IRQSignal, NMIEdgeDetector, NMISignal := false, false, false, false;
      DecimalModeEnabled := enableDecimalMode;
      new;
      InitInstructions(Instructions);
    }

    /** One clock cycle: run the current step of the current row, then `FinishCycle`. */
    method Tick()
      requires Valid()
      modifies this, P
      ensures Valid() && State() == Ticks.TickSpec(old(State()))
    {
      Ticks.TableShape(OpCode);
      Step(Instructions[OpCode][OpCodeCycle]);
      Ticks.TableShape(OpCode);
      FinishCycle();
    }

    /**
     * The rest of `Tick`: poll the interrupt inputs on a polling step, then
     * restart the step counter after the last step or an ended instruction,
     * else advance it.
     */
    method FinishCycle()
      requires Instructions.Length == 258 && (forall op :: 0 <= op < 258 ==> Instructions[op] == Table(op))
      requires OpCode < 258 && OpCodeCycle < |Table(OpCode)|
      modifies this`IRQSignal, this`NMISignal, this`OpCodeCycle, this`instructionEnded
      ensures State() == Ticks.EndCycle(old(State()))
    {
      if Ticks.Polls(OpCode, OpCodeCycle) {
        PollInputs();
      }
      if OpCodeCycle == |Instructions[OpCode]| - 1 || instructionEnded {
        OpCodeCycle := 0;
        instructionEnded := false;
      } else {
        OpCodeCycle := OpCodeCycle + 1;
      }
    }

    /** The interrupt poll: IRQ follows the level input, NMI latches the edge input. */
    method PollInputs()
      modifies this`IRQSignal, this`NMISignal
      ensures State() == Ticks.Poll(old(State()))
    {
      IRQSignal := IRQLevelDetector;
      if NMIEdgeDetector {
        NMISignal := true;
      }
    }

    /** `SetIRQ`: raise the IRQ level input. */
    method SetIRQ()
      requires Valid()
      modifies this`IRQLevelDetector
      ensures Valid() && State() == old(State()).(IRQLevelDetector := true)
    {
      IRQLevelDetector := true;
    }

    /** `ClearIRQ`: lower the IRQ level input. */
    method ClearIRQ()
      requires Valid()
      modifies this`IRQLevelDetector
      ensures Valid() && State() == old(State()).(IRQLevelDetector := false)
    {
      IRQLevelDetector := false;
    }

    /** `SetNMI`: record an NMI edge (nothing ever clears it). */
    method SetNMI()
      requires Valid()
      modifies this`NMIEdgeDetector
      ensures Valid() && State() == old(State()).(NMIEdgeDetector := true)
    {
      NMIEdgeDetector := true;
    }

    /** `EndInstruction`: the next `Tick` restarts the step counter. */
    method EndInstruction()
      modifies this`instructionEnded
      ensures State() == old(State()).(instructionEnded := true)
    {
      instructionEnded := true;
    }

    /** `_ = Memory[address]`: a read whose value is not used. */
    method DummyRead(address: Word)
      modifies this`Trace
      ensures Trace == old(Trace) + [ReadAt(address)]
    {
      Trace := Trace + [ReadAt(address)];
    }

    /** The memory getter. */
    method ReadMemory(address: Word) returns (v: Byte)
      modifies this`Trace
      ensures v == Memory[address] && Trace == old(Trace) + [ReadAt(address)]
    {
      v := Memory[address];
      Trace := Trace + [ReadAt(address)];
    }

    /** The memory setter. */
    method WriteMemory(address: Word, value: Byte)
      modifies this`Memory, this`Trace
      ensures Memory == old(Memory)[address := value] && Trace == old(Trace) + [WriteAt(address, value)]
    {
      Memory := Memory[address := value];
      Trace := Trace + [WriteAt(address, value)];
    }

    /** `SetFlagsZN(val)`: Zero and Negative from `val`, which is returned unchanged. */
    method SetFlagsZN(val: Byte) returns (r: Byte)
      modifies P
      ensures r == val && P.View() == ZN(old(P.View()), val)
    {
      P.Zero := val == 0;
      P.Negative := And(val, 0x80) != 0;
      SignBit(val);
      r := val;
    }

    /** The A, X and Y assignments that pass through `SetFlagsZN`, and S without it. */
    method AssignRegister(reg: Register, v: Byte)
      modifies this`A, this`X, this`Y, this`S, P
      ensures State() == Assign(old(State()), reg, v)
    {
      match reg
      case RegA => A := SetFlagsZN(v);
      case RegX => X := SetFlagsZN(v);
      case RegY => Y := SetFlagsZN(v);
      case RegS => S := v;
    }

    /** `DoCompare(reg, val)`. */
    method DoCompare(reg: Byte, val: Byte)
      modifies P
      ensures P.View() == Compare(old(P.View()), reg, val)
    {
      P.Carry := reg >= val;
      var _ := SetFlagsZN(ToByte(reg - val));
    }

    /** Copies the flags an ALU outcome changes into P. */
    method SetArithmeticFlags(f: Flags)
      modifies P
      ensures P.View() == old(P.View()).(Carry := f.Carry, Zero := f.Zero, Overflow := f.Overflow, Negative := f.Negative)
    {
      P.Carry := f.Carry;
      P.Zero := f.Zero;
      P.Overflow := f.Overflow;
      P.Negative := f.Negative;
    }

    /** `DoADC(val)`: decimal only when enabled and D is set. */
    method DoADC(val: Byte)
      modifies this`A, P
      ensures var o := Adc(DecimalModeEnabled, old(A), val, old(P.View())); A == o.Value && P.View() == o.Flags
    {
      var o := Adc(DecimalModeEnabled, A, val, P.View());
      SetArithmeticFlags(o.Flags);
      A := o.Value;
    }

    /** `DoSBC(val)`. */
    method DoSBC(val: Byte)
      modifies this`A, P
      ensures var o := Sbc(DecimalModeEnabled, old(A), val, old(P.View())); A == o.Value && P.View() == o.Flags
    {
      var o := Sbc(DecimalModeEnabled, A, val, P.View());
      SetArithmeticFlags(o.Flags);
      A := o.Value;
    }

    /** `DoASL`, `DoROL`, `DoLSR`, `DoROR`, and the INC/DEC arithmetic. */
    method DoModify(f: RmwOp, val: Byte) returns (r: Byte)
      modifies P
      ensures var o := Modify(f, old(P.View()), val); r == o.Value && P.View() == o.Flags
    {
      match f
      case ASL =>
        var t := val * 2;
        P.Carry := t >= 0x100;
        r := SetFlagsZN(ToByte(t));
      case ROL =>
        var t := val * 2 + (if P.Carry then 1 else 0);
        P.Carry := t >= 0x100;
        r := SetFlagsZN(ToByte(t));
      case LSR =>
        P.Carry := val % 2 == 1;
        r := SetFlagsZN(val / 2);
      case ROR =>
        var t := val / 2 + (if P.Carry then 0x80 else 0);
        P.Carry := val % 2 == 1;
        r := SetFlagsZN(t);
      case INC => r := SetFlagsZN(ToByte(val + 1));
      case DEC => r := SetFlagsZN(ToByte(val - 1));
    }

    /** The byte-using steps of ORA, AND, EOR, ADC and SBC. */
    method UseAccumulator(op: ReadOp, v: Byte)
      requires op.ORA? || op.AND? || op.EOR? || op.ADC? || op.SBC?
      modifies this`A, P
      ensures State() == Apply(old(State()), op, v)
    {
      match op
      case ORA => A := SetFlagsZN(Or(A, v));
      case AND => A := SetFlagsZN(And(A, v));
      case EOR => A := SetFlagsZN(Xor(A, v));
      case ADC => DoADC(v);
      case SBC => DoSBC(v);
    }

    /** The byte-using steps of the compares. */
    method UseCompare(op: ReadOp, v: Byte)
      requires op.CMP? || op.CPX? || op.CPY?
      modifies P
      ensures State() == Apply(old(State()), op, v)
    {
      match op
      case CMP => DoCompare(A, v);
      case CPX => DoCompare(X, v);
      case CPY => DoCompare(Y, v);
    }

    /** The byte-using steps of the loads. */
    method UseLoad(op: ReadOp, v: Byte)
      requires op.LDA? || op.LDX? || op.LDY?
      modifies this`A, this`X, this`Y, P
      ensures State() == Apply(old(State()), op, v)
    {
      var loaded := SetFlagsZN(v);
      match op
      case LDA => A := loaded;
      case LDX => X := loaded;
      case LDY => Y := loaded;
    }

    /** BIT, a discarded read, and a read into Operand. */
    method UseOther(op: ReadOp, v: Byte)
      requires op.BIT? || op.Discard? || op.ToOperand?
      modifies this`Operand, P
      ensures State() == Apply(old(State()), op, v)
    {
      match op
      case BIT =>
        P.Overflow := BitSet(v, 6);
        P.Negative := BitSet(v, 7);
        P.Zero := And(v, A) == 0;
      case Discard =>
      case ToOperand => Operand := v;
    }

    /** Uses a byte read from memory as the instruction says. */
    method Use(op: ReadOp, v: Byte)
      modifies this`A, this`X, this`Y, this`Operand, P
      ensures State() == Apply(old(State()), op, v)
    {
      match op
      case ORA | AND | EOR | ADC | SBC => UseAccumulator(op, v);
      case CMP | CPX | CPY => UseCompare(op, v);
      case LDA | LDX | LDY => UseLoad(op, v);
      case BIT | Discard | ToOperand => UseOther(op, v);
    }

    /** Runs one step of a row: the body of the source's per-cycle method. */
    method Step(m: MicroOp)
      modifies this, P
      ensures State() == Exec(old(State()), m)
    {
      match m
      case Cycle0 => Cycle0();
      case Addressing(a) => AddressCycle(a);
      case Reading(r) => ReadCycle(r);
      case IndexedReading(x) => IndexedReadCycle(x);
      case Writing(w) => WriteCycle(w);
      case Implied(g) => RegisterCycle(g);
      case Control(k) => ControlCycle(k);
      case Stack(t) => StackCycle(t);
    }

    /** The address and pointer fetches. */
    method AddressCycle(m: AddressOp)
      modifies this, P
      ensures State() == AddressStep(old(State()), m)
    {
      match m
      case FetchAddressLower => FetchAddressLowerCycle();
      case FetchAddressUpper => FetchAddressUpperCycle();
      case FetchAddressUpperIndexed(i) => FetchAddressUpperIndexedCycle(i);
      case IndexZeroPage(i) => IndexZeroPageCycle(i);
      case PointerAddX => PointerAddXCycle();
      case FetchPointerLower => FetchPointerLowerCycle();
      case FetchPointerUpper(addY) => FetchPointerUpperCycle(addY);
    }

    /** The immediate, zero-page and absolute reads. */
    method ReadCycle(m: ReadingOp)
      modifies this, P
      ensures State() == ReadStep(old(State()), m)
    {
      match m
      case ReadImmediate(op) => ReadImmediateCycle(op);
      case ReadZeroPage(op) => ReadZeroPageCycle(op);
      case ReadAbsolute(op) => ReadAbsoluteCycle(op);
    }

    /** The indexed reads. */
    method IndexedReadCycle(m: IndexedOp)
      modifies this, P
      ensures State() == IndexedReadStep(old(State()), m)
    {
      match m
      case ReadIndexed(i, op) => ReadIndexedCycle(i, op);
      case ReadIndexedEager(i, op) => ReadIndexedEagerCycle(i, op);
      case ReadFixingPage(i, op) => ReadFixingPageCycle(i, op);
    }

    /** The stores, the read-modify-write writes and the accumulator shifts. */
    method WriteCycle(m: WriteOp)
      modifies this, P
      ensures State() == WriteStep(old(State()), m)
    {
      match m
      case StoreZeroPage(src) => StoreZeroPageCycle(src);
      case StoreAbsolute(src) => StoreAbsoluteCycle(src);
      case StoreHighMasked(src) => StoreHighMaskedCycle(src);
      case RmwWriteBack(absolute, f) => RmwWriteBackCycle(absolute, f);
      case RmwWriteResult(absolute) => RmwWriteResultCycle(absolute);
      case ShiftAccumulator(f) => ShiftAccumulatorCycle(f);
    }

    /** The one-byte implied instructions. */
    method RegisterCycle(m: ImpliedOp)
      modifies this, P
      ensures State() == RegisterStep(old(State()), m)
    {
      match m
      case DummyReadPC => DummyReadPCCycle();
      case SetFlag(flag, value) => SetFlagCycle(flag, value);
      case IncrementRegister(reg) => IncrementRegisterCycle(reg);
      case DecrementRegister(reg) => DecrementRegisterCycle(reg);
      case Transfer(from, to) => TransferCycle(from, to);
      case Stop => StopCycle();
      case Idle => IdleCycle();
    }

    /** Branches, jumps, the RTS increment and the vector fetches. */
    method ControlCycle(m: ControlOp)
      modifies this, P
      ensures State() == ControlStep(old(State()), m)
    {
      match m
      case BranchFetch(flag, taken) => BranchFetchCycle(flag, taken);
      case BranchAdd => BranchAddCycle();
      case BranchFixPage => BranchFixPageCycle();
      case IncrementPC => IncrementPCCycle();
      case JumpAbsolute => JumpAbsoluteCycle();
      case JumpIndirect => JumpIndirectCycle();
      case VectorLower(vector) => VectorLowerCycle(vector);
      case VectorUpper(vector) => VectorUpperCycle(vector);
    }

    /** Pushes and pulls. */
    method StackCycle(m: StackOp)
      modifies this, P
      ensures State() == StackStep(old(State()), m)
    {
      match m
      case Push(pushed) => PushCycle(pushed);
      case IncrementS => IncrementSCycle();
      case PullStatus(post) => if post { PullStatusIncrementCycle(); } else { PullStatusCycle(); }
      case PullPCLower => PullPCLowerCycle();
      case PullPCUpper => PullPCUpperCycle();
      case PullA => PullACycle();
    }

    /** `CYCLE_0`: enter NMI, else IRQ unless masked, else fetch the opcode. */
    method Cycle0()
      modifies this`OpCode, this`PC, this`NMISignal, this`IRQSignal, this`Trace
      ensures State() == Cycle0Step(old(State()))
    {
      if NMISignal {
        DummyRead(PC.Whole);
        OpCode := NmiOpCode;
        NMISignal := false;
      } else if IRQSignal && !P.Interrupt {
        DummyRead(PC.Whole);
        OpCode := IrqOpCode;
        IRQSignal := false;
      } else {
        FetchOpCodeCycle();
      }
    }

    /** `OpCode = Memory[PC.Whole++]`. */
    method FetchOpCodeCycle()
      modifies this`OpCode, this`PC, this`Trace
      ensures State() == FetchOpCode(old(State()))
    {
      OpCode := ReadMemory(PC.Whole);
      PC := PC.Increment();
    }

    /** `Address.Lower = Memory[PC.Whole++]` (`abs_1`, `d_1`, ...). */
    method FetchAddressLowerCycle()
      modifies this`Address, this`PC, this`Trace
      ensures State() == AddressStep(old(State()), FetchAddressLower)
    {
      var v := ReadMemory(PC.Whole);
      Address := Address.WithLower(v);
      PC := PC.Increment();
    }

    /** `Address.Upper = Memory[PC.Whole++]` (`abs_2`). */
    method FetchAddressUpperCycle()
      modifies this`Address, this`PC, this`Trace
      ensures State() == AddressStep(old(State()), FetchAddressUpper)
    {
      var v := ReadMemory(PC.Whole);
      Address := Address.WithUpper(v);
      PC := PC.Increment();
    }

    /** `ax_2`/`ay_2`: the high byte, then `Address.Lower += index`. */
    method FetchAddressUpperIndexedCycle(i: Index)
      modifies this`Address, this`PC, this`Trace
      ensures State() == AddressStep(old(State()), FetchAddressUpperIndexed(i))
    {
      var v := ReadMemory(PC.Whole);
      Address := Address.WithUpper(v);
      PC := PC.Increment();
      Address := Address.AddToLower(if i == IndexX then X else Y);
    }

    /** `zx_2`/`zy_2`: `Address.Lower += index`, wrapping within page zero. */
    method IndexZeroPageCycle(i: Index)
      modifies this`Address
      ensures State() == AddressStep(old(State()), IndexZeroPage(i))
    {
      Address := Address.AddToLower(if i == IndexX then X else Y);
    }

    /** `xi_2`: a dummy read of the pointer, then `Operand += X`. */
    method PointerAddXCycle()
      modifies this`Operand, this`Trace
      ensures State() == AddressStep(old(State()), PointerAddX)
    {
      DummyRead(Operand);
      Operand := ToByte(Operand + X);
    }

    /** `Address.Lower = Memory[Operand]`. */
    method FetchPointerLowerCycle()
      modifies this`Address, this`Trace
      ensures State() == AddressStep(old(State()), FetchPointerLower)
    {
      var v := ReadMemory(Operand);
      Address := Address.WithLower(v);
    }

    /** `Address.Upper = Memory[(Operand + 1) & 0xff]`, then `Address.Lower += Y` for `(zp),Y`. */
    method FetchPointerUpperCycle(addY: bool)
      modifies this`Address, this`Trace
      ensures State() == AddressStep(old(State()), FetchPointerUpper(addY))
    {
      var v := ReadMemory(ToByte(Operand + 1));
      Address := Address.WithUpper(v);
      if addY {
        Address := Address.AddToLower(Y);
      }
    }

    /** `op(Memory[PC.Whole++])`. */
    method ReadImmediateCycle(op: ReadOp)
      modifies this`A, this`X, this`Y, this`Operand, this`PC, this`Trace, P
      ensures State() == ReadStep(old(State()), ReadImmediate(op))
    {
      ghost var c := State();
      var v := ReadMemory(PC.Whole);
      PC := PC.Increment();
      assert State() == Touch(c, c.PC.Whole).(PC := c.PC.Increment());
      Use(op, v);
    }

    /** `op(Memory[Address.Lower])`. */
    method ReadZeroPageCycle(op: ReadOp)
      modifies this`A, this`X, this`Y, this`Operand, this`Trace, P
      ensures State() == ReadStep(old(State()), ReadZeroPage(op))
    {
      ReadUsingCycle(Address.Lower(), op);
    }

    /** `op(Memory[Address.Whole])`. */
    method ReadAbsoluteCycle(op: ReadOp)
      modifies this`A, this`X, this`Y, this`Operand, this`Trace, P
      ensures State() == ReadStep(old(State()), ReadAbsolute(op))
    {
      ReadUsingCycle(Address.Whole, op);
    }

    /** `op(Memory[address])`: the read, and the use of the byte. */
    method ReadUsingCycle(address: Word, op: ReadOp)
      modifies this`A, this`X, this`Y, this`Operand, this`Trace, P
      ensures State() == ReadUsing(old(State()), address, op)
    {
      hide Apply;
      var v := ReadMemory(address);
      Use(op, v);
    }

    /** `Address.Upper++`. */
    method FixPageCycle()
      modifies this`Address
      ensures State() == FixPage(old(State()))
    {
      Address := Address.WithUpper(ToByte(Address.Upper() + 1));
    }

    /** `ax_3`: on a page cross a dummy read and `Address.Upper++`; else the read, and the instruction ends. */
    method ReadIndexedCycle(i: Index, op: ReadOp)
      modifies this`A, this`X, this`Y, this`Operand, this`Address, this`instructionEnded, this`Trace, P
      ensures State() == IndexedReadStep(old(State()), ReadIndexed(i, op))
    {
      if (if i == IndexX then X else Y) > Address.Lower() {
        DummyRead(Address.Whole);
        FixPageCycle();
      } else {
        ReadUsingCycle(Address.Whole, op);
        EndInstruction();
      }
    }

    /** `LDY_ax_3`, `LDX_ay_3`, `NOP_ax_3`: the read first, then the page test. */
    method ReadIndexedEagerCycle(i: Index, op: ReadOp)
      modifies this`A, this`X, this`Y, this`Operand, this`Address, this`instructionEnded, this`Trace, P
      ensures State() == IndexedReadStep(old(State()), ReadIndexedEager(i, op))
    {
      ReadUsingCycle(Address.Whole, op);
      if (if i == IndexX then X else Y) > Address.Lower() {
        FixPageCycle();
      } else {
        EndInstruction();
      }
    }

    /** The third step of the indexed stores and read-modify-writes: read, then fix the page. */
    method ReadFixingPageCycle(i: Index, op: ReadOp)
      modifies this`A, this`X, this`Y, this`Operand, this`Address, this`Trace, P
      ensures State() == IndexedReadStep(old(State()), ReadFixingPage(i, op))
    {
      ReadUsingCycle(Address.Whole, op);
      if (if i == IndexX then X else Y) > Address.Lower() {
        FixPageCycle();
      }
    }

    /** `Memory[Address.Lower] = src`. */
    method StoreZeroPageCycle(src: Register)
      modifies this`Memory, this`Trace
      ensures State() == WriteStep(old(State()), StoreZeroPage(src))
    {
      WriteMemory(Address.Lower(), RegisterValue(State(), src));
    }

    /** `Memory[Address.Whole] = src`. */
    method StoreAbsoluteCycle(src: Register)
      modifies this`Memory, this`Trace
      ensures State() == WriteStep(old(State()), StoreAbsolute(src))
    {
      WriteMemory(Address.Whole, RegisterValue(State(), src));
    }

    /** `SHY_ax_4`/`SHX_ay_4`: `Memory[Address.Whole] = src & (Address.Upper + 1)`. */
    method StoreHighMaskedCycle(src: Register)
      modifies this`Memory, this`Trace
      ensures State() == WriteStep(old(State()), StoreHighMasked(src))
    {
      WriteMemory(Address.Whole, HighMasked(State(), src));
    }

    /** The first write of a read-modify-write: the old byte goes back, then the operation runs. */
    method RmwWriteBackCycle(absolute: bool, f: RmwOp)
      modifies this`Operand, this`Memory, this`Trace, P
      ensures State() == WriteStep(old(State()), RmwWriteBack(absolute, f))
    {
      RmwWriteResultCycle(absolute);
      Operand := DoModify(f, Operand);
    }

    /** The second write of a read-modify-write: the result. */
    method RmwWriteResultCycle(absolute: bool)
      modifies this`Memory, this`Trace
      ensures State() == WriteStep(old(State()), RmwWriteResult(absolute))
    {
      WriteMemory(if absolute then Address.Whole else Address.Lower(), Operand);
    }

    /** ASL A, ROL A, LSR A, ROR A: a dummy read at PC, then the shift of A. */
    method ShiftAccumulatorCycle(f: RmwOp)
      modifies this`A, this`Trace, P
      ensures State() == WriteStep(old(State()), ShiftAccumulator(f))
    {
      DummyRead(PC.Whole);
      A := DoModify(f, A);
    }

    /** `_ = Memory[PC.Whole]`. */
    method DummyReadPCCycle()
      modifies this`Trace
      ensures State() == RegisterStep(old(State()), DummyReadPC)
    {
      DummyRead(PC.Whole);
    }

    /** CLC, SEC, CLI, SEI, CLV, CLD, SED. */
    method SetFlagCycle(flag: FlagBit, value: bool)
      modifies P
      ensures State() == RegisterStep(old(State()), SetFlag(flag, value))
    {
      P.Set(flag, value);
    }

    /** INX, INY. */
    method IncrementRegisterCycle(reg: Register)
      modifies this`A, this`X, this`Y, this`S, P
      ensures State() == RegisterStep(old(State()), IncrementRegister(reg))
    {
      AssignRegister(reg, ToByte(RegisterValue(State(), reg) + 1));
    }

    /** DEX, DEY. */
    method DecrementRegisterCycle(reg: Register)
      modifies this`A, this`X, this`Y, this`S, P
      ensures State() == RegisterStep(old(State()), DecrementRegister(reg))
    {
      AssignRegister(reg, ToByte(RegisterValue(State(), reg) - 1));
    }

    /** TAX, TAY, TXA, TYA, TSX, TXS. */
    method TransferCycle(from: Register, to: Register)
      modifies this`A, this`X, this`Y, this`S, P
      ensures State() == RegisterStep(old(State()), Transfer(from, to))
    {
      AssignRegister(to, RegisterValue(State(), from));
    }

    /** STP: the source only logs a line. */
    method StopCycle()
      ensures State() == RegisterStep(old(State()), Stop)
    {
    }

    /** `JSR_2`: nothing. */
    method IdleCycle()
      ensures State() == RegisterStep(old(State()), Idle)
    {
    }

    /** A branch's first step: the offset into Operand; the instruction ends unless the branch is taken. */
    method BranchFetchCycle(flag: FlagBit, taken: bool)
      modifies this`Operand, this`PC, this`instructionEnded, this`Trace
      ensures State() == BranchFetchStep(old(State()), flag, taken)
    {
      var notTaken := P.View().Get(flag) != taken;
      Operand := ReadMemory(PC.Whole);
      PC := PC.Increment();
      if notTaken {
        EndInstruction();
      }
    }

    /** `PC.Lower += Operand`; the instruction ends unless the signed offset left the page. */
    method BranchAddCycle()
      modifies this`PC, this`instructionEnded
      ensures State() == ControlStep(old(State()), BranchAdd)
    {
      var t := PC.Lower() + Signed(Operand);
      PC := PC.AddToLower(Operand);
      if 0 <= t <= 255 {
        EndInstruction();
      }
    }

    /** The page fix of a taken branch that crossed a page. */
    method BranchFixPageCycle()
      modifies this`PC
      ensures State() == ControlStep(old(State()), BranchFixPage)
    {
      if PC.Lower() - Operand >= 0 {
        PC := PC.WithUpper(ToByte(PC.Upper() - 1));
      } else {
        PC := PC.WithUpper(ToByte(PC.Upper() + 1));
      }
    }

    /** `RTS_5`: `PC.Whole++`. */
    method IncrementPCCycle()
      modifies this`PC
      ensures State() == ControlStep(old(State()), IncrementPC)
    {
      PC := PC.Increment();
    }

    /** The last step of JMP abs and JSR: PC from `Address.Lower` and the byte at PC. */
    method JumpAbsoluteCycle()
      modifies this`PC, this`Trace
      ensures State() == ControlStep(old(State()), JumpAbsolute)
    {
      var v := ReadMemory(PC.Whole);
      PC := Halves(Address.Lower(), v);
    }

    /** `JMP_i_4`: the high byte comes from the pointer's low byte plus one, without carry. */
    method JumpIndirectCycle()
      modifies this`PC, this`Trace
      ensures State() == ControlStep(old(State()), JumpIndirect)
    {
      var v := ReadMemory(Address.AddToLower(1).Whole);
      PC := Halves(Operand, v);
    }

    /** The low vector byte, and the interrupt-disable flag. */
    method VectorLowerCycle(vector: Word)
      modifies this`PC, this`Trace, P
      ensures State() == ControlStep(old(State()), VectorLower(vector))
    {
      var v := ReadMemory(vector);
      PC := PC.WithLower(v);
      P.Interrupt := true;
    }

    /** The high vector byte. */
    method VectorUpperCycle(vector: Word)
      modifies this`PC, this`Trace
      ensures State() == ControlStep(old(State()), VectorUpper(vector))
    {
      var v := ReadMemory(vector);
      PC := PC.WithUpper(v);
    }

    /** `Memory[0x0100 + S--] = value`. */
    method PushCycle(pushed: PushSource)
      modifies this`S, this`Memory, this`Trace
      ensures State() == StackStep(old(State()), Push(pushed))
    {
      PushByteCycle(PushValue(State(), pushed));
    }

    /** `Memory[0x0100 + S--] = v`. */
    method PushByteCycle(v: Byte)
      modifies this`S, this`Memory, this`Trace
      ensures State() == PushByte(old(State()), v)
    {
      WriteMemory(0x0100 + S, v);
      S := ToByte(S - 1);
    }

    /** `S++` before a pull. */
    method IncrementSCycle()
      modifies this`S
      ensures State() == StackStep(old(State()), IncrementS)
    {
      S := ToByte(S + 1);
    }

    /** `P.Byte = Memory[0x0100 + S]`. */
    method PullStatusByte()
      modifies this`Trace, P
      ensures State() == Touch(old(State()), StackTop(old(State()))).(P := FromByte(old(State()).Memory[StackTop(old(State()))]))
    {
      var v := ReadMemory(0x0100 + S);
      P.SetByte(v);
    }

    /** `PLP_3`: `P.Byte = Memory[0x0100 + S]`. */
    method PullStatusCycle()
      modifies this`Trace, P
      ensures State() == StackStep(old(State()), PullStatus(false))
    {
      PullStatusByte();
    }

    /** `RTI_3`: `P.Byte = Memory[0x0100 + S++]`. */
    method PullStatusIncrementCycle()
      modifies this`S, this`Trace, P
      ensures State() == StackStep(old(State()), PullStatus(true))
    {
      PullStatusByte();
      S := ToByte(S + 1);
    }

    /** `PC.Lower = Memory[0x0100 + S++]`. */
    method PullPCLowerCycle()
      modifies this`S, this`PC, this`Trace
      ensures State() == StackStep(old(State()), PullPCLower)
    {
      var v := ReadMemory(0x0100 + S);
      PC := PC.WithLower(v);
      S := ToByte(S + 1);
    }

    /** `PC.Upper = Memory[0x0100 + S]`. */
    method PullPCUpperCycle()
      modifies this`PC, this`Trace
      ensures State() == StackStep(old(State()), PullPCUpper)
    {
      var v := ReadMemory(0x0100 + S);
      PC := PC.WithUpper(v);
    }

    /** `A = SetFlagsZN(Memory[0x0100 + S])`. */
    method PullACycle()
      modifies this`A, this`Trace, P
      ensures State() == StackStep(old(State()), PullA)
    {
      var v := ReadMemory(0x0100 + S);
      A := SetFlagsZN(v);
    }
  }
}
