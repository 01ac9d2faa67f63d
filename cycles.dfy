/**
 * What one call of `Tick` does at each kind of step after CYCLE_0
 * (K6502/K6502_Instructions.cs), stated field by field: where the step
 * counter goes, the registers and memory the step writes, and what it leaves
 * alone. These lemmas unfold `Exec` one step at a time, so each one restates
 * its step's body; they are the building blocks that the whole-instruction
 * lemmas of `InstructionTiming` chain, not independent properties.
 */
module CycleSteps {
  import opened Bytes
  import opened Registers
  import opened Status
  import opened Alu
  import opened MicroOps
  import opened OpcodeTable
  import opened Ticks
  import opened CpuProperties

  /** The next call of `Tick` runs step `m` of the current row, after CYCLE_0. */
  predicate At(c: Cpu, m: MicroOp)
  {
    Valid(c) && 0 < c.OpCodeCycle && Table(c.OpCode)[c.OpCodeCycle] == m
  }

  /** Where the counter goes after a step that did not end the instruction. */
  function NextCycle(c: Cpu): nat
    requires Valid(c)
  {
    if c.OpCodeCycle == |Table(c.OpCode)| - 1 then 0 else c.OpCodeCycle + 1
  }

  /** `r` has the opcode, the byte registers and the flags of `c`. */
  predicate SameRegisters(c: Cpu, r: Cpu)
  {
    r.OpCode == c.OpCode && r.A == c.A && r.X == c.X && r.Y == c.Y && r.S == c.S && r.P == c.P
  }

  /**
   * `Tick` after CYCLE_0 runs the step, then goes back to step 0 if the step
   * ended the instruction or was the last of the row, and on to the next step
   * otherwise. Apart from the counter and the interrupt signals (the poll),
   * the state is the one the step left.
   */
  lemma StepTick(c: Cpu, m: MicroOp)
    requires At(c, m)
    ensures var r, e := TickSpec(c), Exec(c, m);
            && r.OpCodeCycle == (if e.instructionEnded then 0 else NextCycle(c))
            && SameRegisters(e, r) && r.PC == e.PC && r.Address == e.Address && r.Operand == e.Operand
            && r.Memory == e.Memory && r.Trace == e.Trace
  {
    hide Exec;
    PollsOnLastStep(c.OpCode, c.OpCodeCycle);
  }

  /** `Address.Lower = Memory[PC.Whole++]`. */
  lemma TickFetchAddressLower(c: Cpu)
    requires At(c, Addressing(FetchAddressLower))
    ensures var r := TickSpec(c);
            && r.OpCodeCycle == NextCycle(c) && SameRegisters(c, r) && r.Memory == c.Memory
            && r.Address == c.Address.WithLower(c.Memory[c.PC.Whole]) && r.PC == c.PC.Increment()
            && r.Operand == c.Operand
  {
    hide Table;
    hide And;
    hide Flags.Byte;
    hide TickSpec;
    assert Exec(c, Addressing(FetchAddressLower)) == AddressStep(c, FetchAddressLower);
    StepTick(c, Addressing(FetchAddressLower));
  }

  /** `Address.Upper = Memory[PC.Whole++]`. */
  lemma TickFetchAddressUpper(c: Cpu)
    requires At(c, Addressing(FetchAddressUpper))
    ensures var r := TickSpec(c);
            && r.OpCodeCycle == NextCycle(c) && SameRegisters(c, r) && r.Memory == c.Memory
            && r.Address == c.Address.WithUpper(c.Memory[c.PC.Whole]) && r.PC == c.PC.Increment()
            && r.Operand == c.Operand
  {
    hide Table;
    hide And;
    hide Flags.Byte;
    hide TickSpec;
    assert Exec(c, Addressing(FetchAddressUpper)) == AddressStep(c, FetchAddressUpper);
    StepTick(c, Addressing(FetchAddressUpper));
  }

  /** `Address.Upper = Memory[PC.Whole++]; Address.Lower += index`. */
  lemma TickFetchAddressUpperIndexed(c: Cpu, i: Index)
    requires At(c, Addressing(FetchAddressUpperIndexed(i)))
    ensures var r := TickSpec(c);
            && r.OpCodeCycle == NextCycle(c) && SameRegisters(c, r) && r.Memory == c.Memory
            && r.Address == c.Address.WithUpper(c.Memory[c.PC.Whole]).AddToLower(IndexValue(c, i))
            && r.PC == c.PC.Increment() && r.Operand == c.Operand
  {
    hide Table;
    hide And;
    hide Flags.Byte;
    hide TickSpec;
    assert Exec(c, Addressing(FetchAddressUpperIndexed(i))) == AddressStep(c, FetchAddressUpperIndexed(i));
    StepTick(c, Addressing(FetchAddressUpperIndexed(i)));
  }

  /** `Address.Lower += index`: the zero-page address wraps within page zero. */
  lemma TickIndexZeroPage(c: Cpu, i: Index)
    requires At(c, Addressing(IndexZeroPage(i)))
    ensures var r := TickSpec(c);
            && r.OpCodeCycle == NextCycle(c) && SameRegisters(c, r) && r.Memory == c.Memory
            && r.Address == c.Address.AddToLower(IndexValue(c, i)) && r.PC == c.PC && r.Operand == c.Operand
  {
    hide Table;
    hide And;
    hide Flags.Byte;
    hide TickSpec;
    assert Exec(c, Addressing(IndexZeroPage(i))) == AddressStep(c, IndexZeroPage(i));
    StepTick(c, Addressing(IndexZeroPage(i)));
  }

  /** `_ = Memory[Operand]; Operand += X`: the pointer wraps within page zero. */
  lemma TickPointerAddX(c: Cpu)
    requires At(c, Addressing(PointerAddX))
    ensures var r := TickSpec(c);
            && r.OpCodeCycle == NextCycle(c) && SameRegisters(c, r) && r.Memory == c.Memory
            && r.Operand == ToByte(c.Operand + c.X) && r.PC == c.PC && r.Address == c.Address
  {
    hide Table;
    hide And;
    hide Flags.Byte;
    hide TickSpec;
    assert Exec(c, Addressing(PointerAddX)) == AddressStep(c, PointerAddX);
    StepTick(c, Addressing(PointerAddX));
  }

  /** `Address.Lower = Memory[Operand]`. */
  lemma TickFetchPointerLower(c: Cpu)
    requires At(c, Addressing(FetchPointerLower))
    ensures var r := TickSpec(c);
            && r.OpCodeCycle == NextCycle(c) && SameRegisters(c, r) && r.Memory == c.Memory
            && r.Address == c.Address.WithLower(c.Memory[c.Operand]) && r.PC == c.PC && r.Operand == c.Operand
  {
    hide Table;
    hide And;
    hide Flags.Byte;
    hide TickSpec;
    assert Exec(c, Addressing(FetchPointerLower)) == AddressStep(c, FetchPointerLower);
    StepTick(c, Addressing(FetchPointerLower));
  }

  /**
   * `Address.Upper = Memory[(Operand + 1) & 0xff]`, then `Address.Lower += Y`
   * for (zp),Y: the high byte of the pointer comes from page zero.
   */
  lemma TickFetchPointerUpper(c: Cpu, addY: bool)
    requires At(c, Addressing(FetchPointerUpper(addY)))
    ensures var r, high := TickSpec(c), c.Address.WithUpper(c.Memory[ToByte(c.Operand + 1)]);
            && r.OpCodeCycle == NextCycle(c) && SameRegisters(c, r) && r.Memory == c.Memory
            && r.Address == (if addY then high.AddToLower(c.Y) else high) && r.PC == c.PC && r.Operand == c.Operand
  {
    hide Table;
    hide And;
    hide Flags.Byte;
    hide TickSpec;
    assert Exec(c, Addressing(FetchPointerUpper(addY))) == AddressStep(c, FetchPointerUpper(addY));
    StepTick(c, Addressing(FetchPointerUpper(addY)));
  }

  /** `Operand = Memory[PC.Whole++]`: the operand byte of (zp,X), (zp),Y and BRK's padding byte. */
  lemma TickReadImmediate(c: Cpu, op: ReadOp)
    requires At(c, Reading(ReadImmediate(op))) && (op == ToOperand || op == Discard)
    ensures var r := TickSpec(c);
            && r.OpCodeCycle == NextCycle(c) && SameRegisters(c, r) && r.Memory == c.Memory
            && r.Operand == (if op == ToOperand then c.Memory[c.PC.Whole] else c.Operand)
            && r.PC == c.PC.Increment() && r.Address == c.Address
  {
    hide Table;
    hide And;
    hide Flags.Byte;
    hide TickSpec;
    assert Exec(c, Reading(ReadImmediate(op))) == ReadStep(c, ReadImmediate(op));
    StepTick(c, Reading(ReadImmediate(op)));
  }

  /** `Operand = Memory[address]` at the zero-page or absolute address. */
  lemma TickReadToOperand(c: Cpu, m: ReadingOp)
    requires At(c, Reading(m)) && m.op == ToOperand && !m.ReadImmediate?
    ensures var r := TickSpec(c);
            && r.OpCodeCycle == NextCycle(c) && SameRegisters(c, r) && r.Memory == c.Memory
            && r.Operand == c.Memory[if m.ReadZeroPage? then c.Address.Lower() else c.Address.Whole]
            && r.PC == c.PC && r.Address == c.Address
  {
    hide Table;
    hide And;
    hide Flags.Byte;
    hide TickSpec;
    assert Exec(c, Reading(m)) == ReadStep(c, m);
    StepTick(c, Reading(m));
  }

  /** `A = SetFlagsZN(Memory[address])` at the zero-page or absolute address. */
  lemma TickLoadA(c: Cpu, m: ReadingOp)
    requires At(c, Reading(m)) && m.op == LDA && !m.ReadImmediate?
    ensures var r, v := TickSpec(c), c.Memory[if m.ReadZeroPage? then c.Address.Lower() else c.Address.Whole];
            && r.OpCodeCycle == NextCycle(c) && r.OpCode == c.OpCode && r.Memory == c.Memory
            && r.A == v && r.P == ZN(c.P, v) && r.X == c.X && r.Y == c.Y && r.S == c.S
            && r.PC == c.PC && r.Address == c.Address
  {
    hide Table;
    hide And;
    hide Flags.Byte;
    hide TickSpec;
    assert Exec(c, Reading(m)) == ReadStep(c, m);
    StepTick(c, Reading(m));
  }

  /**
   * LDA's indexed read without a page cross: A is loaded from the indexed
   * address and the instruction ends.
   */
  lemma TickLoadAIndexed(c: Cpu, i: Index)
    requires At(c, IndexedReading(ReadIndexed(i, LDA))) && !Crossed(c, i)
    ensures var r, v := TickSpec(c), c.Memory[c.Address.Whole];
            && r.OpCodeCycle == 0 && r.OpCode == c.OpCode && r.Memory == c.Memory
            && r.A == v && r.P == ZN(c.P, v) && r.X == c.X && r.Y == c.Y && r.S == c.S && r.PC == c.PC
  {
    hide Table;
    hide And;
    hide Flags.Byte;
    hide TickSpec;
    assert Exec(c, IndexedReading(ReadIndexed(i, LDA))) == IndexedReadStep(c, ReadIndexed(i, LDA));
    StepTick(c, IndexedReading(ReadIndexed(i, LDA)));
  }

  /**
   * An indexed read after a page cross: a dummy read of the unfixed address,
   * `Address.Upper++`, and the instruction goes on.
   */
  lemma TickFixPage(c: Cpu, i: Index, op: ReadOp)
    requires At(c, IndexedReading(ReadIndexed(i, op))) && Crossed(c, i)
    ensures var r := TickSpec(c);
            && r.OpCodeCycle == NextCycle(c) && SameRegisters(c, r) && r.Memory == c.Memory
            && r.Address == c.Address.WithUpper(ToByte(c.Address.Upper() + 1)) && r.PC == c.PC
  {
    hide Table;
    hide And;
    hide Flags.Byte;
    hide TickSpec;
    assert Exec(c, IndexedReading(ReadIndexed(i, op))) == IndexedReadStep(c, ReadIndexed(i, op));
    StepTick(c, IndexedReading(ReadIndexed(i, op)));
  }

  /**
   * The first write of read-modify-write: the unmodified byte is written
   * back, and the operation is applied to `Operand` and the flags.
   */
  lemma TickRmwWriteBack(c: Cpu, absolute: bool, f: RmwOp)
    requires At(c, Writing(RmwWriteBack(absolute, f)))
    ensures var r, a := TickSpec(c), Effective(c, absolute);
            && r.OpCodeCycle == NextCycle(c) && r.OpCode == c.OpCode
            && r.Memory == c.Memory[a := c.Operand] && r.Trace == c.Trace + [WriteAt(a, c.Operand)]
            && r.Operand == Modify(f, c.P, c.Operand).Value && r.P == Modify(f, c.P, c.Operand).Flags
            && r.A == c.A && r.X == c.X && r.Y == c.Y && r.S == c.S && r.PC == c.PC && r.Address == c.Address
  {
    hide Table;
    hide And;
    hide Flags.Byte;
    hide TickSpec;
    assert Exec(c, Writing(RmwWriteBack(absolute, f))) == WriteStep(c, RmwWriteBack(absolute, f));
    StepTick(c, Writing(RmwWriteBack(absolute, f)));
  }

  /** The second write of read-modify-write: the result goes to the same address. */
  lemma TickRmwWriteResult(c: Cpu, absolute: bool)
    requires At(c, Writing(RmwWriteResult(absolute)))
    ensures var r, a := TickSpec(c), Effective(c, absolute);
            && r.OpCodeCycle == NextCycle(c) && SameRegisters(c, r)
            && r.Memory == c.Memory[a := c.Operand] && r.Trace == c.Trace + [WriteAt(a, c.Operand)]
            && r.PC == c.PC && r.Address == c.Address
  {
    hide Table;
    hide And;
    hide Flags.Byte;
    hide TickSpec;
    assert Exec(c, Writing(RmwWriteResult(absolute))) == WriteStep(c, RmwWriteResult(absolute));
    StepTick(c, Writing(RmwWriteResult(absolute)));
  }

  /** `_ = Memory[PC.Whole]` and JSR's idle step change nothing but the trace. */
  lemma TickNoEffect(c: Cpu, g: ImpliedOp)
    requires At(c, Implied(g)) && (g == DummyReadPC || g == Idle)
    ensures var r := TickSpec(c);
            && r.OpCodeCycle == NextCycle(c) && SameRegisters(c, r) && r.Memory == c.Memory
            && r.PC == c.PC && r.Address == c.Address && r.Operand == c.Operand
  {
    hide Table;
    hide And;
    hide Flags.Byte;
    hide TickSpec;
    assert Exec(c, Implied(g)) == RegisterStep(c, g);
    StepTick(c, Implied(g));
  }

  /** `Memory[0x0100 + S--] = v`. */
  lemma TickPush(c: Cpu, src: PushSource)
    requires At(c, Stack(Push(src)))
    ensures var r := TickSpec(c);
            && r.OpCodeCycle == NextCycle(c) && r.OpCode == c.OpCode
            && r.Memory == c.Memory[StackTop(c) := PushValue(c, src)] && r.S == ToByte(c.S - 1)
            && r.A == c.A && r.X == c.X && r.Y == c.Y && r.P == c.P
            && r.PC == c.PC && r.Address == c.Address && r.Operand == c.Operand
  {
    hide Table;
    hide And;
    hide Flags.Byte;
    hide TickSpec;
    assert Exec(c, Stack(Push(src))) == StackStep(c, Push(src));
    StepTick(c, Stack(Push(src)));
  }

  /** `S++`, the step before a pull. */
  lemma TickIncrementS(c: Cpu)
    requires At(c, Stack(IncrementS))
    ensures var r := TickSpec(c);
            && r.OpCodeCycle == NextCycle(c) && r.OpCode == c.OpCode && r.Memory == c.Memory
            && r.S == ToByte(c.S + 1) && r.A == c.A && r.X == c.X && r.Y == c.Y && r.P == c.P
            && r.PC == c.PC && r.Address == c.Address && r.Operand == c.Operand
  {
    hide Table;
    hide And;
    hide Flags.Byte;
    hide TickSpec;
    assert Exec(c, Stack(IncrementS)) == StackStep(c, IncrementS);
    StepTick(c, Stack(IncrementS));
  }

  /** `A = Memory[0x0100 + S]` with Z and N. */
  lemma TickPullA(c: Cpu)
    requires At(c, Stack(PullA))
    ensures var r, v := TickSpec(c), c.Memory[StackTop(c)];
            && r.OpCodeCycle == NextCycle(c) && r.OpCode == c.OpCode && r.Memory == c.Memory
            && r.A == v && r.P == ZN(c.P, v) && r.X == c.X && r.Y == c.Y && r.S == c.S && r.PC == c.PC
  {
    hide Table;
    hide And;
    hide Flags.Byte;
    hide TickSpec;
    assert Exec(c, Stack(PullA)) == StackStep(c, PullA);
    StepTick(c, Stack(PullA));
  }

  /** `PC.Lower = Memory[0x0100 + S++]`. */
  lemma TickPullPCLower(c: Cpu)
    requires At(c, Stack(PullPCLower))
    ensures var r := TickSpec(c);
            && r.OpCodeCycle == NextCycle(c) && r.OpCode == c.OpCode && r.Memory == c.Memory
            && r.PC == c.PC.WithLower(c.Memory[StackTop(c)]) && r.S == ToByte(c.S + 1)
            && r.A == c.A && r.X == c.X && r.Y == c.Y && r.P == c.P
  {
    hide Table;
    hide And;
    hide Flags.Byte;
    hide TickSpec;
    assert Exec(c, Stack(PullPCLower)) == StackStep(c, PullPCLower);
    StepTick(c, Stack(PullPCLower));
  }

  /** `PC.Upper = Memory[0x0100 + S]`. */
  lemma TickPullPCUpper(c: Cpu)
    requires At(c, Stack(PullPCUpper))
    ensures var r := TickSpec(c);
            && r.OpCodeCycle == NextCycle(c) && SameRegisters(c, r) && r.Memory == c.Memory
            && r.PC == c.PC.WithUpper(c.Memory[StackTop(c)])
  {
    hide Table;
    hide And;
    hide Flags.Byte;
    hide TickSpec;
    assert Exec(c, Stack(PullPCUpper)) == StackStep(c, PullPCUpper);
    StepTick(c, Stack(PullPCUpper));
  }

  /** `PC.Whole++`, RTS's last step. */
  lemma TickIncrementPC(c: Cpu)
    requires At(c, Control(IncrementPC))
    ensures var r := TickSpec(c);
            && r.OpCodeCycle == NextCycle(c) && SameRegisters(c, r) && r.Memory == c.Memory
            && r.PC == c.PC.Increment()
  {
    hide Table;
    hide And;
    hide Flags.Byte;
    hide TickSpec;
    assert Exec(c, Control(IncrementPC)) == ControlStep(c, IncrementPC);
    StepTick(c, Control(IncrementPC));
  }

  /** JSR's and JMP abs's last step: PC takes the fetched low byte and the byte at PC. */
  lemma TickJumpAbsolute(c: Cpu)
    requires At(c, Control(JumpAbsolute))
    ensures var r := TickSpec(c);
            && r.OpCodeCycle == NextCycle(c) && SameRegisters(c, r) && r.Memory == c.Memory
            && r.PC == Halves(c.Address.Lower(), c.Memory[c.PC.Whole])
  {
    hide Table;
    hide And;
    hide Flags.Byte;
    hide TickSpec;
    assert Exec(c, Control(JumpAbsolute)) == ControlStep(c, JumpAbsolute);
    StepTick(c, Control(JumpAbsolute));
  }

  /** JMP (ind)'s last step: the high byte is read without a carry into the pointer's page. */
  lemma TickJumpIndirect(c: Cpu)
    requires At(c, Control(JumpIndirect))
    ensures var r := TickSpec(c);
            && r.OpCodeCycle == NextCycle(c) && SameRegisters(c, r) && r.Memory == c.Memory
            && r.PC == Halves(c.Operand, c.Memory[c.Address.AddToLower(1).Whole])
  {
    hide Table;
    hide And;
    hide Flags.Byte;
    hide TickSpec;
    assert Exec(c, Control(JumpIndirect)) == ControlStep(c, JumpIndirect);
    StepTick(c, Control(JumpIndirect));
  }

  /** `PC.Lower = Memory[vector]; P.Interrupt = true`. */
  lemma TickVectorLower(c: Cpu, v: Word)
    requires At(c, Control(VectorLower(v)))
    ensures var r := TickSpec(c);
            && r.OpCodeCycle == NextCycle(c) && r.OpCode == c.OpCode && r.Memory == c.Memory
            && r.PC == c.PC.WithLower(c.Memory[v]) && r.P == c.P.(Interrupt := true)
            && r.A == c.A && r.X == c.X && r.Y == c.Y && r.S == c.S
  {
    hide Table;
    hide And;
    hide Flags.Byte;
    hide TickSpec;
    assert Exec(c, Control(VectorLower(v))) == ControlStep(c, VectorLower(v));
    StepTick(c, Control(VectorLower(v)));
  }

  /** `PC.Upper = Memory[vector]`. */
  lemma TickVectorUpper(c: Cpu, v: Word)
    requires At(c, Control(VectorUpper(v)))
    ensures var r := TickSpec(c);
            && r.OpCodeCycle == NextCycle(c) && SameRegisters(c, r) && r.Memory == c.Memory
            && r.PC == c.PC.WithUpper(c.Memory[v])
  {
    hide Table;
    hide And;
    hide Flags.Byte;
    hide TickSpec;
    assert Exec(c, Control(VectorUpper(v))) == Touch(c, v).(PC := c.PC.WithUpper(c.Memory[v]));
    StepTick(c, Control(VectorUpper(v)));
  }

  /**
   * A branch's first step: the offset is fetched, and the instruction ends
   * there exactly when the flag does not have the value the branch is taken on.
   */
  lemma TickBranchFetch(c: Cpu, flag: FlagBit, taken: bool)
    requires At(c, Control(BranchFetch(flag, taken)))
    ensures var r := TickSpec(c);
            && r.OpCodeCycle == (if c.P.Get(flag) != taken then 0 else NextCycle(c))
            && SameRegisters(c, r) && r.Memory == c.Memory
            && r.Operand == c.Memory[c.PC.Whole] && r.PC == c.PC.Increment()
  {
    hide Table;
    hide And;
    hide Flags.Byte;
    hide TickSpec;
    assert Exec(c, Control(BranchFetch(flag, taken))) == BranchFetchStep(c, flag, taken);
    StepTick(c, Control(BranchFetch(flag, taken)));
  }

  /**
   * A taken branch adds the offset to the low byte of PC, and ends unless the
   * signed offset took the low byte off the page.
   */
  lemma TickBranchAdd(c: Cpu)
    requires At(c, Control(BranchAdd))
    ensures var r := TickSpec(c);
            && r.OpCodeCycle == (if 0 <= c.PC.Lower() + Signed(c.Operand) <= 255 then 0 else NextCycle(c))
            && SameRegisters(c, r) && r.Memory == c.Memory
            && r.Operand == c.Operand && r.PC == c.PC.AddToLower(c.Operand)
  {
    hide Table;
    hide And;
    hide Flags.Byte;
    hide TickSpec;
    assert Exec(c, Control(BranchAdd)) == BranchAddStep(c);
    StepTick(c, Control(BranchAdd));
  }

  /** A page-crossing branch moves PC's high byte one page down or up. */
  lemma TickBranchFixPage(c: Cpu)
    requires At(c, Control(BranchFixPage))
    ensures var r := TickSpec(c);
            && r.OpCodeCycle == NextCycle(c) && SameRegisters(c, r) && r.Memory == c.Memory
            && r.PC == (if c.PC.Lower() - c.Operand >= 0 then c.PC.WithUpper(ToByte(c.PC.Upper() - 1))
                        else c.PC.WithUpper(ToByte(c.PC.Upper() + 1)))
  {
    hide Table;
    hide And;
    hide Flags.Byte;
    hide TickSpec;
    assert Exec(c, Control(BranchFixPage)) == BranchFixStep(c);
    StepTick(c, Control(BranchFixPage));
  }

  /** No interrupt is requested or pending on either input. */
  predicate Quiet(c: Cpu)
  {
    !c.NMISignal && !c.NMIEdgeDetector && !c.IRQSignal && !c.IRQLevelDetector
  }

  /** With both inputs quiet, no poll raises a signal. */
  lemma TickKeepsQuiet(c: Cpu)
    requires Valid(c) && Quiet(c)
    ensures Quiet(TickSpec(c))
  {
    TableShape(c.OpCode);
  }

  /**
   * CYCLE_0 with no interrupt to take: the opcode is fetched from PC, PC
   * moves on, and the counter goes to step 1.
   */
  lemma TickFetchOpCode(c: Cpu)
    requires Valid(c) && c.OpCodeCycle == 0 && !c.NMISignal && !(c.IRQSignal && !c.P.Interrupt)
    ensures var r := TickSpec(c);
            && r.OpCode == c.Memory[c.PC.Whole] && r.OpCodeCycle == 1 && r.PC == c.PC.Increment()
            && r.A == c.A && r.X == c.X && r.Y == c.Y && r.S == c.S && r.P == c.P
            && r.Memory == c.Memory && r.Address == c.Address && r.Operand == c.Operand
  {
    TableShape(c.OpCode);
    assert Exec(c, Cycle0) == FetchOpCode(c);
    TableShape(c.Memory[c.PC.Whole]);
    PollsOnLastStep(c.Memory[c.PC.Whole], 0);
  }
}
