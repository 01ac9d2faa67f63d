/**
 * What calls of `Tick` do: `Run` (n calls), the step counter, where the
 * inputs are polled, CYCLE_0 and its priority of NMI over IRQ over the next
 * opcode, power-up, the page-crossing arithmetic of indexed addressing, and
 * the three shapes of a `Tick` after CYCLE_0. Whole instructions, cycle by
 * cycle, are in `InstructionTiming`.
 */
module CpuProperties {
  import opened Bytes
  import opened Registers
  import opened Status
  import opened Alu
  import opened MicroOps
  import opened OpcodeTable
  import opened Ticks

  /**
   * `n` calls of `Tick`. Every call makes at most one access through the
   * memory interface and only appends to the trace.
   */
  function Run(c: Cpu, n: nat): (r: Cpu)
    requires Valid(c)
    ensures Valid(r)
    ensures c.Trace <= r.Trace && |r.Trace| <= |c.Trace| + n
    decreases n
  {
    if n == 0 then c else TickSpec(Run(c, n - 1))
  }

  /**
   * The step counter either moves to the next step or goes back to 0;
   * CYCLE_0 always goes on to step 1, and the last step of a row always
   * goes back to 0.
   */
  lemma TickCounter(c: Cpu)
    requires Valid(c)
    ensures TickSpec(c).OpCodeCycle == 0 || TickSpec(c).OpCodeCycle == c.OpCodeCycle + 1
    ensures c.OpCodeCycle == 0 ==> TickSpec(c).OpCodeCycle == 1
    ensures 0 < c.OpCodeCycle == |Table(c.OpCode)| - 1 ==> TickSpec(c).OpCodeCycle == 0
  {
    TableShape(c.OpCode);
    var c1 := Exec(c, Table(c.OpCode)[c.OpCodeCycle]);
    TableShape(c1.OpCode);
  }

  /**
   * The poll condition of `Tick`, with its separate case for two-step rows,
   * is "the last step of a row that is not an interrupt sequence".
   */
  lemma PollsOnLastStep(opCode: nat, cycle: nat)
    requires opCode < 258
    ensures Polls(opCode, cycle) <==> opCode <= 255 && cycle == |Table(opCode)| - 1
  {
    TableShape(opCode);
  }

  /**
   * At a poll IRQSignal is re-sampled from the level input and NMISignal is
   * set by the edge input; the poll never clears NMISignal, and away from a
   * poll neither signal changes.
   */
  lemma EndCycleSignals(c: Cpu)
    requires c.OpCode < 258 && c.OpCodeCycle < |Table(c.OpCode)|
    ensures EndCycle(c).IRQSignal == if Polls(c.OpCode, c.OpCodeCycle) then c.IRQLevelDetector else c.IRQSignal
    ensures c.NMISignal ==> EndCycle(c).NMISignal
    ensures EndCycle(c).NMISignal ==> c.NMISignal || (Polls(c.OpCode, c.OpCodeCycle) && c.NMIEdgeDetector)
    ensures EndCycle(c).NMIEdgeDetector == c.NMIEdgeDetector
  {
  }

  /**
   * CYCLE_0: a pending NMI wins over an IRQ, and an IRQ is taken only with
   * the interrupt-disable flag clear; otherwise the opcode is fetched from PC.
   */
  lemma Cycle0Priority(c: Cpu)
    ensures Cycle0Step(c).OpCode == NmiOpCode <==> c.NMISignal
    ensures Cycle0Step(c).OpCode == IrqOpCode <==> !c.NMISignal && c.IRQSignal && !c.P.Interrupt
    ensures Cycle0Step(c).OpCode < 256 <==> !c.NMISignal && !(c.IRQSignal && !c.P.Interrupt)
  {
    if !c.NMISignal && !(c.IRQSignal && !c.P.Interrupt) {
      assert Cycle0Step(c) == FetchOpCode(c);
    }
  }

  /**
   * CYCLE_0 always reads at PC. Taking an interrupt leaves PC where it is and
   * clears that signal; fetching an opcode moves PC on by one.
   */
  lemma Cycle0Effects(c: Cpu)
    ensures Cycle0Step(c).Trace == c.Trace + [ReadAt(c.PC.Whole)]
    ensures Cycle0Step(c).OpCode == NmiOpCode ==> Cycle0Step(c).PC == c.PC && !Cycle0Step(c).NMISignal
    ensures Cycle0Step(c).OpCode == IrqOpCode ==> Cycle0Step(c).PC == c.PC && !Cycle0Step(c).IRQSignal
    ensures Cycle0Step(c).OpCode < 256 ==>
              && Cycle0Step(c).OpCode == c.Memory[c.PC.Whole]
              && Cycle0Step(c).PC.Whole == (c.PC.Whole + 1) % 0x1_0000
  {
    if !c.NMISignal && !(c.IRQSignal && !c.P.Interrupt) {
      assert Cycle0Step(c) == FetchOpCode(c);
    }
  }

  /** JMP abs, the row the CPU powers up in. */
  lemma RowJmpAbsolute()
    ensures Table(0x4C) == [Cycle0, Addressing(FetchAddressLower), Control(JumpAbsolute)]
  {
  }

  /**
   * After power-up the first two ticks finish the JMP abs the CPU starts in:
   * PC is loaded from the reset vector at 0xFFFC/0xFFFD, and the next tick
   * fetches an opcode there.
   */
  lemma PowerUpLoadsResetVector(memory: Ram, enableDecimalMode: bool)
    ensures Run(PowerUp(memory, enableDecimalMode), 2).PC.Whole == memory[0xFFFD] as int * 0x100 + memory[0xFFFC]
    ensures Run(PowerUp(memory, enableDecimalMode), 2).OpCodeCycle == 0
    ensures Run(PowerUp(memory, enableDecimalMode), 2).Trace == [ReadAt(0xFFFC), ReadAt(0xFFFD)]
  {
    hide FromByte;
    hide And;
    hide Flags.Byte;
    var c0 := PowerUp(memory, enableDecimalMode);
    RowJmpAbsolute();
    hide Table;
    var c1 := TickSpec(c0);
    assert c1.PC == DoubleRegister(0xFFFD) && c1.Address.Lower() == memory[0xFFFC];
    assert Run(c0, 2) == TickSpec(c1);
  }

  /**
   * The page-cross test of the indexed modes: after `Lower += index`, the
   * index exceeds the new low byte exactly when the addition carried.
   */
  lemma CrossedIffCarry(lower: Byte, index: Byte)
    ensures index > ToByte(lower + index) <==> lower + index > 255
  {
  }

  /** A low-byte addition that carries: the high byte taking the carry gives the 16-bit sum. */
  lemma CarryIntoUpper(upper: Byte, lower: Byte, index: Byte)
    requires lower + index > 255
    ensures ToByte(lower + index) == lower + index - 0x100
    ensures ToByte(upper + 1) * 0x100 + ToByte(lower + index) == (upper * 0x100 + lower + index) % 0x1_0000
  {
    if upper == 255 {
      assert ToByte(upper + 1) == 0;
    } else {
      assert ToByte(upper + 1) == upper + 1;
    }
  }

  /** A low-byte addition that does not carry already is the 16-bit sum. */
  lemma NoCarryIntoUpper(upper: Byte, lower: Byte, index: Byte)
    requires lower + index <= 255
    ensures ToByte(lower + index) == lower + index
    ensures upper * 0x100 + lower + index == (upper * 0x100 + lower + index) % 0x1_0000
  {
  }

  /**
   * Adding the index to the low byte and then incrementing the high byte on a
   * page cross gives the 16-bit sum, wrapping at 0x10000.
   */
  lemma IndexedAddress(base: DoubleRegister, index: Byte)
    ensures var a := base.AddToLower(index);
            (if index > a.Lower() then a.WithUpper(ToByte(a.Upper() + 1)) else a).Whole == (base.Whole + index) % 0x1_0000
  {
    CrossedIffCarry(base.Lower(), index);
    if base.Lower() + index > 255 {
      CarryIntoUpper(base.Upper(), base.Lower(), index);
    } else {
      NoCarryIntoUpper(base.Upper(), base.Lower(), index);
    }
  }

  /**
   * `Tick` at a step after CYCLE_0 that is not the last of its row and does
   * not end the instruction: the step runs, nothing is polled, and the
   * counter moves on.
   */
  lemma MiddleTick(c: Cpu, m: MicroOp)
    requires Valid(c) && 0 < c.OpCodeCycle < |Table(c.OpCode)| - 1 && Table(c.OpCode)[c.OpCodeCycle] == m
    requires !Exec(c, m).instructionEnded
    ensures TickSpec(c) == Exec(c, m).(OpCodeCycle := c.OpCodeCycle + 1)
  {
    hide Exec;
    hide And;
    hide Flags.Byte;
    PollsOnLastStep(c.OpCode, c.OpCodeCycle);
  }

  /**
   * `Tick` at a step before the last that ends the instruction: the step
   * runs, nothing is polled, and the counter goes back to CYCLE_0.
   */
  lemma EndingTick(c: Cpu, m: MicroOp)
    requires Valid(c) && 0 < c.OpCodeCycle < |Table(c.OpCode)| - 1 && Table(c.OpCode)[c.OpCodeCycle] == m
    requires Exec(c, m).instructionEnded
    ensures TickSpec(c) == Exec(c, m).(OpCodeCycle := 0, instructionEnded := false)
  {
    hide Exec;
    hide And;
    hide Flags.Byte;
    PollsOnLastStep(c.OpCode, c.OpCodeCycle);
  }

  /**
   * `Tick` at the last step of a row: the step runs, the inputs are polled
   * unless this is an interrupt sequence, and the counter goes back to
   * CYCLE_0.
   */
  lemma LastTick(c: Cpu, m: MicroOp)
    requires Valid(c) && 0 < c.OpCodeCycle == |Table(c.OpCode)| - 1 && Table(c.OpCode)[c.OpCodeCycle] == m
    ensures TickSpec(c) == (if c.OpCode <= 255 then Poll(Exec(c, m)) else Exec(c, m)).(OpCodeCycle := 0, instructionEnded := false)
  {
    hide Exec;
    hide And;
    hide Flags.Byte;
    PollsOnLastStep(c.OpCode, c.OpCodeCycle);
  }
}
