/**
 * One call of `Tick` (K6502/K6502.cs:61-90) as a function of the CPU state,
 * and the state the constructor leaves (K6502/K6502.cs:10-59).
 */
module Ticks {
  import opened Bytes
  import opened Registers
  import opened Status
  import opened MicroOps
  import opened OpcodeTable

  /**
   * Every slot of the table is filled: each row starts with CYCLE_0, holds no
   * other CYCLE_0, and has between 2 and 7 steps; the x3/x7/xB/xF column is the
   * two-step NOP and the interrupt rows have 7 steps.
   */
  lemma TableShape(op: nat)
    requires op < 258
    ensures 2 <= |Table(op)| <= 7 && Table(op)[0] == Cycle0
    ensures forall i :: 0 < i < |Table(op)| ==> !Table(op)[i].Cycle0?
    ensures op < 256 && op % 4 == 3 ==> Table(op) == FillerRow
    ensures op >= 256 ==> |Table(op)| == 7
  {
    var t := Table(op);
    assert Cycle0 !in t[1..];
  }

  /**
   * The states `Tick` keeps: a known opcode, a step inside its row, and no
   * pending "instruction ended" (`Tick` clears it whenever it is set).
   */
  predicate Valid(c: Cpu)
  {
    c.OpCode < 258 && c.OpCodeCycle < |Table(c.OpCode)| && !c.instructionEnded
  }

  /**
   * Whether `Tick` samples the interrupt inputs after running step `cycle`
   * of `opCode`: never during an interrupt sequence, otherwise only on the
   * last step of the row (step 1 of a two-step row).
   */
  predicate Polls(opCode: nat, cycle: nat)
    requires opCode < 258
  {
    var t := |Table(opCode)|;
    opCode <= 255 && ((t == 2 && cycle == 1) || (t > 2 && cycle == t - 1))
  }

  /** The interrupt poll: IRQ follows the level input, NMI latches the edge input. */
  function Poll(c: Cpu): Cpu
  {
    c.(IRQSignal := c.IRQLevelDetector, NMISignal := c.NMISignal || c.NMIEdgeDetector)
  }

  /**
   * The second half of `Tick`, after the step ran: poll if this was a polling
   * step of the (possibly just fetched) opcode; then go back to step 0 after
   * the last step or when the step ended the instruction, else go on to the
   * next step.
   */
  function EndCycle(c: Cpu): (r: Cpu)
    requires c.OpCode < 258 && c.OpCodeCycle < |Table(c.OpCode)|
    ensures Valid(r)
  {
    var t := |Table(c.OpCode)|;
    var c' := if Polls(c.OpCode, c.OpCodeCycle) then Poll(c) else c;
    if c'.OpCodeCycle == t - 1 || c'.instructionEnded then c'.(OpCodeCycle := 0, instructionEnded := false)
    else c'.(OpCodeCycle := c'.OpCodeCycle + 1)
  }

  /** `Tick`: run the current step of the current row, then `EndCycle`. */
  function TickSpec(c: Cpu): (r: Cpu)
    requires Valid(c)
    ensures Valid(r)
  {
    TableShape(c.OpCode);
    var c1 := Exec(c, Table(c.OpCode)[c.OpCodeCycle]);
    TableShape(c1.OpCode);
    EndCycle(c1)
  }

  /**
   * The state after the constructor: registers at their initialisers, P built
   * from 0b0011_0100, PC = 0xFFFC, and the CPU in step 1 of JMP abs (0x4C), so
   * that the first two ticks load PC from 0xFFFC/0xFFFD.
   */
  function PowerUp(memory: Ram, enableDecimalMode: bool): (c: Cpu)
    ensures Valid(c) && c.Trace == []
  {
    Cpu(0, 0, 0, 0xFD, FromByte(0x34), DoubleRegister(0xFFFC), DoubleRegister(0), 0,
        0x4C, 1, false, false, false, false, false, enableDecimalMode, memory, [])
  }
}
