/**
 * Whole instructions, tick by tick: how many calls of `Tick` an opcode takes
 * after CYCLE_0 fetched it, and what it leaves in the registers and memory
 * (K6502/K6502_Instructions.cs). Each lemma starts at step 1 of the opcode's
 * row, with the CPU as CYCLE_0 left it (PC just past the opcode), and is
 * stated on `Run`, the state after that many calls of `Tick`.
 *
 * The proofs chain the one-step lemmas of `CycleSteps`; they hide the bodies
 * of `TickSpec`, `Table` and `Exec`, which the chained facts make unnecessary.
 */
module InstructionTiming {
  import opened Bytes
  import opened Registers
  import opened Status
  import opened MicroOps
  import opened OpcodeTable
  import opened Ticks
  import opened CpuProperties
  import opened CycleSteps
  import opened Alu

  /** The byte after the one PC points at, as `PC.Whole++` reaches it. */
  function NextByte(c: Cpu): Byte
  {
    c.Memory[(c.PC.Whole + 1) % 0x1_0000]
  }

  /** The 16-bit operand at PC, low byte first. */
  function OperandWord(c: Cpu): Word
  {
    NextByte(c) as int * 0x100 + c.Memory[c.PC.Whole]
  }

  /** The pointer stored at `zp` in page zero; its high byte is read from `(zp + 1) & 0xff`. */
  function ZeroPagePointer(c: Cpu, zp: Byte): Word
  {
    c.Memory[ToByte(zp as int + 1)] as int * 0x100 + c.Memory[zp]
  }

  /** The low byte at PC and the byte after it, as the address fetch steps store them in `Address`, make the operand word. */
  lemma OperandBase(c: Cpu)
    ensures c.Address.WithLower(c.Memory[c.PC.Whole]).WithUpper(NextByte(c)).Whole == OperandWord(c)
    ensures c.Address.WithLower(c.Memory[c.PC.Whole]).WithUpper(NextByte(c)).Lower() == c.Memory[c.PC.Whole]
  {
  }

  /**
   * The address an indexed mode forms: the page-cross test holds exactly
   * when the low-byte addition carries, and the address (with its high byte
   * fixed after a carry) is the base plus the index, modulo 0x10000.
   */
  lemma AbsoluteIndexed(base: DoubleRegister, index: Byte)
    ensures var a := base.AddToLower(index);
            && (index > a.Lower() <==> base.Lower() + index > 255)
            && (base.Lower() + index <= 255 ==> a.Whole == (base.Whole + index) % 0x1_0000)
            && (base.Lower() + index > 255 ==> a.WithUpper(ToByte(a.Upper() + 1)).Whole == (base.Whole + index) % 0x1_0000)
  {
    IndexedAddress(base, index);
    CrossedIffCarry(base.Lower(), index);
  }

  /** The stack pointer after pushes and pulls wraps within page one. */
  lemma StackPointerSteps(s: Byte)
    ensures ToByte(ToByte(s - 1) + 1) == s && ToByte(ToByte(s - 1) - 1) == ToByte(s - 2)
    ensures ToByte(ToByte(s - 2) - 1) == ToByte(s - 3) && ToByte(ToByte(s + 1) + 1) == ToByte(s + 2)
    ensures ToByte(ToByte(s - 2) + 1) == ToByte(s - 1) && ToByte(ToByte(s - 2) + 2) == s
    ensures ToByte(s - 1) != s && ToByte(s - 2) != s && ToByte(s - 2) != ToByte(s - 1)
  {
    if s == 0 {
    } else if s == 1 {
    } else if s == 2 {
    } else if s == 0xFE {
    } else if s == 0xFF {
    } else {
      assert ToByte(s - 1) == s - 1 && ToByte(s - 2) == s - 2 && ToByte(s - 3) == s - 3;
      assert ToByte(s + 1) == s + 1 && ToByte(s + 2) == s + 2;
    }
  }

  // ---------------------------------------------------------------------
  // LDA abs,X (K6502/K6502_Instructions.cs:1219-1239)
  // ---------------------------------------------------------------------

  lemma RowLdaAbsoluteX()
    ensures Table(0xBD) == [Cycle0, Addressing(FetchAddressLower), Addressing(FetchAddressUpperIndexed(IndexX)),
                            IndexedReading(ReadIndexed(IndexX, LDA)), Reading(ReadAbsolute(LDA))]
  {
  }

  /**
   * The two ticks that fetch an absolute operand and add an index register
   * to its low byte (abs,X and abs,Y): PC moves past the operand, and the
   * registers and memory are unchanged.
   */
  lemma FetchAbsoluteIndexed(c: Cpu, i: Index)
    requires Valid(c) && c.OpCodeCycle == 1 && |Table(c.OpCode)| > 3
    requires Table(c.OpCode)[1] == Addressing(FetchAddressLower)
    requires Table(c.OpCode)[2] == Addressing(FetchAddressUpperIndexed(i))
    ensures TickSpec(c).OpCodeCycle == 2
    ensures var r := TickSpec(TickSpec(c));
            && r.OpCodeCycle == 3 && SameRegisters(c, r) && r.Memory == c.Memory
            && r.PC == c.PC.Increment().Increment()
            && r.Address == c.Address.WithLower(c.Memory[c.PC.Whole]).WithUpper(NextByte(c)).AddToLower(IndexValue(c, i))
  {
    hide And;
    hide Flags.Byte;
    hide TickSpec;
    hide Table;
    hide Exec;
    hide DoubleRegister.Lower;
    hide DoubleRegister.Upper;
    hide DoubleRegister.WithLower;
    hide DoubleRegister.WithUpper;
    hide DoubleRegister.AddToLower;
    hide DoubleRegister.Increment;
    hide ToByte;
    TickFetchAddressLower(c);
    TickFetchAddressUpperIndexed(TickSpec(c), i);
  }

  /**
   * The last two ticks of LDA with an index that crossed a page: the high
   * byte is fixed, then A is loaded from the fixed address.
   */
  lemma LoadAAfterPageCross(c: Cpu, i: Index)
    requires Valid(c) && 0 < c.OpCodeCycle == |Table(c.OpCode)| - 2 && Crossed(c, i)
    requires Table(c.OpCode)[c.OpCodeCycle] == IndexedReading(ReadIndexed(i, LDA))
    requires Table(c.OpCode)[c.OpCodeCycle + 1] == Reading(ReadAbsolute(LDA))
    ensures TickSpec(c).OpCodeCycle == c.OpCodeCycle + 1
    ensures var r := TickSpec(TickSpec(c));
            && r.OpCodeCycle == 0 && r.PC == c.PC && r.Memory == c.Memory
            && var v := c.Memory[c.Address.WithUpper(ToByte(c.Address.Upper() + 1)).Whole];
               r.A == v && r.P == ZN(c.P, v)
  {
    hide And;
    hide Flags.Byte;
    hide TickSpec;
    hide Table;
    hide Exec;
    hide DoubleRegister.Lower;
    hide DoubleRegister.Upper;
    hide DoubleRegister.WithLower;
    hide DoubleRegister.WithUpper;
    hide DoubleRegister.AddToLower;
    hide DoubleRegister.Increment;
    hide ToByte;
    TickFixPage(c, i, LDA);
    TickLoadA(TickSpec(c), ReadAbsolute(LDA));
  }

  /**
   * LDA abs,X without a page cross: the two operand bytes are fetched and X
   * added to the low byte, and the third tick loads A from the operand word
   * plus X and ends the instruction (4 cycles with CYCLE_0).
   */
  lemma LdaAbsoluteXSamePage(c: Cpu)
    requires Valid(c) && c.OpCode == 0xBD && c.OpCodeCycle == 1
    requires c.Memory[c.PC.Whole] + c.X <= 255
    ensures Run(c, 1).OpCodeCycle == 2 && Run(c, 2).OpCodeCycle == 3 && Run(c, 3).OpCodeCycle == 0
    ensures var v := c.Memory[(OperandWord(c) + c.X) % 0x1_0000];
            Run(c, 3).A == v && Run(c, 3).P == ZN(c.P, v)
    ensures Run(c, 3).PC.Whole == (c.PC.Whole + 2) % 0x1_0000 && Run(c, 3).Memory == c.Memory
  {
    hide And;
    hide Flags.Byte;
    hide TickSpec;
    hide Table;
    hide Exec;
    hide DoubleRegister.Lower;
    hide DoubleRegister.Upper;
    hide DoubleRegister.WithLower;
    hide DoubleRegister.WithUpper;
    hide DoubleRegister.AddToLower;
    hide DoubleRegister.Increment;
    hide ToByte;
    RowLdaAbsoluteX();
    FetchAbsoluteIndexed(c, IndexX);
    OperandBase(c);
    AbsoluteIndexed(c.Address.WithLower(c.Memory[c.PC.Whole]).WithUpper(NextByte(c)), c.X);
    TickLoadAIndexed(TickSpec(TickSpec(c)), IndexX);
    IncrementTwice(c.PC);
    assert Run(c, 3) == TickSpec(TickSpec(TickSpec(c)));
  }

  /**
   * LDA abs,X across a page: the third tick reads the unfixed address and
   * increments the high byte, and a fourth loads A from the operand word
   * plus X (5 cycles with CYCLE_0).
   */
  lemma LdaAbsoluteXCrossPage(c: Cpu)
    requires Valid(c) && c.OpCode == 0xBD && c.OpCodeCycle == 1
    requires c.Memory[c.PC.Whole] + c.X > 255
    ensures Run(c, 1).OpCodeCycle == 2 && Run(c, 2).OpCodeCycle == 3 && Run(c, 3).OpCodeCycle == 4 && Run(c, 4).OpCodeCycle == 0
    ensures var v := c.Memory[(OperandWord(c) + c.X) % 0x1_0000];
            Run(c, 4).A == v && Run(c, 4).P == ZN(c.P, v)
    ensures Run(c, 4).PC.Whole == (c.PC.Whole + 2) % 0x1_0000 && Run(c, 4).Memory == c.Memory
  {
    hide And;
    hide Flags.Byte;
    hide TickSpec;
    hide Table;
    hide Exec;
    hide DoubleRegister.Lower;
    hide DoubleRegister.Upper;
    hide DoubleRegister.WithLower;
    hide DoubleRegister.WithUpper;
    hide DoubleRegister.AddToLower;
    hide DoubleRegister.Increment;
    hide ToByte;
    RowLdaAbsoluteX();
    FetchAbsoluteIndexed(c, IndexX);
    var base := c.Address.WithLower(c.Memory[c.PC.Whole]).WithUpper(NextByte(c));
    OperandBase(c);
    AbsoluteIndexed(base, c.X);
    var c2 := TickSpec(TickSpec(c));
    assert c2.OpCode == 0xBD && c2.X == c.X && c2.Address == base.AddToLower(c.X);
    LoadAAfterPageCross(c2, IndexX);
    IncrementTwice(c.PC);
    assert Run(c, 4) == TickSpec(TickSpec(TickSpec(TickSpec(c))));
  }

  // ---------------------------------------------------------------------
  // LDA zp,X, (zp,X) and (zp),Y (K6502/K6502_Instructions.cs:1194, 1161, 1203)
  // ---------------------------------------------------------------------

  lemma RowLdaZeroPageX()
    ensures Table(0xB5) == [Cycle0, Addressing(FetchAddressLower), Addressing(IndexZeroPage(IndexX)), Reading(ReadZeroPage(LDA))]
  {
  }

  /** LDA zp,X: A is loaded from `(zp + X) & 0xff`, never from page one (4 cycles with CYCLE_0). */
  lemma LdaZeroPageX(c: Cpu)
    requires Valid(c) && c.OpCode == 0xB5 && c.OpCodeCycle == 1
    ensures Run(c, 1).OpCodeCycle == 2 && Run(c, 2).OpCodeCycle == 3 && Run(c, 3).OpCodeCycle == 0
    ensures var v := c.Memory[ToByte(c.Memory[c.PC.Whole] + c.X)];
            Run(c, 3).A == v && Run(c, 3).P == ZN(c.P, v)
    ensures Run(c, 3).PC.Whole == (c.PC.Whole + 1) % 0x1_0000 && Run(c, 3).Memory == c.Memory
  {
    hide And;
    hide Flags.Byte;
    hide TickSpec;
    hide Table;
    hide Exec;
    hide DoubleRegister.Lower;
    hide DoubleRegister.Upper;
    hide DoubleRegister.WithLower;
    hide DoubleRegister.WithUpper;
    hide DoubleRegister.AddToLower;
    hide DoubleRegister.Increment;
    hide ToByte;
    RowLdaZeroPageX();
    TickFetchAddressLower(c);
    TickIndexZeroPage(TickSpec(c), IndexX);
    TickLoadA(TickSpec(TickSpec(c)), ReadZeroPage(LDA));
    assert Run(c, 3) == TickSpec(TickSpec(TickSpec(c)));
  }

  lemma RowLdaIndirectX()
    ensures Table(0xA1) == [Cycle0, Reading(ReadImmediate(ToOperand)), Addressing(PointerAddX), Addressing(FetchPointerLower),
                            Addressing(FetchPointerUpper(false)), Reading(ReadAbsolute(LDA))]
  {
  }

  /**
   * The first four ticks of LDA (zp,X): X is added to the zero-page operand
   * within page zero, and the pointer stored there is read into `Address`.
   */
  lemma FetchIndirectX(c: Cpu)
    requires Valid(c) && c.OpCode == 0xA1 && c.OpCodeCycle == 1
    ensures TickSpec(c).OpCodeCycle == 2 && TickSpec(TickSpec(c)).OpCodeCycle == 3
    ensures TickSpec(TickSpec(TickSpec(c))).OpCodeCycle == 4
    ensures var r := TickSpec(TickSpec(TickSpec(TickSpec(c))));
            && r.OpCodeCycle == 5 && SameRegisters(c, r) && r.Memory == c.Memory && r.PC == c.PC.Increment()
            && r.Address.Whole == ZeroPagePointer(c, ToByte(c.Memory[c.PC.Whole] + c.X))
  {
    hide And;
    hide Flags.Byte;
    hide TickSpec;
    hide Table;
    hide Exec;
    hide DoubleRegister.Lower;
    hide DoubleRegister.Upper;
    hide DoubleRegister.WithLower;
    hide DoubleRegister.WithUpper;
    hide DoubleRegister.AddToLower;
    hide DoubleRegister.Increment;
    hide ToByte;
    RowLdaIndirectX();
    TickReadImmediate(c, ToOperand);
    var c1 := TickSpec(c);
    TickPointerAddX(c1);
    var c2 := TickSpec(c1);
    TickFetchPointerLower(c2);
    TickFetchPointerUpper(TickSpec(c2), false);
  }

  /**
   * LDA (zp,X): X is added to the zero-page operand within page zero, and A
   * is loaded through the pointer stored there (6 cycles with CYCLE_0).
   */
  lemma LdaIndirectX(c: Cpu)
    requires Valid(c) && c.OpCode == 0xA1 && c.OpCodeCycle == 1
    ensures Run(c, 1).OpCodeCycle == 2 && Run(c, 2).OpCodeCycle == 3 && Run(c, 3).OpCodeCycle == 4
    ensures Run(c, 4).OpCodeCycle == 5 && Run(c, 5).OpCodeCycle == 0
    ensures var v := c.Memory[ZeroPagePointer(c, ToByte(c.Memory[c.PC.Whole] + c.X))];
            Run(c, 5).A == v && Run(c, 5).P == ZN(c.P, v)
    ensures Run(c, 5).PC.Whole == (c.PC.Whole + 1) % 0x1_0000 && Run(c, 5).Memory == c.Memory
  {
    hide And;
    hide Flags.Byte;
    hide TickSpec;
    hide Table;
    hide Exec;
    hide DoubleRegister.Lower;
    hide DoubleRegister.Upper;
    hide DoubleRegister.WithLower;
    hide DoubleRegister.WithUpper;
    hide DoubleRegister.AddToLower;
    hide DoubleRegister.Increment;
    hide ToByte;
    hide ZeroPagePointer;
    FetchIndirectX(c);
    RowLdaIndirectX();
    var c4 := TickSpec(TickSpec(TickSpec(TickSpec(c))));
    TickLoadA(c4, ReadAbsolute(LDA));
    assert Run(c, 5) == TickSpec(c4);
  }

  lemma RowLdaIndirectY()
    ensures Table(0xB1) == [Cycle0, Reading(ReadImmediate(ToOperand)), Addressing(FetchPointerLower), Addressing(FetchPointerUpper(true)),
                            IndexedReading(ReadIndexed(IndexY, LDA)), Reading(ReadAbsolute(LDA))]
  {
  }

  /**
   * The first three ticks of LDA (zp),Y: the pointer at the zero-page
   * operand is read, its high byte from `(zp + 1) & 0xff`, and Y is added
   * to its low byte.
   */
  lemma FetchIndirectY(c: Cpu)
    requires Valid(c) && c.OpCode == 0xB1 && c.OpCodeCycle == 1
    ensures TickSpec(c).OpCodeCycle == 2 && TickSpec(TickSpec(c)).OpCodeCycle == 3
    ensures var r, zp := TickSpec(TickSpec(TickSpec(c))), c.Memory[c.PC.Whole];
            && r.OpCodeCycle == 4 && SameRegisters(c, r) && r.Memory == c.Memory && r.PC == c.PC.Increment()
            && r.Address == c.Address.WithLower(c.Memory[zp]).WithUpper(c.Memory[ToByte(zp as int + 1)]).AddToLower(c.Y)
  {
    hide And;
    hide Flags.Byte;
    hide TickSpec;
    hide Table;
    hide Exec;
    hide DoubleRegister.Lower;
    hide DoubleRegister.Upper;
    hide DoubleRegister.WithLower;
    hide DoubleRegister.WithUpper;
    hide DoubleRegister.AddToLower;
    hide DoubleRegister.Increment;
    hide ToByte;
    RowLdaIndirectY();
    TickReadImmediate(c, ToOperand);
    TickFetchPointerLower(TickSpec(c));
    TickFetchPointerUpper(TickSpec(TickSpec(c)), true);
  }

  /** LDA (zp),Y without a page cross: A is loaded from the pointer plus Y (5 cycles with CYCLE_0). */
  lemma LdaIndirectYSamePage(c: Cpu)
    requires Valid(c) && c.OpCode == 0xB1 && c.OpCodeCycle == 1
    requires c.Memory[c.Memory[c.PC.Whole]] + c.Y <= 255
    ensures Run(c, 1).OpCodeCycle == 2 && Run(c, 2).OpCodeCycle == 3 && Run(c, 3).OpCodeCycle == 4 && Run(c, 4).OpCodeCycle == 0
    ensures var v := c.Memory[(ZeroPagePointer(c, c.Memory[c.PC.Whole]) + c.Y) % 0x1_0000];
            Run(c, 4).A == v && Run(c, 4).P == ZN(c.P, v)
    ensures Run(c, 4).PC.Whole == (c.PC.Whole + 1) % 0x1_0000 && Run(c, 4).Memory == c.Memory
  {
    hide And;
    hide Flags.Byte;
    hide TickSpec;
    hide Table;
    hide Exec;
    hide DoubleRegister.Lower;
    hide DoubleRegister.Upper;
    hide DoubleRegister.WithLower;
    hide DoubleRegister.WithUpper;
    hide DoubleRegister.AddToLower;
    hide DoubleRegister.Increment;
    hide ToByte;
    RowLdaIndirectY();
    FetchIndirectY(c);
    var zp := c.Memory[c.PC.Whole];
    AbsoluteIndexed(c.Address.WithLower(c.Memory[zp]).WithUpper(c.Memory[ToByte(zp as int + 1)]), c.Y);
    var c3 := TickSpec(TickSpec(TickSpec(c)));
    TickLoadAIndexed(c3, IndexY);
    assert Run(c, 4) == TickSpec(c3);
  }

  /**
   * LDA (zp),Y across a page: one more tick fixes the high byte, and A is
   * loaded from the pointer plus Y (6 cycles with CYCLE_0).
   */
  lemma LdaIndirectYCrossPage(c: Cpu)
    requires Valid(c) && c.OpCode == 0xB1 && c.OpCodeCycle == 1
    requires c.Memory[c.Memory[c.PC.Whole]] + c.Y > 255
    ensures Run(c, 1).OpCodeCycle == 2 && Run(c, 2).OpCodeCycle == 3 && Run(c, 3).OpCodeCycle == 4
    ensures Run(c, 4).OpCodeCycle == 5 && Run(c, 5).OpCodeCycle == 0
    ensures var v := c.Memory[(ZeroPagePointer(c, c.Memory[c.PC.Whole]) + c.Y) % 0x1_0000];
            Run(c, 5).A == v && Run(c, 5).P == ZN(c.P, v)
    ensures Run(c, 5).PC.Whole == (c.PC.Whole + 1) % 0x1_0000 && Run(c, 5).Memory == c.Memory
  {
    hide And;
    hide Flags.Byte;
    hide TickSpec;
    hide Table;
    hide Exec;
    hide DoubleRegister.Lower;
    hide DoubleRegister.Upper;
    hide DoubleRegister.WithLower;
    hide DoubleRegister.WithUpper;
    hide DoubleRegister.AddToLower;
    hide DoubleRegister.Increment;
    hide ToByte;
    RowLdaIndirectY();
    FetchIndirectY(c);
    var zp := c.Memory[c.PC.Whole];
    var base := c.Address.WithLower(c.Memory[zp]).WithUpper(c.Memory[ToByte(zp as int + 1)]);
    AbsoluteIndexed(base, c.Y);
    var c3 := TickSpec(TickSpec(TickSpec(c)));
    assert c3.OpCode == 0xB1 && c3.Y == c.Y && c3.Address == base.AddToLower(c.Y);
    LoadAAfterPageCross(c3, IndexY);
    assert Run(c, 5) == TickSpec(TickSpec(c3));
  }

  // ---------------------------------------------------------------------
  // JMP (ind) (K6502/K6502_Instructions.cs:468)
  // ---------------------------------------------------------------------

  lemma RowJmpIndirect()
    ensures Table(0x6C) == [Cycle0, Addressing(FetchAddressLower), Addressing(FetchAddressUpper), Reading(ReadAbsolute(ToOperand)), Control(JumpIndirect)]
  {
  }

  /**
   * The first three ticks of JMP (ind): the pointer is fetched into
   * `Address`, and the byte it points at into `Operand`.
   */
  lemma FetchJmpPointer(c: Cpu)
    requires Valid(c) && c.OpCode == 0x6C && c.OpCodeCycle == 1
    ensures TickSpec(c).OpCodeCycle == 2 && TickSpec(TickSpec(c)).OpCodeCycle == 3
    ensures var r := TickSpec(TickSpec(TickSpec(c)));
            && r.OpCodeCycle == 4 && SameRegisters(c, r) && r.Memory == c.Memory
            && r.Address == c.Address.WithLower(c.Memory[c.PC.Whole]).WithUpper(NextByte(c))
            && r.Operand == c.Memory[OperandWord(c)]
  {
    hide And;
    hide Flags.Byte;
    hide TickSpec;
    hide Table;
    hide Exec;
    hide DoubleRegister.Lower;
    hide DoubleRegister.Upper;
    hide DoubleRegister.WithLower;
    hide DoubleRegister.WithUpper;
    hide DoubleRegister.AddToLower;
    hide DoubleRegister.Increment;
    hide ToByte;
    RowJmpIndirect();
    TickFetchAddressLower(c);
    var c1 := TickSpec(c);
    TickFetchAddressUpper(c1);
    OperandBase(c);
    TickReadToOperand(TickSpec(c1), ReadAbsolute(ToOperand));
  }

  /**
   * JMP (ind): PC's low byte comes from the pointer, and its high byte from
   * the next byte of the pointer's page, without a carry into the page
   * (5 cycles with CYCLE_0).
   */
  lemma JmpIndirect(c: Cpu)
    requires Valid(c) && c.OpCode == 0x6C && c.OpCodeCycle == 1
    ensures Run(c, 1).OpCodeCycle == 2 && Run(c, 2).OpCodeCycle == 3 && Run(c, 3).OpCodeCycle == 4 && Run(c, 4).OpCodeCycle == 0
    ensures Run(c, 4).PC == Halves(c.Memory[OperandWord(c)], c.Memory[NextByte(c) as int * 0x100 + ToByte(c.Memory[c.PC.Whole] as int + 1)])
    ensures Run(c, 4).Memory == c.Memory && SameRegisters(c, Run(c, 4))
  {
    hide And;
    hide Flags.Byte;
    hide TickSpec;
    hide Table;
    hide Exec;
    FetchJmpPointer(c);
    RowJmpIndirect();
    var c3 := TickSpec(TickSpec(TickSpec(c)));
    TickJumpIndirect(c3);
    assert Run(c, 4) == TickSpec(c3);
  }

  // ---------------------------------------------------------------------
  // Branches (K6502/K6502_Instructions.cs:303-322)
  // ---------------------------------------------------------------------

  /** The opcodes of column 4 of the control group: BPL, BMI, BVC, BVS, BCC, BCS, BNE, BEQ. */
  predicate IsBranch(op: nat)
  {
    op < 256 && op % 0x20 == 0x10
  }

  /** The branch is taken: its flag has the value bit 5 of the opcode asks for. */
  predicate BranchTaken(c: Cpu)
    requires IsBranch(c.OpCode)
  {
    var aaa := c.OpCode / 0x20;
    c.P.Get(BranchFlag(aaa)) == (aaa % 2 == 1)
  }

  /** The low byte of PC after the offset is fetched, plus the signed offset, stays on its page. */
  predicate BranchOnSamePage(c: Cpu)
  {
    0 <= c.PC.Increment().Lower() + Signed(c.Memory[c.PC.Whole]) <= 255
  }

  /** Where a taken branch goes: the address after the offset byte plus the signed offset, modulo 0x10000. */
  function BranchDestination(c: Cpu): Word
  {
    (c.PC.Whole + 1 + Signed(c.Memory[c.PC.Whole])) % 0x1_0000
  }

  lemma RowBranch(op: nat)
    requires IsBranch(op)
    ensures Table(op) == [Cycle0] + BranchRow(BranchFlag(op / 0x20), op / 0x20 % 2 == 1)
  {
    assert op % 4 == 0 && op % 0x20 / 4 == 4;
  }

  /** `PC.Whole++` then adding `s` is adding `s + 1`, modulo 0x10000. */
  lemma IncrementThenAdd(pc: DoubleRegister, s: int)
    ensures (pc.Increment().Whole + s) % 0x1_0000 == (pc.Whole + 1 + s) % 0x1_0000
  {
    if pc.Whole == 0xFFFF {
      assert pc.Increment().Whole == 0;
    } else {
      assert pc.Increment().Whole == pc.Whole + 1;
    }
  }

  /** Within the page, adding the offset to the low byte adds the signed offset to the whole register. */
  lemma BranchTargetSamePage(p: DoubleRegister, offset: Byte)
    requires 0 <= p.Lower() + Signed(offset) <= 255
    ensures p.AddToLower(offset).Whole == (p.Whole + Signed(offset)) % 0x1_0000
  {
    var lo, hi, s := p.Lower(), p.Upper(), Signed(offset);
    assert (lo + offset) % 0x100 == lo + s;
    assert p.Whole == hi * 0x100 + lo;
  }

  /**
   * Off the page, moving the high byte one page down (when the low-byte
   * addition did not wrap) or up (when it did) gives the 16-bit sum with the
   * signed offset.
   */
lemma BranchTargetCrossPage(p: DoubleRegister, offset: Byte)
    requires !(0 <= p.Lower() + Signed(offset) <= 255)
    ensures var q := p.AddToLower(offset);
            (if q.Lower() - offset >= 0 then q.WithUpper(ToByte(q.Upper() - 1)) else q.WithUpper(ToByte(q.Upper() + 1))).Whole
              == (p.Whole + Signed(offset)) % 0x1_0000
  {
    if Signed(offset) < 0 {
      BranchBackCrossPage(p, offset);
    } else {
      BranchForwardCrossPage(p, offset);
    }
  }

  /** A backward branch out of the page: the low byte wraps up and the high byte goes down by one. */
  lemma BranchBackCrossPage(p: DoubleRegister, offset: Byte)
    requires Signed(offset) < 0 && p.Lower() + Signed(offset) < 0
    ensures var q := p.AddToLower(offset);
            && q.Lower() - offset >= 0
            && q.WithUpper(ToByte(q.Upper() - 1)).Whole == (p.Whole + Signed(offset)) % 0x1_0000
  {
    var lo, hi, s := p.Lower(), p.Upper(), Signed(offset);
    assert p.Whole == hi * 0x100 + lo;
    assert offset == s + 0x100 && 0 <= lo + offset < 0x100;
    assert p.AddToLower(offset).Lower() == lo + offset;
    if hi == 0 {
      assert (p.Whole + s) % 0x1_0000 == p.Whole + s + 0x1_0000;
    } else {
      assert (p.Whole + s) % 0x1_0000 == p.Whole + s;
    }
  }

  /** A forward branch out of the page: the low byte wraps down and the high byte goes up by one. */
  lemma BranchForwardCrossPage(p: DoubleRegister, offset: Byte)
    requires Signed(offset) >= 0 && p.Lower() + Signed(offset) > 255
    ensures var q := p.AddToLower(offset);
            && q.Lower() - offset < 0
            && q.WithUpper(ToByte(q.Upper() + 1)).Whole == (p.Whole + Signed(offset)) % 0x1_0000
  {
    var lo, hi, s := p.Lower(), p.Upper(), Signed(offset);
    assert p.Whole == hi * 0x100 + lo;
    assert offset == s && lo + offset >= 0x100;
    assert p.AddToLower(offset).Lower() == lo + offset - 0x100;
    if hi == 255 {
      assert (p.Whole + s) % 0x1_0000 == p.Whole + s - 0x1_0000;
    } else {
      assert (p.Whole + s) % 0x1_0000 == p.Whole + s;
    }
  }

  /** A branch not taken ends after fetching its offset: PC is past the offset (2 cycles with CYCLE_0). */
  lemma BranchNotTaken(c: Cpu)
    requires Valid(c) && IsBranch(c.OpCode) && c.OpCodeCycle == 1 && !BranchTaken(c)
    ensures Run(c, 1).OpCodeCycle == 0 && Run(c, 1).PC.Whole == (c.PC.Whole + 1) % 0x1_0000
    ensures SameRegisters(c, Run(c, 1)) && Run(c, 1).Memory == c.Memory
  {
    hide And;
    hide Flags.Byte;
    hide TickSpec;
    hide Table;
    hide Exec;
    hide DoubleRegister.Lower;
    hide DoubleRegister.Upper;
    hide DoubleRegister.WithLower;
    hide DoubleRegister.WithUpper;
    hide DoubleRegister.AddToLower;
    hide DoubleRegister.Increment;
    hide ToByte;
    RowBranch(c.OpCode);
    TickBranchFetch(c, BranchFlag(c.OpCode / 0x20), c.OpCode / 0x20 % 2 == 1);
    assert Run(c, 1) == TickSpec(c);
  }

  /** A branch taken within the page ends after adding the offset (3 cycles with CYCLE_0). */
  lemma BranchTakenSamePage(c: Cpu)
    requires Valid(c) && IsBranch(c.OpCode) && c.OpCodeCycle == 1 && BranchTaken(c) && BranchOnSamePage(c)
    ensures Run(c, 1).OpCodeCycle == 2 && Run(c, 2).OpCodeCycle == 0
    ensures Run(c, 2).PC.Whole == BranchDestination(c)
    ensures SameRegisters(c, Run(c, 2)) && Run(c, 2).Memory == c.Memory
  {
    hide And;
    hide Flags.Byte;
    hide TickSpec;
    hide Table;
    hide Exec;
    hide DoubleRegister.Lower;
    hide DoubleRegister.Upper;
    hide DoubleRegister.WithLower;
    hide DoubleRegister.WithUpper;
    hide DoubleRegister.AddToLower;
    hide DoubleRegister.Increment;
    hide ToByte;
    RowBranch(c.OpCode);
    TickBranchFetch(c, BranchFlag(c.OpCode / 0x20), c.OpCode / 0x20 % 2 == 1);
    var c1 := TickSpec(c);
    TickBranchAdd(c1);
    BranchTargetSamePage(c.PC.Increment(), c.Memory[c.PC.Whole]);
    IncrementThenAdd(c.PC, Signed(c.Memory[c.PC.Whole]));
    assert Run(c, 2) == TickSpec(c1);
  }

  /** A branch taken to another page spends a third tick fixing PC's high byte (4 cycles with CYCLE_0). */
  lemma BranchTakenCrossPage(c: Cpu)
    requires Valid(c) && IsBranch(c.OpCode) && c.OpCodeCycle == 1 && BranchTaken(c) && !BranchOnSamePage(c)
    ensures Run(c, 1).OpCodeCycle == 2 && Run(c, 2).OpCodeCycle == 3 && Run(c, 3).OpCodeCycle == 0
    ensures Run(c, 3).PC.Whole == BranchDestination(c)
    ensures SameRegisters(c, Run(c, 3)) && Run(c, 3).Memory == c.Memory
  {
    hide And;
    hide Flags.Byte;
    hide TickSpec;
    hide Table;
    hide Exec;
    hide DoubleRegister.Lower;
    hide DoubleRegister.Upper;
    hide DoubleRegister.WithLower;
    hide DoubleRegister.WithUpper;
    hide DoubleRegister.AddToLower;
    hide DoubleRegister.Increment;
    hide ToByte;
    RowBranch(c.OpCode);
    TickBranchFetch(c, BranchFlag(c.OpCode / 0x20), c.OpCode / 0x20 % 2 == 1);
    var c1 := TickSpec(c);
    TickBranchAdd(c1);
    var c2 := TickSpec(c1);
    TickBranchFixPage(c2);
    BranchTargetCrossPage(c.PC.Increment(), c.Memory[c.PC.Whole]);
    IncrementThenAdd(c.PC, Signed(c.Memory[c.PC.Whole]));
    assert Run(c, 3) == TickSpec(c2);
  }

  // ---------------------------------------------------------------------
  // Read-modify-write on page zero (K6502/K6502_Instructions.cs:1440-1445)
  // ---------------------------------------------------------------------

  /** The operation of ASL, ROL, LSR, ROR, DEC and INC zp (06, 26, 46, 66, C6, E6). */
  function ZeroPageRmw(op: nat): RmwOp
    requires op in {0x06, 0x26, 0x46, 0x66, 0xC6, 0xE6}
  {
    if op == 0x06 then ASL else if op == 0x26 then ROL else if op == 0x46 then LSR
    else if op == 0x66 then ROR else if op == 0xC6 then DEC else INC
  }

  lemma RowZeroPageRmw(op: nat)
    requires op in {0x06, 0x26, 0x46, 0x66, 0xC6, 0xE6}
    ensures Table(op) == [Cycle0] + RmwRow(ZeroPage, ZeroPageRmw(op))
  {
  }

  /**
   * The two writes of read-modify-write: the unmodified byte goes back to
   * the address, then the result, and the flags are the operation's.
   */
  lemma RmwWrites(c: Cpu, absolute: bool, f: RmwOp)
    requires Valid(c) && 0 < c.OpCodeCycle == |Table(c.OpCode)| - 2
    requires Table(c.OpCode)[c.OpCodeCycle] == Writing(RmwWriteBack(absolute, f))
    requires Table(c.OpCode)[c.OpCodeCycle + 1] == Writing(RmwWriteResult(absolute))
    ensures TickSpec(c).OpCodeCycle == c.OpCodeCycle + 1
    ensures var r, a, v := TickSpec(TickSpec(c)), Effective(c, absolute), Modify(f, c.P, c.Operand);
            && r.OpCodeCycle == 0 && r.OpCode == c.OpCode
            && r.Memory == c.Memory[a := c.Operand][a := v.Value] && r.P == v.Flags
            && r.Trace == c.Trace + [WriteAt(a, c.Operand), WriteAt(a, v.Value)]
            && r.A == c.A && r.X == c.X && r.Y == c.Y && r.S == c.S && r.PC == c.PC
  {
    hide And;
    hide Flags.Byte;
    hide TickSpec;
    hide Table;
    hide Exec;
    hide DoubleRegister.Lower;
    hide DoubleRegister.Upper;
    hide DoubleRegister.WithLower;
    hide DoubleRegister.WithUpper;
    hide DoubleRegister.AddToLower;
    hide DoubleRegister.Increment;
    hide ToByte;
    TickRmwWriteBack(c, absolute, f);
    var c1 := TickSpec(c);
    TickRmwWriteResult(c1, absolute);
    assert c1.Trace + [WriteAt(Effective(c, absolute), c1.Operand)] == c.Trace + [WriteAt(Effective(c, absolute), c.Operand), WriteAt(Effective(c, absolute), c1.Operand)];
  }

  /** The first two ticks of a zero-page read-modify-write: the address, then the byte there. */
  lemma ZeroPageRmwRead(c: Cpu)
    requires Valid(c) && c.OpCode in {0x06, 0x26, 0x46, 0x66, 0xC6, 0xE6} && c.OpCodeCycle == 1
    ensures TickSpec(c).OpCodeCycle == 2
    ensures var r, zp := TickSpec(TickSpec(c)), c.Memory[c.PC.Whole];
            && r.OpCodeCycle == 3 && r.OpCode == c.OpCode && r.Memory == c.Memory
            && Effective(r, false) == zp && r.Operand == c.Memory[zp] && r.PC == c.PC.Increment()
            && r.A == c.A && r.X == c.X && r.Y == c.Y && r.S == c.S && r.P == c.P
  {
    hide And;
    hide Flags.Byte;
    hide TickSpec;
    hide Table;
    hide Exec;
    hide DoubleRegister.Upper;
    hide DoubleRegister.WithUpper;
    hide DoubleRegister.AddToLower;
    hide DoubleRegister.Increment;
    hide ToByte;
    RowZeroPageRmw(c.OpCode);
    TickFetchAddressLower(c);
    TickReadToOperand(TickSpec(c), ReadZeroPage(ToOperand));
  }

  /**
   * ASL/ROL/LSR/ROR/DEC/INC zp: the byte at the zero-page address is read,
   * written back unchanged, then replaced by the result, and the flags are
   * the operation's (5 cycles with CYCLE_0).
   */
  lemma ZeroPageReadModifyWrite(c: Cpu)
    requires Valid(c) && c.OpCode in {0x06, 0x26, 0x46, 0x66, 0xC6, 0xE6} && c.OpCodeCycle == 1
    ensures Run(c, 1).OpCodeCycle == 2 && Run(c, 2).OpCodeCycle == 3 && Run(c, 3).OpCodeCycle == 4 && Run(c, 4).OpCodeCycle == 0
    ensures var zp := c.Memory[c.PC.Whole];
            var v := Modify(ZeroPageRmw(c.OpCode), c.P, c.Memory[zp]);
            && Run(c, 4).Memory == c.Memory[zp := v.Value] && Run(c, 4).P == v.Flags
            && Run(c, 4).Trace == Run(c, 2).Trace + [WriteAt(zp, c.Memory[zp]), WriteAt(zp, v.Value)]
            && Run(c, 4).PC.Whole == (c.PC.Whole + 1) % 0x1_0000
            && Run(c, 4).A == c.A && Run(c, 4).X == c.X && Run(c, 4).Y == c.Y && Run(c, 4).S == c.S
  {
    hide And;
    hide Flags.Byte;
    hide TickSpec;
    hide Table;
    hide Exec;
    hide DoubleRegister.Lower;
    hide DoubleRegister.Upper;
    hide DoubleRegister.WithLower;
    hide DoubleRegister.WithUpper;
    hide DoubleRegister.AddToLower;
    hide DoubleRegister.Increment;
    hide ToByte;
    hide Modify;
    hide ZeroPageRmw;
    var f := ZeroPageRmw(c.OpCode);
    ZeroPageRmwRead(c);
    RowZeroPageRmw(c.OpCode);
    var c2 := TickSpec(TickSpec(c));
    RmwWrites(c2, false, f);
    var zp := c.Memory[c.PC.Whole];
    assert c.Memory[zp := c.Memory[zp]] == c.Memory;
    assert Run(c, 2) == c2;
    assert Run(c, 4) == TickSpec(TickSpec(c2));
  }

  // ---------------------------------------------------------------------
  // The stack: PHA, PLA, JSR, RTS (K6502/K6502_Instructions.cs:418, 457-459, 352-356, 450-454)
  // ---------------------------------------------------------------------

  /** `Run` in two parts: `a` ticks, then `b` more. */
  lemma {:induction false} RunAdditive(c: Cpu, a: nat, b: nat)
    requires Valid(c)
    ensures Run(c, a + b) == Run(Run(c, a), b)
    decreases b
  {
    hide And;
    hide Flags.Byte;
    hide TickSpec;
    hide Table;
    hide Exec;
    hide DoubleRegister.Lower;
    hide DoubleRegister.Upper;
    hide DoubleRegister.WithLower;
    hide DoubleRegister.WithUpper;
    hide DoubleRegister.AddToLower;
    hide DoubleRegister.Increment;
    hide ToByte;
    if b > 0 {
      RunAdditive(c, a, b - 1);
      assert Run(c, a + b) == TickSpec(Run(c, a + b - 1));
    }
  }

  /** With both interrupt inputs quiet, they stay quiet over any number of ticks. */
  lemma {:induction false} RunKeepsQuiet(c: Cpu, n: nat)
    requires Valid(c) && Quiet(c)
    ensures Quiet(Run(c, n))
    decreases n
  {
    hide And;
    hide Flags.Byte;
    hide TickSpec;
    hide Table;
    hide Exec;
    hide DoubleRegister.Lower;
    hide DoubleRegister.Upper;
    hide DoubleRegister.WithLower;
    hide DoubleRegister.WithUpper;
    hide DoubleRegister.AddToLower;
    hide DoubleRegister.Increment;
    hide ToByte;
    if n > 0 {
      RunKeepsQuiet(c, n - 1);
      TickKeepsQuiet(Run(c, n - 1));
    }
  }

  /** CYCLE_0 with no interrupt: the next opcode is fetched and PC moves past it. */
  lemma FetchNext(c: Cpu)
    requires Valid(c) && c.OpCodeCycle == 0 && Quiet(c)
    ensures var r := Run(c, 1);
            && r.OpCode == c.Memory[c.PC.Whole] && r.OpCodeCycle == 1 && r.PC == c.PC.Increment()
            && r.A == c.A && r.X == c.X && r.Y == c.Y && r.S == c.S && r.P == c.P && r.Memory == c.Memory
            && Quiet(r)
  {
    hide And;
    hide Flags.Byte;
    hide TickSpec;
    hide Table;
    hide Exec;
    hide DoubleRegister.Lower;
    hide DoubleRegister.Upper;
    hide DoubleRegister.WithLower;
    hide DoubleRegister.WithUpper;
    hide DoubleRegister.AddToLower;
    hide DoubleRegister.Increment;
    hide ToByte;
    TickFetchOpCode(c);
    TickKeepsQuiet(c);
    assert Run(c, 1) == TickSpec(c);
  }

  lemma RowPha()
    ensures Table(0x48) == [Cycle0, Implied(DummyReadPC), Stack(Push(PushA))]
  {
  }

  /** PHA: A is written at `0x0100 + S`, then S is decremented within page one (3 cycles with CYCLE_0). */
  lemma Pha(c: Cpu)
    requires Valid(c) && c.OpCode == 0x48 && c.OpCodeCycle == 1
    ensures Run(c, 1).OpCodeCycle == 2 && Run(c, 2).OpCodeCycle == 0
    ensures var r := Run(c, 2);
            && r.Memory == c.Memory[StackTop(c) := c.A] && r.S == ToByte(c.S - 1)
            && r.A == c.A && r.P == c.P && r.PC == c.PC
  {
    hide And;
    hide Flags.Byte;
    hide TickSpec;
    hide Table;
    hide Exec;
    hide DoubleRegister.Lower;
    hide DoubleRegister.Upper;
    hide DoubleRegister.WithLower;
    hide DoubleRegister.WithUpper;
    hide DoubleRegister.AddToLower;
    hide DoubleRegister.Increment;
    hide ToByte;
    RowPha();
    TickNoEffect(c, DummyReadPC);
    TickPush(TickSpec(c), PushA);
    assert Run(c, 2) == TickSpec(TickSpec(c));
  }

  lemma RowPla()
    ensures Table(0x68) == [Cycle0, Implied(DummyReadPC), Stack(IncrementS), Stack(PullA)]
  {
  }

  /** PLA: S is incremented within page one, then A is read from `0x0100 + S` with Z and N (4 cycles with CYCLE_0). */
  lemma Pla(c: Cpu)
    requires Valid(c) && c.OpCode == 0x68 && c.OpCodeCycle == 1
    ensures Run(c, 1).OpCodeCycle == 2 && Run(c, 2).OpCodeCycle == 3 && Run(c, 3).OpCodeCycle == 0
    ensures var r, v := Run(c, 3), c.Memory[0x0100 + ToByte(c.S + 1)];
            && r.A == v && r.P == ZN(c.P, v) && r.S == ToByte(c.S + 1)
            && r.Memory == c.Memory && r.PC == c.PC
  {
    hide And;
    hide Flags.Byte;
    hide TickSpec;
    hide Table;
    hide Exec;
    hide DoubleRegister.Lower;
    hide DoubleRegister.Upper;
    hide DoubleRegister.WithLower;
    hide DoubleRegister.WithUpper;
    hide DoubleRegister.AddToLower;
    hide DoubleRegister.Increment;
    hide ToByte;
    RowPla();
    TickNoEffect(c, DummyReadPC);
    var c1 := TickSpec(c);
    TickIncrementS(c1);
    TickPullA(TickSpec(c1));
    assert Run(c, 3) == TickSpec(TickSpec(c1));
  }

  /**
   * PHA followed by PLA, with no interrupt: A and S are what they were
   * before PHA. `Memory[StackTop(c) := c.A]` is the memory PLA's opcode is
   * fetched from, after the push.
   */
  lemma PhaThenPla(c: Cpu)
    requires Valid(c) && c.OpCode == 0x48 && c.OpCodeCycle == 1 && Quiet(c)
    requires c.Memory[StackTop(c) := c.A][c.PC.Whole] == 0x68
    ensures Run(c, 6).OpCodeCycle == 0 && Run(c, 6).A == c.A && Run(c, 6).S == c.S
  {
    hide And;
    hide Flags.Byte;
    hide TickSpec;
    hide Table;
    hide Exec;
    hide DoubleRegister.Lower;
    hide DoubleRegister.Upper;
    hide DoubleRegister.WithLower;
    hide DoubleRegister.WithUpper;
    hide DoubleRegister.AddToLower;
    hide DoubleRegister.Increment;
    hide ToByte;
    Pha(c);
    var d := Run(c, 2);
    RunKeepsQuiet(c, 2);
    FetchNext(d);
    var e := Run(d, 1);
    Pla(e);
    StackPointerSteps(c.S);
    RunAdditive(c, 2, 1);
    RunAdditive(c, 3, 3);
  }

  /** Where JSR's last byte is, the return address it pushes. */
  function JsrReturn(c: Cpu): DoubleRegister
  {
    c.PC.Increment()
  }

  /** The memory after JSR's two pushes: the return address, high byte first. */
  function JsrPushed(c: Cpu): Ram
  {
    c.Memory[0x0100 + c.S := JsrReturn(c).Upper()][0x0100 + ToByte(c.S - 1) := JsrReturn(c).Lower()]
  }

  /** JSR's target: the low byte before the pushes, the high byte read after them. */
  function JsrTarget(c: Cpu): DoubleRegister
  {
    Halves(c.Memory[c.PC.Whole], JsrPushed(c)[JsrReturn(c).Whole])
  }

  /** The two pushed bytes are at `0x0100 + S` and the cell below it. */
  lemma JsrPushedBytes(c: Cpu)
    ensures JsrPushed(c)[0x0100 + c.S] == JsrReturn(c).Upper()
    ensures JsrPushed(c)[0x0100 + ToByte(c.S - 1)] == JsrReturn(c).Lower()
  {
    StackPointerSteps(c.S);
  }

  /** The pulled return address plus one is three bytes past JSR's opcode, which is one byte before `pc`. */
  lemma ReturnAddress(pc: DoubleRegister)
    ensures (pc.Increment().Upper() as int * 0x100 + pc.Increment().Lower() + 1) % 0x1_0000 == (pc.Whole + 2) % 0x1_0000
  {
    IncrementTwice(pc);
  }

  lemma RowJsr()
    ensures Table(0x20) == [Cycle0, Addressing(FetchAddressLower), Implied(Idle), Stack(Push(PushPCUpper)), Stack(Push(PushPCLower)), Control(JumpAbsolute)]
  {
  }

  /**
   * The first four ticks of JSR: the target's low byte is fetched, then the
   * address of JSR's last byte is pushed, high byte first.
   */
  lemma JsrPushes(c: Cpu)
    requires Valid(c) && c.OpCode == 0x20 && c.OpCodeCycle == 1
    ensures TickSpec(c).OpCodeCycle == 2 && TickSpec(TickSpec(c)).OpCodeCycle == 3
    ensures TickSpec(TickSpec(TickSpec(c))).OpCodeCycle == 4
    ensures var r := TickSpec(TickSpec(TickSpec(TickSpec(c))));
            && r.OpCodeCycle == 5 && r.OpCode == 0x20 && r.Memory == JsrPushed(c) && r.S == ToByte(c.S - 2)
            && r.PC == JsrReturn(c) && r.Address.Lower() == c.Memory[c.PC.Whole]
            && r.A == c.A && r.X == c.X && r.Y == c.Y && r.P == c.P
  {
    hide And;
    hide Flags.Byte;
    hide TickSpec;
    hide Table;
    hide Exec;
    hide DoubleRegister.Lower;
    hide DoubleRegister.Upper;
    hide DoubleRegister.WithLower;
    hide DoubleRegister.WithUpper;
    hide DoubleRegister.AddToLower;
    hide DoubleRegister.Increment;
    hide ToByte;
    RowJsr();
    TickFetchAddressLower(c);
    var c1 := TickSpec(c);
    TickNoEffect(c1, Idle);
    var c2 := TickSpec(c1);
    TickPush(c2, PushPCUpper);
    TickPush(TickSpec(c2), PushPCLower);
    StackPointerSteps(c.S);
  }

  /**
   * JSR: the address of its last byte is pushed, high byte first, S moves
   * down by two within page one, and PC takes the target (6 cycles with
   * CYCLE_0).
   */
  lemma Jsr(c: Cpu)
    requires Valid(c) && c.OpCode == 0x20 && c.OpCodeCycle == 1
    ensures Run(c, 1).OpCodeCycle == 2 && Run(c, 2).OpCodeCycle == 3 && Run(c, 3).OpCodeCycle == 4
    ensures Run(c, 4).OpCodeCycle == 5 && Run(c, 5).OpCodeCycle == 0
    ensures var r := Run(c, 5);
            && r.Memory == JsrPushed(c) && r.S == ToByte(c.S - 2) && r.PC == JsrTarget(c)
            && r.A == c.A && r.X == c.X && r.Y == c.Y && r.P == c.P
  {
    hide And;
    hide Flags.Byte;
    hide TickSpec;
    hide Table;
    hide Exec;
    hide DoubleRegister.Lower;
    hide DoubleRegister.Upper;
    hide DoubleRegister.WithLower;
    hide DoubleRegister.WithUpper;
    hide DoubleRegister.AddToLower;
    hide DoubleRegister.Increment;
    hide ToByte;
    hide JsrPushed;
    JsrPushes(c);
    RowJsr();
    var c4 := TickSpec(TickSpec(TickSpec(TickSpec(c))));
    TickJumpAbsolute(c4);
    assert Run(c, 5) == TickSpec(c4);
  }

  /** The return address pulled into PC, moved on by one. */
  lemma PulledAddress(pc: DoubleRegister, lo: Byte, hi: Byte)
    ensures pc.WithLower(lo).WithUpper(hi).Increment().Whole == (hi as int * 0x100 + lo + 1) % 0x1_0000
  {
  }

  lemma RowRts()
    ensures Table(0x60) == [Cycle0, Implied(DummyReadPC), Stack(IncrementS), Stack(PullPCLower), Stack(PullPCUpper), Control(IncrementPC)]
  {
  }

  /**
   * The first four ticks of RTS: S moves up, and the return address is
   * pulled into PC, low byte first.
   */
  lemma RtsPulls(c: Cpu)
    requires Valid(c) && c.OpCode == 0x60 && c.OpCodeCycle == 1
    ensures TickSpec(c).OpCodeCycle == 2 && TickSpec(TickSpec(c)).OpCodeCycle == 3
    ensures TickSpec(TickSpec(TickSpec(c))).OpCodeCycle == 4
    ensures var r := TickSpec(TickSpec(TickSpec(TickSpec(c))));
            && r.OpCodeCycle == 5 && r.OpCode == 0x60 && r.Memory == c.Memory && r.S == ToByte(c.S + 2)
            && r.PC == c.PC.WithLower(c.Memory[0x0100 + ToByte(c.S + 1)]).WithUpper(c.Memory[0x0100 + ToByte(c.S + 2)])
            && r.A == c.A && r.X == c.X && r.Y == c.Y && r.P == c.P
  {
    hide And;
    hide Flags.Byte;
    hide TickSpec;
    hide Table;
    hide Exec;
    hide DoubleRegister.Lower;
    hide DoubleRegister.Upper;
    hide DoubleRegister.WithLower;
    hide DoubleRegister.WithUpper;
    hide DoubleRegister.AddToLower;
    hide DoubleRegister.Increment;
    hide ToByte;
    RowRts();
    TickNoEffect(c, DummyReadPC);
    var c1 := TickSpec(c);
    TickIncrementS(c1);
    var c2 := TickSpec(c1);
    TickPullPCLower(c2);
    TickPullPCUpper(TickSpec(c2));
    StackPointerSteps(c.S);
  }

  /**
   * RTS: the return address is pulled, low byte first, S moves up by two
   * within page one, and PC is the return address plus one (6 cycles with
   * CYCLE_0).
   */
  lemma Rts(c: Cpu)
    requires Valid(c) && c.OpCode == 0x60 && c.OpCodeCycle == 1
    ensures Run(c, 1).OpCodeCycle == 2 && Run(c, 2).OpCodeCycle == 3 && Run(c, 3).OpCodeCycle == 4
    ensures Run(c, 4).OpCodeCycle == 5 && Run(c, 5).OpCodeCycle == 0
    ensures var r := Run(c, 5);
            && r.PC.Whole == (c.Memory[0x0100 + ToByte(c.S + 2)] as int * 0x100 + c.Memory[0x0100 + ToByte(c.S + 1)] + 1) % 0x1_0000
            && r.S == ToByte(c.S + 2) && r.Memory == c.Memory
            && r.A == c.A && r.X == c.X && r.Y == c.Y && r.P == c.P
  {
    hide And;
    hide Flags.Byte;
    hide TickSpec;
    hide Table;
    hide Exec;
    hide ToByte;
    hide DoubleRegister.Lower;
    hide DoubleRegister.Upper;
    hide DoubleRegister.WithLower;
    hide DoubleRegister.WithUpper;
    hide DoubleRegister.Increment;
    RtsPulls(c);
    RowRts();
    var c4 := TickSpec(TickSpec(TickSpec(TickSpec(c))));
    TickIncrementPC(c4);
    PulledAddress(c.PC, c.Memory[0x0100 + ToByte(c.S + 1)], c.Memory[0x0100 + ToByte(c.S + 2)]);
    assert Run(c, 5) == TickSpec(c4);
  }

  /** JSR, then CYCLE_0 with no interrupt: the opcode at the target is fetched from the memory after the pushes. */
  lemma JsrThenFetch(c: Cpu)
    requires Valid(c) && c.OpCode == 0x20 && c.OpCodeCycle == 1 && Quiet(c)
    ensures var r := Run(c, 6);
            && r.OpCode == JsrPushed(c)[JsrTarget(c).Whole] && r.OpCodeCycle == 1
            && r.S == ToByte(c.S - 2) && r.Memory == JsrPushed(c)
  {
    hide And;
    hide Flags.Byte;
    hide TickSpec;
    hide Table;
    hide Exec;
    hide JsrPushed;
    hide JsrTarget;
    Jsr(c);
    RunKeepsQuiet(c, 5);
    FetchNext(Run(c, 5));
    RunAdditive(c, 5, 1);
  }

  /**
   * JSR to an RTS, with no interrupt: after the two instructions PC is three
   * bytes past JSR's opcode and S is back where it was.
   */
  lemma JsrThenRts(c: Cpu)
    requires Valid(c) && c.OpCode == 0x20 && c.OpCodeCycle == 1 && Quiet(c)
    requires JsrPushed(c)[JsrTarget(c).Whole] == 0x60
    ensures Run(c, 11).OpCodeCycle == 0
    ensures Run(c, 11).PC.Whole == (c.PC.Whole + 2) % 0x1_0000 && Run(c, 11).S == c.S
  {
    hide And;
    hide Flags.Byte;
    hide TickSpec;
    hide Table;
    hide Exec;
    hide DoubleRegister.Lower;
    hide DoubleRegister.Upper;
    hide DoubleRegister.Increment;
    hide ToByte;
    hide JsrPushed;
    hide JsrTarget;
    JsrThenFetch(c);
    var e := Run(c, 6);
    Rts(e);
    StackPointerSteps(c.S);
    JsrPushedBytes(c);
    ReturnAddress(c.PC);
    RunAdditive(c, 6, 5);
  }

  // ---------------------------------------------------------------------
  // Interrupt entry: IRQ, NMI and BRK (K6502/K6502_Instructions.cs:1948-1961, 281-286)
  // ---------------------------------------------------------------------

  /** The memory after an interrupt sequence's three pushes: PC high, PC low, then the status byte. */
  function InterruptPushed(m: Ram, s: Byte, pc: DoubleRegister, status: Byte): Ram
  {
    m[0x0100 + s := pc.Upper()][0x0100 + ToByte(s - 1) := pc.Lower()][0x0100 + ToByte(s - 2) := status]
  }

  /** The pushes write page one only: a vector outside it reads the same after them. */
  lemma PushedOutsideStack(m: Ram, s: Byte, pc: DoubleRegister, status: Byte, a: Word)
    requires a < 0x0100 || a >= 0x0200
    ensures InterruptPushed(m, s, pc, status)[a] == m[a]
  {
  }

  /**
   * The three pushes of an interrupt sequence: PC's high byte, its low byte
   * and the status byte go to `0x0100 + S`, S moving down each time.
   */
  lemma InterruptPushes(c: Cpu, status: PushSource)
    requires Valid(c) && 0 < c.OpCodeCycle && c.OpCodeCycle + 3 < |Table(c.OpCode)|
    requires Table(c.OpCode)[c.OpCodeCycle] == Stack(Push(PushPCUpper))
    requires Table(c.OpCode)[c.OpCodeCycle + 1] == Stack(Push(PushPCLower))
    requires Table(c.OpCode)[c.OpCodeCycle + 2] == Stack(Push(status))
    ensures TickSpec(c).OpCodeCycle == c.OpCodeCycle + 1 && TickSpec(TickSpec(c)).OpCodeCycle == c.OpCodeCycle + 2
    ensures var r := TickSpec(TickSpec(TickSpec(c)));
            && r.OpCodeCycle == c.OpCodeCycle + 3 && r.OpCode == c.OpCode
            && r.Memory == InterruptPushed(c.Memory, c.S, c.PC, PushValue(c, status)) && r.S == ToByte(c.S - 3)
            && r.A == c.A && r.X == c.X && r.Y == c.Y && r.P == c.P && r.PC == c.PC
  {
    hide And;
    hide Flags.Byte;
    hide TickSpec;
    hide Table;
    hide Exec;
    hide DoubleRegister.Lower;
    hide DoubleRegister.Upper;
    hide DoubleRegister.WithLower;
    hide DoubleRegister.WithUpper;
    hide DoubleRegister.AddToLower;
    hide DoubleRegister.Increment;
    hide ToByte;
    TickPush(c, PushPCUpper);
    var c1 := TickSpec(c);
    TickPush(c1, PushPCLower);
    var c2 := TickSpec(c1);
    TickPush(c2, status);
    StackPointerSteps(c.S);
  }

  /**
   * The last two steps of an interrupt sequence: PC is loaded from the
   * vector, low byte first, and the Interrupt flag is set.
   */
  lemma LoadVector(c: Cpu, v: Word)
    requires Valid(c) && 0 < c.OpCodeCycle == |Table(c.OpCode)| - 2 && v < 0xFFFF
    requires Table(c.OpCode)[c.OpCodeCycle] == Control(VectorLower(v))
    requires Table(c.OpCode)[c.OpCodeCycle + 1] == Control(VectorUpper(v + 1))
    ensures TickSpec(c).OpCodeCycle == c.OpCodeCycle + 1
    ensures var r := TickSpec(TickSpec(c));
            && r.OpCodeCycle == 0 && r.PC == Halves(c.Memory[v], c.Memory[v + 1]) && r.P == c.P.(Interrupt := true)
            && r.Memory == c.Memory && r.S == c.S && r.A == c.A && r.X == c.X && r.Y == c.Y
  {
    hide And;
    hide Flags.Byte;
    hide TickSpec;
    hide Table;
    hide Exec;
    hide DoubleRegister.Lower;
    hide DoubleRegister.Upper;
    hide DoubleRegister.WithLower;
    hide DoubleRegister.WithUpper;
    hide DoubleRegister.AddToLower;
    hide DoubleRegister.Increment;
    hide ToByte;
    TickVectorLower(c, v);
    TickVectorUpper(TickSpec(c), v + 1);
    HalvesOfRegister(TickSpec(TickSpec(c)).PC);
  }

  /** The vector an interrupt sequence loads PC from: 0x00FE for IRQ, 0x00FA for NMI, 0xFFFE for BRK. */
  function InterruptVector(op: nat): Word
  {
    if op == IrqOpCode then 0x00FE else if op == NmiOpCode then 0x00FA else 0xFFFE
  }

  lemma RowInterrupt(op: nat)
    requires op == IrqOpCode || op == NmiOpCode
    ensures Table(op) == [Cycle0, Implied(DummyReadPC), Stack(Push(PushPCUpper)), Stack(Push(PushPCLower)),
                          Stack(Push(PushStatusBreakClear)), Control(VectorLower(InterruptVector(op))), Control(VectorUpper(InterruptVector(op) + 1))]
  {
  }

  /**
   * The first four ticks of IRQ and NMI entry: a dummy read at PC, then PC
   * (not moved on) and the status byte with bit 4 clear are pushed.
   */
  lemma InterruptEntryPushes(c: Cpu)
    requires Valid(c) && (c.OpCode == IrqOpCode || c.OpCode == NmiOpCode) && c.OpCodeCycle == 1
    ensures TickSpec(c).OpCodeCycle == 2 && TickSpec(TickSpec(c)).OpCodeCycle == 3
    ensures TickSpec(TickSpec(TickSpec(c))).OpCodeCycle == 4
    ensures var r := TickSpec(TickSpec(TickSpec(TickSpec(c))));
            && Valid(r) && r.OpCodeCycle == 5 && r.OpCode == c.OpCode
            && r.Memory == InterruptPushed(c.Memory, c.S, c.PC, And(c.P.Byte(), 0xEF)) && r.S == ToByte(c.S - 3)
            && r.P == c.P && r.A == c.A && r.X == c.X && r.Y == c.Y
  {
    hide And;
    hide Flags.Byte;
    hide TickSpec;
    hide Table;
    hide Exec;
    hide DoubleRegister.Lower;
    hide DoubleRegister.Upper;
    hide DoubleRegister.WithLower;
    hide DoubleRegister.WithUpper;
    hide DoubleRegister.AddToLower;
    hide DoubleRegister.Increment;
    hide ToByte;
    hide InterruptPushed;
    RowInterrupt(c.OpCode);
    TickNoEffect(c, DummyReadPC);
    InterruptPushes(TickSpec(c), PushStatusBreakClear);
  }

  /**
   * IRQ and NMI entry, after CYCLE_0 switched to pseudo-opcode 256 or 257:
   * PC (not moved on) is pushed high byte first, then the status byte with
   * bit 4 clear; the Interrupt flag is set and PC is loaded from the vector
   * (7 cycles with CYCLE_0).
   */
  lemma InterruptEntry(c: Cpu)
    requires Valid(c) && (c.OpCode == IrqOpCode || c.OpCode == NmiOpCode) && c.OpCodeCycle == 1
    ensures Run(c, 1).OpCodeCycle == 2 && Run(c, 2).OpCodeCycle == 3 && Run(c, 3).OpCodeCycle == 4
    ensures Run(c, 4).OpCodeCycle == 5 && Run(c, 5).OpCodeCycle == 6 && Run(c, 6).OpCodeCycle == 0
    ensures var r, v := Run(c, 6), InterruptVector(c.OpCode);
            && r.Memory == InterruptPushed(c.Memory, c.S, c.PC, And(c.P.Byte(), 0xEF)) && r.S == ToByte(c.S - 3)
            && r.PC == Halves(c.Memory[v], c.Memory[v + 1]) && r.P == c.P.(Interrupt := true)
            && r.A == c.A && r.X == c.X && r.Y == c.Y
  {
    hide And;
    hide Flags.Byte;
    hide TickSpec;
    hide Table;
    hide Exec;
    hide DoubleRegister.Lower;
    hide DoubleRegister.Upper;
    hide DoubleRegister.WithLower;
    hide DoubleRegister.WithUpper;
    hide DoubleRegister.AddToLower;
    hide DoubleRegister.Increment;
    hide ToByte;
    hide InterruptPushed;
    InterruptEntryPushes(c);
    RowInterrupt(c.OpCode);
    var c4 := TickSpec(TickSpec(TickSpec(TickSpec(c))));
    var v := InterruptVector(c.OpCode);
    PushedOutsideStack(c.Memory, c.S, c.PC, And(c.P.Byte(), 0xEF), v);
    PushedOutsideStack(c.Memory, c.S, c.PC, And(c.P.Byte(), 0xEF), v + 1);
    LoadVector(c4, v);
    assert Run(c, 6) == TickSpec(TickSpec(c4));
  }

  lemma RowBrk()
    ensures Table(0x00) == [Cycle0, Reading(ReadImmediate(Discard)), Stack(Push(PushPCUpper)), Stack(Push(PushPCLower)),
                            Stack(Push(PushStatus)), Control(VectorLower(0xFFFE)), Control(VectorUpper(0xFFFF))]
  {
  }

  /**
   * The first four ticks of BRK: the padding byte is skipped and PC (moved
   * past it), then the status byte, are pushed.
   */
  lemma BrkPushes(c: Cpu)
    requires Valid(c) && c.OpCode == 0x00 && c.OpCodeCycle == 1
    ensures TickSpec(c).OpCodeCycle == 2 && TickSpec(TickSpec(c)).OpCodeCycle == 3
    ensures TickSpec(TickSpec(TickSpec(c))).OpCodeCycle == 4
    ensures var r := TickSpec(TickSpec(TickSpec(TickSpec(c))));
            && Valid(r) && r.OpCodeCycle == 5 && r.OpCode == 0x00
            && r.Memory == InterruptPushed(c.Memory, c.S, c.PC.Increment(), c.P.Byte()) && r.S == ToByte(c.S - 3)
            && r.P == c.P && r.A == c.A && r.X == c.X && r.Y == c.Y
  {
    hide And;
    hide Flags.Byte;
    hide TickSpec;
    hide Table;
    hide Exec;
    hide DoubleRegister.Lower;
    hide DoubleRegister.Upper;
    hide DoubleRegister.WithLower;
    hide DoubleRegister.WithUpper;
    hide DoubleRegister.AddToLower;
    hide DoubleRegister.Increment;
    hide ToByte;
    hide InterruptPushed;
    RowBrk();
    TickReadImmediate(c, Discard);
    InterruptPushes(TickSpec(c), PushStatus);
  }

  /**
   * BRK: the padding byte is skipped, PC is pushed high byte first, then the
   * status byte as `P.Byte` gives it; the Interrupt flag is set and PC is
   * loaded from 0xFFFE/0xFFFF (7 cycles with CYCLE_0).
   */
  lemma Brk(c: Cpu)
    requires Valid(c) && c.OpCode == 0x00 && c.OpCodeCycle == 1
    ensures Run(c, 1).OpCodeCycle == 2 && Run(c, 2).OpCodeCycle == 3 && Run(c, 3).OpCodeCycle == 4
    ensures Run(c, 4).OpCodeCycle == 5 && Run(c, 5).OpCodeCycle == 6 && Run(c, 6).OpCodeCycle == 0
    ensures var r := Run(c, 6);
            && r.Memory == InterruptPushed(c.Memory, c.S, c.PC.Increment(), c.P.Byte()) && r.S == ToByte(c.S - 3)
            && r.PC == Halves(c.Memory[0xFFFE], c.Memory[0xFFFF]) && r.P == c.P.(Interrupt := true)
            && r.A == c.A && r.X == c.X && r.Y == c.Y
  {
    hide And;
    hide Flags.Byte;
    hide TickSpec;
    hide Table;
    hide Exec;
    hide DoubleRegister.Lower;
    hide DoubleRegister.Upper;
    hide DoubleRegister.WithLower;
    hide DoubleRegister.WithUpper;
    hide DoubleRegister.AddToLower;
    hide DoubleRegister.Increment;
    hide ToByte;
    hide InterruptPushed;
    BrkPushes(c);
    RowBrk();
    var c4 := TickSpec(TickSpec(TickSpec(TickSpec(c))));
    PushedOutsideStack(c.Memory, c.S, c.PC.Increment(), c.P.Byte(), 0xFFFE);
    PushedOutsideStack(c.Memory, c.S, c.PC.Increment(), c.P.Byte(), 0xFFFF);
    LoadVector(c4, 0xFFFE);
    assert Run(c, 6) == TickSpec(TickSpec(c4));
  }
}
