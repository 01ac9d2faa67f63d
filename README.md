# K6502: a cycle-stepped MOS 6502 core in Dafny

This project models the execution core of the K6502 emulator: a MOS 6502 CPU
that advances one clock cycle per call of `Tick`. The model covers these parts:

- **Micro-op table.** Every opcode (plus the two pseudo-opcodes 256 = IRQ and
  257 = NMI) owns a row of per-cycle actions. Step 0 of every row is
  `CYCLE_0`, which either fetches the next opcode or switches to an interrupt
  sequence.
- **`Tick`.** It runs the current step of the current row. It samples the
  interrupt inputs at the row's polling step, then either moves to the next
  step or, after the last step or an `EndInstruction`, goes back to
  `CYCLE_0`.
- **Helpers and registers.** The ALU helpers (`SetFlagsZN`, `DoCompare`,
  `DoADC`/`DoSBC` with the NMOS decimal mode, the shifts and rotates), the
  status register with its packed byte, and the 16-bit `DoubleRegister`
  overlay.
- **The open-collector address bus and its memory components.** A read ANDs
  every covering component's byte into 0xFF. A write goes to every covering
  component. `Memory` and `MirroredMemory` are array-backed regions.

Each part is written in the form the source uses:

- **Pure model.** The per-cycle behaviour is the function `MicroOps.Exec`.
  One `Tick` is `Ticks.TickSpec`, and `n` ticks are `CpuProperties.Run`.
- **The CPU object.** `Processor.K6502` is a class with the source's fields.
  Its `Tick`, its helpers and all its per-cycle methods are proved to change
  the fields exactly as that pure model says.
- **Memory objects.** The status register, the memories and the bus are
  classes over the fields and arrays the source mutates. Each class has loop
  invariants where the source loops: the copy loop of the data constructor,
  and the read and write loops of the bus.

Whole instructions are then proved on `Run`, tick by tick (`InstructionTiming`):

- the 2/3/4 ticks of a branch, and its target;
- the page-cross penalty of LDA abs,X and LDA (zp),Y;
- the zero-page wrap of zp,X and (zp,X);
- the page bug of JMP (ind);
- the double write of read-modify-write;
- PHA/PLA and JSR/RTS as round trips;
- IRQ/NMI entry and BRK.

Every memory access the CPU makes is recorded in a trace, so dummy reads and
writes are visible.

Modules, one per file: `Bytes` (bytes.dfy), `Registers` (double_register.dfy),
`Extensions` (extensions.dfy), `Status` (status_register.dfy), `Alu` (alu.dfy),
`Memories` (memory.dfy), `AddressBus` (bus.dfy), `MicroOps` (micro_ops.dfy),
`OpcodeTable` (opcode_table.dfy), `Ticks` (tick.dfy), `Processor` (k6502.dfy),
`CpuProperties` (cpu_properties.dfy), `CycleSteps` (cycles.dfy),
`InstructionTiming` (instructions.dfy).

## Where the model follows the code over the documented behaviour

- The IRQ and NMI sequences load PC from 0x00FE/0x00FF and 0x00FA/0x00FB, as
  `IRQ_5`/`IRQ_6` and `NMI_5`/`NMI_6` are written
  (K6502/K6502_Instructions.cs:1952-1953 and :1960-1961). They do not use
  0xFFFE/0xFFFF and 0xFFFA/0xFFFB. BRK uses 0xFFFE/0xFFFF
  (K6502/K6502_Instructions.cs:285-286).
- Decimal SBC computes Carry and Overflow from the binary difference. It
  computes Zero and Negative from the decimal result, through `SetFlagsZN`
  (K6502/K6502.cs:204-211). They are not taken from the binary result.
- The status byte reads bits 4 and 5 as 1 (K6502/StatusRegister.cs:20-21).
  Bits 4 and 5 of a written byte are ignored. So `Byte` after `Byte := b` is
  `b | 0x30` (`Status.ByteRoundTrip`). Only the IRQ/NMI pushes clear bit 4.
  BRK and PHP push it set.
- `Tick` polls the inputs on the last index of a row: `OpCodeCycle == t - 1`,
  and step 1 of a two-step row (K6502/K6502.cs:68-70). It does not poll on the
  second-to-last step. An instruction that ends early through `EndInstruction`
  is therefore not polled in that run (`CpuProperties.PollsOnLastStep`).
- `CYCLE_0` tests `NmiFlag` and `IrqFlag`, which K6502/K6502.cs does not
  declare. They are taken to be `NMISignal` and `IRQSignal`, the latches the
  poll sets.
- Nothing clears `NMIEdgeDetector`. After an NMI is taken, the next poll
  latches `NMISignal` again (`CpuProperties.EndCycleSignals`).
- The bus calls `address.IsInRange(lo, hi)`, which the repository does not
  define. It is taken to be the same inclusive test as `InRange`
  (K6502/Extensions.cs:7).

## Model

| member | source | states |
|---|---|---|
| Registers.DoubleRegister.WithLower | K6502/DoubleRegister.cs:9-11 | writing `Lower` sets the low byte of the overlay and keeps `Upper`; `Whole` becomes `Upper * 0x100 + b` |
| Registers.DoubleRegister.WithUpper | K6502/DoubleRegister.cs:9-11 | writing `Upper` sets the high byte and keeps `Lower`; `Whole` becomes `b * 0x100 + Lower` |
| Registers.DoubleRegister.Increment | K6502/K6502_Instructions.cs:275 | `PC.Whole++` on a ushort: `Whole` becomes `(Whole + 1) % 0x10000` |
| Registers.DoubleRegister.AddToLower | K6502/K6502_Instructions.cs:1194 | `Address.Lower += n` wraps within the byte and never carries into `Upper` |
| Registers.Halves | K6502/DoubleRegister.cs:9-11 | the overlay with halves `lo` and `hi` has those halves and `Whole == hi * 0x100 + lo` |
| Registers.HalvesOfWord | K6502/DoubleRegister.cs:9-11 | a word built from two bytes splits back into the same two bytes |
| Registers.HalvesOfRegister | K6502/DoubleRegister.cs:9-11 | a register is determined by its two halves |
| Registers.IncrementWithoutCarry | K6502/K6502_Instructions.cs:275 | `Whole++` with `Lower != 0xFF` increments `Lower` alone |
| Registers.IncrementWithCarry | K6502/K6502_Instructions.cs:275 | `Whole++` with `Lower == 0xFF` clears `Lower` and carries into `Upper`, which wraps 0xFF to 0 |
| Registers.IncrementTwice | K6502/K6502_Instructions.cs:1165-1166 | two `PC.Whole++` move PC on by two, modulo 0x10000 |
| Extensions.InRangeBounds | K6502/Extensions.cs:7 | both ends of a non-empty range are in it, and `InRange` agrees with the inclusive `IsInRange(x, Start, End)` |
| Extensions.InvertedRangeIsEmpty | K6502/Extensions.cs:7 | a range whose start is past its end contains no address |
| Extensions.InRangeIndexIsValid | K6502/Memory.cs:12 | an address in range, minus `Start`, indexes the `End - Start + 1` cells the constructor allocates |
| Status.FlagAt | K6502/StatusRegister.cs:16-23 | the flag stored at bit `k` of the status byte is the one whose position is `k` (inverse of `Position`) |
| Status.Flags.With | K6502/StatusRegister.cs:5-12 | assigning one named flag sets that flag and keeps the other five |
| Status.FromByteReadsPositions | K6502/StatusRegister.cs:27-34 | the setter stores in each flag the bit of `value` at that flag's position (C=0, Z=1, I=2, D=3, V=6, N=7) |
| Status.ByteDigit | K6502/StatusRegister.cs:16-23 | bit `k` of the getter's byte is the flag stored at `k`, and bits 4 and 5 are 1 |
| Status.ByteHasBits45 | K6502/StatusRegister.cs:20-21 | the status byte always has bits 4 and 5 set |
| Status.ByteRoundTrip | K6502/StatusRegister.cs:14-35 | reading `Byte` after `Byte := b` gives `b \| 0x30` |
| Status.FlagsRoundTrip | K6502/StatusRegister.cs:14-35 | `Byte := Byte` leaves every flag unchanged |
| Status.BreakClearedByte | K6502/K6502_Instructions.cs:1951 | `P.Byte & 0xEF`, the byte IRQ/NMI push, has bit 4 clear and bit 5 set, and pulling it back restores every flag |
| Status.ByteDigitsWith | K6502/StatusRegister.cs:16-23 | after assigning one flag, that flag's bit of `Byte` is the new value and the other bits stay |
| Status.SettingFlagSetsOnlyItsBit | K6502/StatusRegister.cs:16-23 | setting one flag ORs its one-hot bit into `Byte` |
| Status.ClearingFlagClearsOnlyItsBit | K6502/StatusRegister.cs:16-23 | clearing one flag ANDs `Byte` with its one-cold mask |
| Status.SetOneFlagFromZero | K6502/StatusRegister.cs:38-48 | a register built from 0 with one flag set reads back `(1 << pos) \| 0x30` |
| Status.FromOnes | K6502/StatusRegister.cs:38-48 | a register built from 0xFF has all six flags set |
| Status.ClearOneFlagFromOnes | K6502/StatusRegister.cs:38-48 | a register built from 0xFF with one flag cleared reads back `~(1 << pos) \| 0x30` |
| Status.OneHotGetters | K6502/StatusRegister.cs:38-48 | a register built from a one-hot byte has exactly that flag set |
| Status.OneColdGetters | K6502/StatusRegister.cs:38-48 | a register built from a one-cold byte has exactly that flag clear |
| Status.StatusRegister.constructor | K6502/StatusRegister.cs:38-48 | each field is its bit of `initial` |
| Status.StatusRegister.SetByte | K6502/StatusRegister.cs:25-35 | the fields become the bits of `value`, and `Byte` then reads `value \| 0x30` |
| Status.StatusRegister.Set | K6502/StatusRegister.cs:5-12 | assigning one flag field changes that flag and no other |
| Alu.ZNMeaning | K6502/K6502.cs:101-108 | `SetFlagsZN`: Zero iff the value is 0, Negative iff bit 7 is set (`(val & 0x80) != 0`), other flags kept |
| Alu.CompareMeaning | K6502/K6502.cs:110-114 | `DoCompare`: Zero iff `reg == val`, Carry iff `reg >= val` unsigned, Negative is bit 7 of `reg - val`, nothing else changes |
| Alu.AddOverflow | K6502/K6502.cs:166-168 | the signed sum leaves -128..127 iff both operands have the same sign and the result's sign differs |
| Alu.SubtractOverflow | K6502/K6502.cs:217-220 | the signed difference leaves -128..127 iff the operands differ in sign and the result's sign differs from A's |
| Alu.BinaryAdcMeaning | K6502/K6502.cs:161-170 | binary ADC: A is `(A + val + C) % 256`, Carry iff the sum reaches 256, V is signed overflow, Z/N from the result, D and I kept |
| Alu.BinarySbcMeaning | K6502/K6502.cs:213-222 | binary SBC: A is `(A - val - borrow) % 256`, Carry iff no borrow, V is signed overflow, Z/N from the result |
| Alu.BinarySbcIsAdcOfComplement | K6502/K6502.cs:161-222 | binary SBC equals ADC of the complemented operand, `A + ~M + C`, in value and in every flag |
| Alu.AddFixup | K6502/K6502.cs:146-158 | the +6 fixup of a digit sum up to 19 leaves its units digit and passes 15 iff the sum passed 9 |
| Alu.SubtractFixup | K6502/K6502.cs:191-202 | the -6 fixup of a byte-wrapped digit difference leaves it in 0..9, and the byte passes 0xF iff the difference was negative |
| Alu.DecimalAdcDigits | K6502/K6502.cs:138-159 | on BCD operands the decimal ADC byte is the two digit sums with their tens dropped, and Carry is the tens of the high digit |
| Alu.DecimalSbcDigits | K6502/K6502.cs:191-211 | on BCD operands the decimal SBC byte is the two digit differences brought back into 0..9 |
| Alu.DecimalAdcSum | K6502/K6502.cs:138-159 | the decimal branch of ADC on BCD operands gives the BCD of the sum mod 100 and carries iff the sum reaches 100 |
| Alu.DecimalAdcAddsBcd | K6502/K6502.cs:118-160 | with decimal mode enabled and D set, ADC on valid BCD adds the two decimal numbers and the carry mod 100, carrying out at 100 |
| Alu.DecimalSbcDifference | K6502/K6502.cs:191-211 | the decimal branch of SBC on BCD operands gives the BCD of the difference mod 100 |
| Alu.DecimalSbcSubtractsBcd | K6502/K6502.cs:173-212 | with decimal mode enabled and D set, SBC on valid BCD subtracts the decimal numbers and the borrow mod 100, and Carry means no decimal borrow |
| Alu.DecimalSbcCarry | K6502/K6502.cs:204-207 | decimal SBC takes Carry from the binary difference, which on BCD operands is still "no decimal borrow" |
| Alu.DecimalAdcVectors | K6502/K6502.cs:122-160 | the decimal ADC test vectors (0x79+0x00+C = 0x80 with N and V set, 0x24+0x56 = 0x80, 0x93+0x82 = 0x75 with C and V set, ...) |
| Alu.DecimalAdcInvalidBcdVectors | K6502/K6502.cs:122-160 | on non-BCD operands the nibble fixups still run as written (0x80+0xF0 = 0xD0, 0x2F+0x4F = 0x74, ...) |
| Alu.DecimalSbcVectors | K6502/K6502.cs:177-212 | the decimal SBC test vectors (0x00-0x00 with borrow = 0x99 with N set, 0x00-0x00 = 0x00 with Z and C set, ...) |
| Alu.DecimalFlagIgnoredWhenDisabled | K6502/K6502.cs:118-122 | with decimal mode disabled, the D flag has no effect on ADC or SBC |
| Alu.ShiftsShiftInZero | K6502/K6502.cs:225-259 | ASL is ROL with Carry clear and LSR is ROR with Carry clear; ASL's Carry is bit 7, LSR's is bit 0, and 0 is shifted in |
| Alu.RorUndoesRol | K6502/K6502.cs:234-259 | ROR after ROL restores the byte and the Carry |
| Alu.RolUndoesRor | K6502/K6502.cs:234-259 | ROL after ROR restores the byte and the Carry |
| Memories.LoadedContents | K6502/Memory.cs:15-24 | the data constructor leaves the first `min(\|data\|, size)` bytes of `data`, then zeros |
| Memories.CopyData | K6502/Memory.cs:17-23 | the copy loop fills the array with exactly those contents, stopping at whichever end comes first |
| Memories.Memory.constructor | K6502/Memory.cs:9-13 | a zero-filled, writable region with one cell per address of the range |
| Memories.Memory.WithData | K6502/Memory.cs:15-24 | as above, then loaded with `data` as far as it fits |
| Memories.Memory.Write | K6502/Memory.cs:26-30 | a writable region stores `value` at cell `address - Start`, which then reads back `value`, and every other address is unchanged; a read-only region changes nothing |
| Memories.MirrorIndex | K6502/MirroredMemory.cs:14 | the cell of a mirrored address lies below the mirror size |
| Memories.MirrorAliases | K6502/MirroredMemory.cs:14-15 | addresses one mirror apart share a cell |
| Memories.MirroredMemory.constructor | K6502/MirroredMemory.cs:9 | a zero-filled, writable mirrored region |
| Memories.MirroredMemory.WithData | K6502/MirroredMemory.cs:10 | as above, loaded like `Memory` |
| Memories.MirroredMemory.Index | K6502/MirroredMemory.cs:14 | `(address - Start) % MirrorSize` is a valid cell of the array |
| Memories.MirroredMemory.Write | K6502/MirroredMemory.cs:15 | a writable region stores `value` in the address's cell, so every aliasing address (such as `address + MirrorSize`) reads it back; other cells are unchanged; a read-only region changes nothing |
| AddressBus.Device.Index | K6502/MirroredMemory.cs:14 | the cell a component's indexer uses for an accepted address lies inside its array |
| AddressBus.WriteDevice | K6502/Bus.cs:57 | a component's setter stores the value in the address's cell unless the component is read-only |
| AddressBus.CoveredIsAccepted | K6502/Bus.cs:47 | every address in a well-placed component's window is one its indexer accepts |
| AddressBus.DrivenCount | K6502/Bus.cs:46-48 | at most one byte per component is driven, and none exactly when no component covers the address |
| AddressBus.DrivenContains | K6502/Bus.cs:46-48 | every covering component's byte is among the driven bytes |
| AddressBus.DrivenAppend | K6502/Bus.cs:46-48 | the drivers of two component lists joined are the drivers of each, in order |
| AddressBus.AndAllAppend | K6502/Bus.cs:44-48 | merging two groups of drivers is the AND of the two merges |
| AddressBus.OrderIndependent | K6502/Bus.cs:42-48 | the open-collector merge does not depend on the order of the drivers |
| AddressBus.AndAllBelowEach | K6502/Bus.cs:42-48 | any one driver can pull a bit low: the merged byte has no bit set that a driver has clear |
| AddressBus.AndAllExamples | K6502/Bus.cs:42-50 | no driver reads 0xFF, one driver reads its own byte, and 0x0F with 0xF0 reads 0x00 |
| AddressBus.Bus.constructor | K6502/Bus.cs:10-14 | an empty component list and the given addressable size |
| AddressBus.Bus.WithComponents | K6502/Bus.cs:16-20 | the component list is the given one, in order |
| AddressBus.Bus.Add | K6502/Bus.cs:22-23 | appends `(offset, component)` after the earlier components and changes no memory |
| AddressBus.Bus.UndrivenReadsOnes | K6502/Bus.cs:44-50 | an address no component covers reads 0xFF |
| AddressBus.Bus.ReadBelowEachDriver | K6502/Bus.cs:42-48 | the byte read has no bit set that any covering component's byte lacks |
| AddressBus.Bus.RegistrationOrderIrrelevant | K6502/Bus.cs:46-48 | registering two groups of components in either order gives the same reads |
| AddressBus.Bus.Get | K6502/Bus.cs:40-51 | the getter's loop returns the AND of 0xFF with every covering component's byte |
| AddressBus.Bus.WriteComponent | K6502/Bus.cs:56-57 | one iteration of the setter writes a cell iff that component covers the address, maps it to that cell and is writable |
| AddressBus.Bus.Set | K6502/Bus.cs:53-58 | after the setter, a cell holds `value` iff some covering, writable component maps the address to it, other cells are unchanged, and every covering writable component reads back `value` (components may share an array) |
| MicroOps.Assign | K6502/K6502.cs:11-12 | assigning A, X or Y passes through `SetFlagsZN`, S does not; the register named reads back `v` and nothing but registers and flags changes |
| MicroOps.Apply | K6502/K6502_Instructions.cs:360-366 | using a read byte (ALU op, compare, load, BIT, discard, into Operand) changes only A, X, Y, P and Operand |
| MicroOps.PushByte | K6502/K6502_Instructions.cs:418 | `Memory[0x0100 + S--] = v` is one cycle with one access and keeps the opcode |
| MicroOps.ReadUsing | K6502/K6502_Instructions.cs:1159 | a read at `address` keeps the opcode, `Address` and PC and makes one access |
| MicroOps.FixPage | K6502/K6502_Instructions.cs:1231 | `Address.Upper++` is one cycle that keeps the opcode |
| MicroOps.BranchFetchStep | K6502/K6502_Instructions.cs:303-308 | fetching the branch offset is one cycle with one access |
| MicroOps.BranchAddStep | K6502/K6502_Instructions.cs:309-315 | adding the offset is one cycle and keeps the opcode |
| MicroOps.BranchFixStep | K6502/K6502_Instructions.cs:316-322 | fixing PC's page is one cycle and keeps the opcode |
| MicroOps.Exec | K6502/K6502.cs:63 | every step keeps the cycle counter, the configuration and the inputs, never raises a signal or un-ends an instruction, makes at most one access, and only CYCLE_0 changes the opcode (to one below 258) |
| MicroOps.Cycle0Step | K6502/K6502_Instructions.cs:254-276 | CYCLE_0 is one cycle with one access and leaves an opcode below 258 |
| MicroOps.FetchOpCode | K6502/K6502_Instructions.cs:275 | `OpCode = Memory[PC.Whole++]` leaves a real opcode below 256 |
| MicroOps.AddressStep | K6502/K6502_Instructions.cs:1151-1176 | the address and pointer fetches are single cycles that keep the opcode |
| MicroOps.ReadStep | K6502/K6502_Instructions.cs:1158-1167 | the immediate, zero-page and absolute reads are single cycles that keep the opcode |
| MicroOps.IndexedReadStep | K6502/K6502_Instructions.cs:1226-1238 | the indexed reads with their page test are single cycles that keep the opcode |
| MicroOps.WriteStep | K6502/K6502_Instructions.cs:1438-1452 | stores, read-modify-write writes and accumulator shifts are single cycles that keep the opcode |
| MicroOps.RegisterStep | K6502/K6502_Instructions.cs:1704-1775 | the implied register instructions are single cycles that keep the opcode |
| MicroOps.ControlStep | K6502/K6502_Instructions.cs:421-468 | branches, jumps and vector fetches are single cycles that keep the opcode |
| MicroOps.StackStep | K6502/K6502_Instructions.cs:410-459 | pushes and pulls are single cycles that keep the opcode |
| OpcodeTable.ReadRow | K6502/K6502_Instructions.cs:97-167 | a read instruction's row has 1 to 5 steps after CYCLE_0, none of them CYCLE_0 |
| OpcodeTable.EagerRow | K6502/K6502_Instructions.cs:612-620 | LDY abs,X, LDX abs,Y and NOP abs,X have 4 steps after CYCLE_0 |
| OpcodeTable.StoreRow | K6502/K6502_Instructions.cs:1082-1132 | a store's row has 2 to 5 steps, none of them CYCLE_0 |
| OpcodeTable.StoreHighRow | K6502/K6502_Instructions.cs:545-558 | SHY abs,X and SHX abs,Y have 4 steps |
| OpcodeTable.RmwRow | K6502/K6502_Instructions.cs:1438-1499 | a read-modify-write row has 4 to 6 steps |
| OpcodeTable.BranchRow | K6502/K6502_Instructions.cs:303-322 | a branch row has 3 steps |
| OpcodeTable.InterruptRow | K6502/K6502_Instructions.cs:1948-1961 | BRK, IRQ and NMI rows have 6 steps after CYCLE_0 |
| OpcodeTable.ControlRow | K6502/K6502_Instructions.cs:24-94 | the control group's rows have 1 to 6 steps, none of them CYCLE_0 |
| OpcodeTable.AluRow | K6502/K6502_Instructions.cs:97-167 | the ALU group's rows have 1 to 5 steps, none of them CYCLE_0 |
| OpcodeTable.RmwGroupRow | K6502/K6502_Instructions.cs:170-240 | the read-modify-write group's rows have 1 to 6 steps, none of them CYCLE_0 |
| Ticks.TableShape | K6502/K6502_Instructions.cs:21-251 | all 258 rows start with CYCLE_0, hold no other CYCLE_0 and have 2 to 7 steps; the x3/x7/xB/xF column is the two-step NOP; the interrupt rows have 7 steps |
| Ticks.EndCycle | K6502/K6502.cs:65-89 | after the poll and the counter update the state is again one `Tick` accepts |
| Ticks.TickSpec | K6502/K6502.cs:61-90 | one `Tick` leaves a known opcode, a step inside its row and no pending end |
| Ticks.PowerUp | K6502/K6502.cs:10-59 | the power-up state is valid and has made no memory access |
| CpuProperties.Run | K6502/K6502.cs:61-90 | `n` ticks keep the state valid and make at most `n` memory accesses, appended to the trace |
| CpuProperties.TickCounter | K6502/K6502.cs:83-89 | the step counter moves to the next step or back to 0; CYCLE_0 always goes on to step 1; the last step always goes back to 0 |
| CpuProperties.PollsOnLastStep | K6502/K6502.cs:68-70 | the poll condition, with its two-step special case, holds iff the row is not an interrupt sequence and this is its last step |
| CpuProperties.EndCycleSignals | K6502/K6502.cs:68-75 | at a poll IRQSignal is re-sampled from the level input and NMISignal is set by the edge input and never cleared; elsewhere neither changes |
| CpuProperties.Cycle0Priority | K6502/K6502_Instructions.cs:262-275 | CYCLE_0 enters NMI iff NMI is pending, IRQ iff no NMI and IRQ pending with I clear, and fetches an opcode otherwise |
| CpuProperties.Cycle0Effects | K6502/K6502_Instructions.cs:262-275 | CYCLE_0 reads at PC; entering an interrupt keeps PC and clears that signal; a fetch takes the opcode at PC and moves PC on by one |
| CpuProperties.RowJmpAbsolute | K6502/K6502_Instructions.cs:45 | the row of 0x4C is CYCLE_0, fetch address low, jump absolute |
| CpuProperties.PowerUpLoadsResetVector | K6502/K6502.cs:17-38 | from power-up, two ticks load PC from 0xFFFC/0xFFFD, read exactly those two cells, and return to CYCLE_0 |
| CpuProperties.CrossedIffCarry | K6502/K6502_Instructions.cs:1228 | `X > Address.Lower` after `Lower += X` holds iff the addition carried |
| CpuProperties.CarryIntoUpper | K6502/K6502_Instructions.cs:1228-1231 | after a carry, incrementing the high byte gives the 16-bit sum |
| CpuProperties.NoCarryIntoUpper | K6502/K6502_Instructions.cs:1233-1236 | without a carry the unfixed address already is the 16-bit sum |
| CpuProperties.IndexedAddress | K6502/K6502_Instructions.cs:1221-1239 | indexed addressing with the page fix yields `(base + index) % 0x10000` |
| CpuProperties.MiddleTick | K6502/K6502.cs:83-89 | a middle step that does not end the instruction runs, polls nothing and advances the counter |
| CpuProperties.EndingTick | K6502/K6502.cs:83-87 | a step that ends the instruction early runs, polls nothing and returns to CYCLE_0 |
| CpuProperties.LastTick | K6502/K6502.cs:68-87 | the last step runs, polls unless it is an interrupt sequence, and returns to CYCLE_0 |
| CycleSteps.StepTick | K6502/K6502.cs:61-90 | a tick after CYCLE_0 leaves the state the step left, with the counter at 0 if the step ended the instruction, else at the next step |
| CycleSteps.TickFetchAddressLower | K6502/K6502_Instructions.cs:1165 | `Address.Lower = Memory[PC.Whole++]`, registers and memory unchanged |
| CycleSteps.TickFetchAddressUpper | K6502/K6502_Instructions.cs:1166 | `Address.Upper = Memory[PC.Whole++]` |
| CycleSteps.TickFetchAddressUpperIndexed | K6502/K6502_Instructions.cs:1221-1225 | the high byte is fetched, then the index is added to the low byte without carry |
| CycleSteps.TickIndexZeroPage | K6502/K6502_Instructions.cs:1194 | `Address.Lower += X` wraps within page zero |
| CycleSteps.TickPointerAddX | K6502/K6502_Instructions.cs:1152 | a dummy read of the pointer, then `Operand += X` within page zero |
| CycleSteps.TickFetchPointerLower | K6502/K6502_Instructions.cs:1153 | `Address.Lower = Memory[Operand]` |
| CycleSteps.TickFetchPointerUpper | K6502/K6502_Instructions.cs:1172-1176 | the pointer's high byte comes from `(Operand + 1) & 0xff`, then Y is added to the low byte for (zp),Y |
| CycleSteps.TickReadImmediate | K6502/K6502_Instructions.cs:1151 | the byte at PC is used and PC moves on |
| CycleSteps.TickReadToOperand | K6502/K6502_Instructions.cs:1439 | `Operand = Memory[address]` at the zero-page or absolute address |
| CycleSteps.TickLoadA | K6502/K6502_Instructions.cs:1167 | `A = SetFlagsZN(Memory[address])` and the instruction ends |
| CycleSteps.TickLoadAIndexed | K6502/K6502_Instructions.cs:1226-1238 | without a page cross, A is loaded from the indexed address and the instruction ends |
| CycleSteps.TickFixPage | K6502/K6502_Instructions.cs:1228-1232 | after a page cross, a dummy read of the unfixed address and `Address.Upper++` |
| CycleSteps.TickRmwWriteBack | K6502/K6502_Instructions.cs:1440-1444 | the unmodified byte is written back, then the operation is applied to `Operand` and the flags |
| CycleSteps.TickRmwWriteResult | K6502/K6502_Instructions.cs:1445 | the result is written to the same address |
| CycleSteps.TickNoEffect | K6502/K6502_Instructions.cs:1478 | a dummy read at PC and JSR's idle step change nothing but the trace |
| CycleSteps.TickPush | K6502/K6502_Instructions.cs:418 | the pushed byte is written at `0x0100 + S`, then S is decremented within page one |
| CycleSteps.TickIncrementS | K6502/K6502_Instructions.cs:458 | `S++` within page one |
| CycleSteps.TickPullA | K6502/K6502_Instructions.cs:459 | `A = SetFlagsZN(Memory[0x0100 + S])` |
| CycleSteps.TickPullPCLower | K6502/K6502_Instructions.cs:452 | `PC.Lower = Memory[0x0100 + S++]` |
| CycleSteps.TickPullPCUpper | K6502/K6502_Instructions.cs:453 | `PC.Upper = Memory[0x0100 + S]` |
| CycleSteps.TickIncrementPC | K6502/K6502_Instructions.cs:454 | `PC.Whole++` as RTS's last step |
| CycleSteps.TickJumpAbsolute | K6502/K6502_Instructions.cs:422 | PC takes the fetched low byte and the byte at PC |
| CycleSteps.TickJumpIndirect | K6502/K6502_Instructions.cs:464-468 | PC's high byte is read from the pointer's low byte plus one on the same page |
| CycleSteps.TickVectorLower | K6502/K6502_Instructions.cs:1952 | PC's low byte from the vector, and I is set |
| CycleSteps.TickVectorUpper | K6502/K6502_Instructions.cs:1953 | PC's high byte from the vector |
| CycleSteps.TickBranchFetch | K6502/K6502_Instructions.cs:303-308 | the offset is fetched, and the instruction ends there iff the branch is not taken |
| CycleSteps.TickBranchAdd | K6502/K6502_Instructions.cs:309-315 | the offset is added to PC's low byte, and the instruction ends iff the signed sum stayed on the page |
| CycleSteps.TickBranchFixPage | K6502/K6502_Instructions.cs:316-322 | PC's high byte moves one page down or up |
| CycleSteps.TickKeepsQuiet | K6502/K6502.cs:68-75 | with both inputs quiet, no poll raises a signal |
| CycleSteps.TickFetchOpCode | K6502/K6502_Instructions.cs:274-275 | with no interrupt to take, CYCLE_0 fetches the opcode at PC, moves PC on and goes to step 1 |
| InstructionTiming.OperandBase | K6502/K6502_Instructions.cs:1165-1166 | the two address fetches leave the little-endian operand word in `Address` |
| InstructionTiming.AbsoluteIndexed | K6502/K6502_Instructions.cs:1220-1239 | the page-cross test holds iff the low-byte addition carries, and the fixed address is the base plus the index mod 0x10000 |
| InstructionTiming.StackPointerSteps | K6502/K6502_Instructions.cs:352-355 | S wraps within page one across pushes and pulls, and successive push slots differ |
| InstructionTiming.FetchAbsoluteIndexed | K6502/K6502_Instructions.cs:1220-1225 | the first two ticks of abs,X/abs,Y fetch the operand, add the index to its low byte and move PC past it |
| InstructionTiming.LoadAAfterPageCross | K6502/K6502_Instructions.cs:1226-1239 | after a page cross the high byte is fixed, A is loaded from the fixed address with Z and N set from it, and PC and memory are unchanged |
| InstructionTiming.LdaAbsoluteXSamePage | K6502/K6502_Instructions.cs:1220-1239 | LDA abs,X without a page cross takes 3 ticks after CYCLE_0, loads A from the operand plus X with Z and N from that byte, moves PC past the operand and leaves memory unchanged |
| InstructionTiming.LdaAbsoluteXCrossPage | K6502/K6502_Instructions.cs:1220-1239 | LDA abs,X across a page takes 4 ticks after CYCLE_0, loads A from the operand plus X mod 0x10000 with Z and N from that byte, moves PC past the operand and leaves memory unchanged |
| InstructionTiming.LdaZeroPageX | K6502/K6502_Instructions.cs:1193-1195 | LDA zp,X takes 3 ticks and loads A from `(zp + X) & 0xff`, never from page one, with Z and N from that byte; memory is unchanged |
| InstructionTiming.FetchIndirectX | K6502/K6502_Instructions.cs:1151-1154 | the first four ticks of LDA (zp,X) read the pointer at `(zp + X) & 0xff`, its high byte from the next zero-page cell |
| InstructionTiming.LdaIndirectX | K6502/K6502_Instructions.cs:1151-1155 | LDA (zp,X) takes 5 ticks and loads A through the zero-page pointer at `(zp + X) & 0xff`, with Z and N from that byte; memory is unchanged |
| InstructionTiming.FetchIndirectY | K6502/K6502_Instructions.cs:1170-1176 | the first three ticks of LDA (zp),Y read the pointer, its high byte from `(zp + 1) & 0xff`, and add Y to its low byte |
| InstructionTiming.LdaIndirectYSamePage | K6502/K6502_Instructions.cs:1170-1190 | LDA (zp),Y without a page cross takes 4 ticks and loads A from the pointer plus Y with Z and N from that byte; memory is unchanged |
| InstructionTiming.LdaIndirectYCrossPage | K6502/K6502_Instructions.cs:1170-1190 | LDA (zp),Y across a page takes 5 ticks and loads A from the pointer plus Y mod 0x10000 with Z and N from that byte; memory is unchanged |
| InstructionTiming.FetchJmpPointer | K6502/K6502_Instructions.cs:461-465 | the first three ticks of JMP (ind) fetch the pointer and the byte it points at |
| InstructionTiming.JmpIndirect | K6502/K6502_Instructions.cs:461-468 | JMP (ind) takes 4 ticks; PC's high byte comes from the next cell of the pointer's page, without a carry into the page |
| InstructionTiming.IncrementThenAdd | K6502/K6502_Instructions.cs:305-311 | moving PC past the offset and adding the offset is adding offset + 1 mod 0x10000 |
| InstructionTiming.BranchTargetSamePage | K6502/K6502_Instructions.cs:311-314 | within the page, adding the offset to the low byte adds the signed offset to PC |
| InstructionTiming.BranchTargetCrossPage | K6502/K6502_Instructions.cs:316-322 | off the page, the reverse test picks the right page fix and PC is the 16-bit sum with the signed offset |
| InstructionTiming.BranchBackCrossPage | K6502/K6502_Instructions.cs:318-319 | a backward branch off the page: the reverse test is non-negative and the high byte goes down by one |
| InstructionTiming.BranchForwardCrossPage | K6502/K6502_Instructions.cs:320-321 | a forward branch off the page: the reverse test is negative and the high byte goes up by one |
| InstructionTiming.BranchNotTaken | K6502/K6502_Instructions.cs:303-308 | a branch not taken takes 1 tick after CYCLE_0 and leaves PC past the offset, registers and memory unchanged |
| InstructionTiming.BranchTakenSamePage | K6502/K6502_Instructions.cs:303-315 | a branch taken within the page takes 2 ticks and PC is the destination |
| InstructionTiming.BranchTakenCrossPage | K6502/K6502_Instructions.cs:303-322 | a branch taken to another page takes 3 ticks and PC is the destination |
| InstructionTiming.RmwWrites | K6502/K6502_Instructions.cs:1440-1445 | read-modify-write writes the old byte and then the result to the same address, in that order, with the operation's flags |
| InstructionTiming.ZeroPageRmwRead | K6502/K6502_Instructions.cs:1438-1439 | the first two ticks of a zero-page read-modify-write read the byte at the zero-page address into `Operand` |
| InstructionTiming.ZeroPageReadModifyWrite | K6502/K6502_Instructions.cs:1438-1445 | ASL/ROL/LSR/ROR/DEC/INC zp take 4 ticks, write the old byte then the result, and leave the operation's flags |
| InstructionTiming.RunAdditive | K6502/K6502.cs:61-90 | `a + b` ticks are `a` ticks followed by `b` ticks |
| InstructionTiming.RunKeepsQuiet | K6502/K6502.cs:68-75 | with both inputs quiet, no signal is raised over any number of ticks |
| InstructionTiming.FetchNext | K6502/K6502_Instructions.cs:274-275 | with no interrupt, CYCLE_0 fetches the next opcode and changes no register but PC |
| InstructionTiming.Pha | K6502/K6502_Instructions.cs:417-418 | PHA takes 2 ticks, writes A at `0x0100 + S` and decrements S |
| InstructionTiming.Pla | K6502/K6502_Instructions.cs:457-459 | PLA takes 3 ticks, increments S and loads A from `0x0100 + S` with Z and N |
| InstructionTiming.PhaThenPla | K6502/K6502_Instructions.cs:417-459 | PHA then PLA with no interrupt restore A and S |
| InstructionTiming.JsrPushedBytes | K6502/K6502_Instructions.cs:354-355 | JSR pushes the high byte of its return address at `0x0100 + S` and the low byte below it |
| InstructionTiming.ReturnAddress | K6502/K6502_Instructions.cs:450-454 | the pulled return address plus one is three bytes past JSR's opcode |
| InstructionTiming.JsrPushes | K6502/K6502_Instructions.cs:352-355 | the first four ticks of JSR fetch the target's low byte and push the address of JSR's last byte, high byte first |
| InstructionTiming.Jsr | K6502/K6502_Instructions.cs:352-356 | JSR takes 5 ticks, pushes the return address, lowers S by two and jumps to the target |
| InstructionTiming.PulledAddress | K6502/K6502_Instructions.cs:452-454 | the two pulled bytes plus one form the 16-bit resume address |
| InstructionTiming.RtsPulls | K6502/K6502_Instructions.cs:450-453 | the first four ticks of RTS raise S and pull the return address into PC, low byte first |
| InstructionTiming.Rts | K6502/K6502_Instructions.cs:450-454 | RTS takes 5 ticks, raises S by two and resumes one byte past the pulled address |
| InstructionTiming.JsrThenFetch | K6502/K6502_Instructions.cs:352-356 | after JSR, CYCLE_0 fetches the target's opcode from the memory after the pushes |
| InstructionTiming.JsrThenRts | K6502/K6502_Instructions.cs:352-454 | JSR to an RTS, with no interrupt, resumes three bytes past JSR's opcode with S restored |
| InstructionTiming.PushedOutsideStack | K6502/K6502_Instructions.cs:1949-1951 | the interrupt pushes write page one only |
| InstructionTiming.InterruptPushes | K6502/K6502_Instructions.cs:1949-1951 | PC high, PC low and the status byte are written at `0x0100 + S`, S moving down by one each time |
| InstructionTiming.LoadVector | K6502/K6502_Instructions.cs:1952-1953 | the last two steps load PC from the vector, low byte first, and set I |
| InstructionTiming.InterruptEntryPushes | K6502/K6502_Instructions.cs:1948-1951 | the first four ticks of IRQ/NMI entry push PC (not moved on) and `P.Byte & 0xEF` |
| InstructionTiming.InterruptEntry | K6502/K6502_Instructions.cs:1948-1961 | IRQ/NMI entry takes 6 ticks, pushes PC and `P.Byte & 0xEF`, sets I and loads PC from 0x00FE or 0x00FA |
| InstructionTiming.BrkPushes | K6502/K6502_Instructions.cs:281-284 | the first four ticks of BRK skip the padding byte and push PC and `P.Byte` |
| InstructionTiming.Brk | K6502/K6502_Instructions.cs:281-286 | BRK takes 6 ticks, pushes the moved-on PC and `P.Byte`, sets I and loads PC from 0xFFFE/0xFFFF |
| Processor.InitInstructions | K6502/K6502_Instructions.cs:21-251 | after the listed rows, the fill loop and the interrupt rows, every one of the 258 slots holds its row of the table |
| Processor.K6502.constructor | K6502/K6502.cs:53-59 | the fields equal the power-up state and the table is built |
| Processor.K6502.Tick | K6502/K6502.cs:61-90 | one call changes the fields exactly as `TickSpec` says and keeps the object valid |
| Processor.K6502.FinishCycle | K6502/K6502.cs:65-89 | the poll and the counter update match `EndCycle` |
| Processor.K6502.PollInputs | K6502/K6502.cs:72-74 | IRQSignal takes the level input; NMISignal is set by the edge input |
| Processor.K6502.SetIRQ | K6502/K6502.cs:92 | raises the IRQ level input and changes nothing else |
| Processor.K6502.ClearIRQ | K6502/K6502.cs:93 | lowers the IRQ level input and changes nothing else |
| Processor.K6502.SetNMI | K6502/K6502.cs:95 | records an NMI edge and changes nothing else |
| Processor.K6502.EndInstruction | K6502/K6502.cs:97 | marks the instruction ended and changes nothing else |
| Processor.K6502.DummyRead | K6502/K6502_Instructions.cs:264 | a read whose value is discarded is still recorded in the trace |
| Processor.K6502.ReadMemory | K6502/K6502.cs:34 | the getter returns the byte at the address and records the read |
| Processor.K6502.WriteMemory | K6502/K6502.cs:34 | the setter stores the byte at the address and records the write |
| Processor.K6502.SetFlagsZN | K6502/K6502.cs:101-108 | returns its argument and sets Z and N from it |
| Processor.K6502.AssignRegister | K6502/K6502.cs:10-12 | the X and Y setters pass through `SetFlagsZN` |
| Processor.K6502.DoCompare | K6502/K6502.cs:110-114 | sets Carry, Zero and Negative as `Compare` |
| Processor.K6502.DoADC | K6502/K6502.cs:118-171 | A and the flags become those of `Adc` |
| Processor.K6502.DoSBC | K6502/K6502.cs:173-223 | A and the flags become those of `Sbc` |
| Processor.K6502.DoModify | K6502/K6502.cs:225-259 | returns the shifted, rotated, incremented or decremented byte and sets the flags as `Modify` |
| Processor.K6502.UseAccumulator | K6502/K6502_Instructions.cs:710 | ORA, AND, EOR, ADC and SBC combine the read byte into A as `Apply` |
| Processor.K6502.UseCompare | K6502/K6502_Instructions.cs:1254 | CMP, CPX and CPY set the flags as `Apply` |
| Processor.K6502.UseLoad | K6502/K6502_Instructions.cs:1162 | LDA, LDX and LDY load the register with Z and N as `Apply` |
| Processor.K6502.UseOther | K6502/K6502_Instructions.cs:360-366 | BIT sets V, N and Z; a discarded read changes nothing; a read into Operand stores it |
| Processor.K6502.Use | K6502/K6502_Instructions.cs:995 | the read byte is used as the instruction says |
| Processor.K6502.Step | K6502/K6502.cs:63 | one step of a row changes the fields exactly as `Exec` |
| Processor.K6502.AddressCycle | K6502/K6502_Instructions.cs:1151-1176 | the address fetches change the fields as `AddressStep` |
| Processor.K6502.ReadCycle | K6502/K6502_Instructions.cs:1158-1167 | the plain reads change the fields as `ReadStep` |
| Processor.K6502.IndexedReadCycle | K6502/K6502_Instructions.cs:1226-1238 | the indexed reads change the fields as `IndexedReadStep` |
| Processor.K6502.WriteCycle | K6502/K6502_Instructions.cs:1438-1452 | the writes change the fields as `WriteStep` |
| Processor.K6502.RegisterCycle | K6502/K6502_Instructions.cs:1704-1775 | the implied instructions change the fields as `RegisterStep` |
| Processor.K6502.ControlCycle | K6502/K6502_Instructions.cs:421-468 | branches, jumps and vectors change the fields as `ControlStep` |
| Processor.K6502.StackCycle | K6502/K6502_Instructions.cs:410-459 | pushes and pulls change the fields as `StackStep` |
| Processor.K6502.Cycle0 | K6502/K6502_Instructions.cs:254-276 | CYCLE_0 enters NMI, else an unmasked IRQ, else fetches the opcode, as `Cycle0Step` |
| Processor.K6502.FetchOpCodeCycle | K6502/K6502_Instructions.cs:275 | `OpCode = Memory[PC.Whole++]` |
| Processor.K6502.FetchAddressLowerCycle | K6502/K6502_Instructions.cs:1165 | `Address.Lower = Memory[PC.Whole++]` |
| Processor.K6502.FetchAddressUpperCycle | K6502/K6502_Instructions.cs:1166 | `Address.Upper = Memory[PC.Whole++]` |
| Processor.K6502.FetchAddressUpperIndexedCycle | K6502/K6502_Instructions.cs:1221-1225 | the high byte, then `Address.Lower += index` |
| Processor.K6502.IndexZeroPageCycle | K6502/K6502_Instructions.cs:1194 | `Address.Lower += index` within page zero |
| Processor.K6502.PointerAddXCycle | K6502/K6502_Instructions.cs:1152 | a dummy read of the pointer, then `Operand += X` |
| Processor.K6502.FetchPointerLowerCycle | K6502/K6502_Instructions.cs:1153 | `Address.Lower = Memory[Operand]` |
| Processor.K6502.FetchPointerUpperCycle | K6502/K6502_Instructions.cs:1172-1176 | `Address.Upper = Memory[(Operand + 1) & 0xff]`, then Y added for (zp),Y |
| Processor.K6502.ReadImmediateCycle | K6502/K6502_Instructions.cs:1162 | the byte at PC is used and PC moves on |
| Processor.K6502.ReadZeroPageCycle | K6502/K6502_Instructions.cs:1159 | the byte at the zero-page address is used |
| Processor.K6502.ReadAbsoluteCycle | K6502/K6502_Instructions.cs:1167 | the byte at the absolute address is used |
| Processor.K6502.ReadUsingCycle | K6502/K6502_Instructions.cs:1167 | the byte at `address` is read, recorded and used |
| Processor.K6502.FixPageCycle | K6502/K6502_Instructions.cs:1231 | `Address.Upper++` |
| Processor.K6502.ReadIndexedCycle | K6502/K6502_Instructions.cs:1226-1238 | on a page cross a dummy read and the page fix; else the read, and the instruction ends |
| Processor.K6502.ReadIndexedEagerCycle | K6502/K6502_Instructions.cs:612-619 | the read first, then the page fix or the end |
| Processor.K6502.ReadFixingPageCycle | K6502/K6502_Instructions.cs:1124-1131 | the read, then the page fix; the instruction never ends here |
| Processor.K6502.StoreZeroPageCycle | K6502/K6502_Instructions.cs:1084 | `Memory[Address.Lower] = src` |
| Processor.K6502.StoreAbsoluteCycle | K6502/K6502_Instructions.cs:1094 | `Memory[Address.Whole] = src` |
| Processor.K6502.StoreHighMaskedCycle | K6502/K6502_Instructions.cs:557-558 | `Memory[Address.Whole] = src & (Address.Upper + 1)` |
| Processor.K6502.RmwWriteBackCycle | K6502/K6502_Instructions.cs:1440-1444 | the old byte is written back, then the operation runs on `Operand` |
| Processor.K6502.RmwWriteResultCycle | K6502/K6502_Instructions.cs:1445 | the result is written |
| Processor.K6502.ShiftAccumulatorCycle | K6502/K6502_Instructions.cs:1448-1452 | a dummy read at PC, then the shift or rotate of A |
| Processor.K6502.DummyReadPCCycle | K6502/K6502_Instructions.cs:1478 | `_ = Memory[PC.Whole]` |
| Processor.K6502.SetFlagCycle | K6502/K6502_Instructions.cs:331 | one flag assigned |
| Processor.K6502.IncrementRegisterCycle | K6502/K6502_Instructions.cs:670 | the register incremented with Z and N |
| Processor.K6502.DecrementRegisterCycle | K6502/K6502_Instructions.cs:1775 | the register decremented with Z and N |
| Processor.K6502.TransferCycle | K6502/K6502_Instructions.cs:1731 | one register copied to another, with Z and N unless the target is S |
| Processor.K6502.StopCycle | K6502/K6502_Instructions.cs:1431-1435 | STP changes nothing |
| Processor.K6502.IdleCycle | K6502/K6502_Instructions.cs:353 | JSR's internal step changes nothing |
| Processor.K6502.BranchFetchCycle | K6502/K6502_Instructions.cs:303-308 | the offset is fetched and the instruction ends unless the branch is taken |
| Processor.K6502.BranchAddCycle | K6502/K6502_Instructions.cs:309-315 | `PC.Lower += Operand`, ending unless the signed sum left the page |
| Processor.K6502.BranchFixPageCycle | K6502/K6502_Instructions.cs:316-322 | PC's high byte moved one page down or up |
| Processor.K6502.IncrementPCCycle | K6502/K6502_Instructions.cs:454 | `PC.Whole++` |
| Processor.K6502.JumpAbsoluteCycle | K6502/K6502_Instructions.cs:422 | PC from `Address.Lower` and the byte at PC |
| Processor.K6502.JumpIndirectCycle | K6502/K6502_Instructions.cs:464-468 | PC from `Operand` and the next cell of the pointer's page |
| Processor.K6502.VectorLowerCycle | K6502/K6502_Instructions.cs:1952 | PC's low byte from the vector, and I set |
| Processor.K6502.VectorUpperCycle | K6502/K6502_Instructions.cs:1953 | PC's high byte from the vector |
| Processor.K6502.PushCycle | K6502/K6502_Instructions.cs:418 | `Memory[0x0100 + S--] = value` |
| Processor.K6502.PushByteCycle | K6502/K6502_Instructions.cs:282 | the byte written at `0x0100 + S`, then S decremented |
| Processor.K6502.IncrementSCycle | K6502/K6502_Instructions.cs:451 | `S++` |
| Processor.K6502.PullStatusByte | K6502/K6502_Instructions.cs:371 | `P.Byte = Memory[0x0100 + S]` |
| Processor.K6502.PullStatusCycle | K6502/K6502_Instructions.cs:371 | PLP's pull of P |
| Processor.K6502.PullStatusIncrementCycle | K6502/K6502_Instructions.cs:412 | RTI's pull of P, then `S++` |
| Processor.K6502.PullPCLowerCycle | K6502/K6502_Instructions.cs:452 | `PC.Lower = Memory[0x0100 + S++]` |
| Processor.K6502.PullPCUpperCycle | K6502/K6502_Instructions.cs:453 | `PC.Upper = Memory[0x0100 + S]` |
| Processor.K6502.PullACycle | K6502/K6502_Instructions.cs:459 | `A = SetFlagsZN(Memory[0x0100 + S])` |

## Left out

- Processor.K6502.constructor: the CPU's memory is a total 64 KiB array. The
  source's CPU holds any `IAddressable<byte>`, normally a `Bus`
  (K6502/K6502.cs:34,53-57). In the model every write sticks and every address
  reads back its last write. An unmapped address does not read 0xFF. A
  read-only component does not drop writes. No device reacts to being read.
- MicroOps.Store: the CPU's writes go to the 64 KiB array. The bus, the
  memories and the mirrors are modelled and proved on their own, but they are
  not connected to the CPU.
- Memories.Memory.Write: requires the address to be in range. The source
  indexes `address - Start` and throws `IndexOutOfRangeException` outside the
  range. The model demands the precondition instead of modelling the
  exception. The same holds for the getter, `Memories.Memory.Read`.
- Memories.MirroredMemory.Write: requires `address >= Start`, and a mirror size
  from 1 to the range size. The source throws for a negative index, for a
  mirror larger than the array and for a zero mirror size
  (`DivideByZeroException`). The same holds for `Memories.MirroredMemory.Read`.
- Memories.Memory.constructor: requires a range of non-negative size, because
  `new byte[n]` throws for a negative `n`. The same holds for
  `Memories.Memory.WithData` and for the `Memories.MirroredMemory` constructors.
- AddressBus.Bus.Add: the model's `Valid()` asks every registered entry to be
  `EntryValid`. `EntryValid` includes `FitsAt`: the component's indexer
  accepts its whole window. `Get` and `Set` require `Valid()`. In the source,
  a misplaced component throws at the first access to its window instead.
- AddressBus.Device: the bus holds only the two memory classes (`Ram | Mirror`).
  The source accepts any `IAddressable<byte>`, including another `Bus` or a
  host device.
- AddressBus.Device.AddressableSize: in the source, `Memory` and
  `MirroredMemory` derive from `Component`. `Component` indexes by `ushort`
  (K6502/Component.cs:10), does not implement `IAddressable<byte>` (which
  indexes by `int`, K6502/IAddressable.cs:10) and has no `AddressableSize`.
  So the source cannot register them on a `Bus` as written. The model
  registers them as if they implemented the interface. Their addressable size
  is their range size, and the bus address is narrowed to a 16-bit word.
- Processor.K6502.StopCycle: STP's `Debug.WriteLine` (K6502/K6502_Instructions.cs:1434)
  is output only and is left out. STP otherwise does nothing.
- AddressBus.Bus.WithComponents: the bus's enumerator (K6502/Bus.cs:26-30) is
  not modelled. The component list is the sequence `Components` itself. The
  bus's own `IsReadonly` property is kept but, as in the source, never
  consulted.
- Processor.K6502.State: the public debugging getters (`GetA` ... `GetMemory`,
  K6502/K6502.cs:23-31) are not separate members. The state they expose is
  `State()`.
- Interrupt hijacking (an NMI taking over a BRK or IRQ sequence) is not
  implemented by the source (K6502/K6502.cs:77-81) and is not modelled.
- InstructionTiming: whole-instruction lemmas over `Run` cover these
  instructions:
  - LDA in the abs,X, zp,X, (zp,X) and (zp),Y modes;
  - JMP (ind);
  - the eight branches;
  - the zero-page read-modify-write instructions;
  - PHA, PLA, JSR, RTS, BRK, and IRQ/NMI entry.

  Every other row, such as the other addressing modes of the ALU,
  read-modify-write and store groups, PHP, PLP and RTI, is modelled by
  `Exec` and by the per-step lemmas of `CycleSteps`. Those rows have no lemma
  over `Run` of their own.
- MicroOps.AddressStep: the per-step functions `AddressStep`, `ReadStep`,
  `IndexedReadStep`, `WriteStep`, `RegisterStep`, `ControlStep` and
  `StackStep` state only what every step preserves (`OneCycle`). What each
  step does is given by its body, and is stated field by field by the
  matching `CycleSteps` lemma.
