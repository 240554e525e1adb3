# chip-e CHIP-8 interpreter core in Dafny

This project models the interpreter core of chip-e, a CHIP-8 emulator. The core has two parts:

- **The `CPU`.** It holds 4 KiB of memory, sixteen 8-bit registers V0..VF, the index register I, the program counter, a 64×32 framebuffer, two timers, a 16-entry call stack and 16 key latches. Its methods are:
  - `initialize`, which loads the built-in font;
  - the byte-copy loop of `load_program`;
  - `emulate_cycle`, which fetches a word and decodes it;
  - `update_timers`;
  - `wait_for_key` and `handle_key_event`;
  - `clear_display`;
  - `draw`, the sprite XOR with collision flag.
- **The opcode decoder `decode_opcode`.** It applies one 16-bit opcode to the `CPU` in place.

The model follows the Rust code's own form, in three layers:

- **Values.** `Chip8.Machine` is the whole CPU state as a value. Each operation has a specification function on `Machine` that returns an `Outcome`:
  - `Next(m)` is the new state;
  - `Stop(fault)` names why the process would end.
- **Faults.** Faults stand for the program's panics and its `process::exit(0)`:
  - u16 overflow of `pc` or `sp`;
  - an array index out of range;
  - `exit(0)` when the fetch address is past memory;
  - an unknown FX?? opcode.
- **Objects.** `Chip8.CPU` is a class over arrays. Its methods update the arrays in place, with the same loops as the source. Each method is proved to leave `View()` equal to the specification function's result. A faulting call reports the fault; the state after a fault is left unconstrained, because the process ends there.

The properties the source promises are proved as lemmas about the specification functions:

- what each instruction does and does not change;
- the carry, borrow and shift flags;
- BCD digits;
- the register dump/load round trip;
- the call/return pair;
- clipping and collision in `draw`;
- how timers count down and beep;
- suspension while waiting for a key;
- invariants kept across any number of cycles.

Integer widths are explicit:

- `byte` is 0..255 and `word` is 0..65535.
- `pc += k` on a full u16 is a `PcOverflow` fault.
- u8 wrap-around is written as `% 0x100`.
- The u8 operators `|`, `&` and `^` are defined bit by bit.

Where the code and the usual CHIP-8 description differ, the model follows the code:

- **0NNN and 0x0000.** Every 0NNN other than 00E0 and 00EE is ignored (only printed), and so is 0x0000. Neither advances `pc`.
- **Print-only opcodes.** BNNN, CXNN, EX9E, EXA1 and FX07/FX0A/FX15/FX18/FX1E/FX29 are only printed. They change nothing, not even `pc`, so the interpreter re-executes them forever. In particular:
  - FX0A never enters the waiting state.
  - The random number source of CXNN is never consulted.
- **Low nibble ignored.** 5XY? and 9XY? ignore their low nibble. 8XY? with N outside 0–7 and E is ignored without advancing `pc`.
- **Unreachable panic.** The final "unknown opcode" panic for families other than 0–F (src/chip8/instructions.rs:218-219) cannot be reached; only unknown FX?? opcodes panic.
- **Call and return.** A call pushes the call's own address, and a return adds 2 to the popped address.
- **Key events.** A key *release* resolves a pending `wait_for_key` just as a press does.
- **Program too long.** `load_program` with an image longer than 3584 bytes panics on an array index after copying a prefix. The function `Loaded` reports `MemoryOutOfBounds` with no resulting state. The method `CPU.LoadProgram` copies the first 3584 bytes, as the source does, before it reports the fault; the state it leaves is not constrained.
- **Draw fault.** `draw` panics on an index past memory after drawing the rows before it. The function `Drawn` reports `MemoryOutOfBounds` with no resulting state. The method `CPU.Draw` draws the earlier rows, as the source does, before it reports the fault; the state it leaves is not constrained.

## Model

| member | source | states |
|---|---|---|
| Chip8.ChipKey.Index | src/chip8.rs:4-22 | a key's latch is its position in declaration order (K0 → 0, …, KA → 10, …, KF → 15), as the enum's discriminant gives |
| Chip8.KeyIndexInjective | src/chip8.rs:4-22 | distinct keys set distinct latches |
| Chip8.PoweredOn | src/chip8.rs:83-99 | `CPU::new` builds a well-formed state in which every memory cell, register, stack entry, key latch and pixel is 0, and so are opcode, I, pc, sp and both timers; it is executing and the frame is not dirty |
| Chip8.CPU.constructor | src/chip8.rs:83-99 | the new object's view is exactly `PoweredOn()` |
| Chip8.ReadMemByte | src/chip8.rs:72-78 | a byte is returned exactly when the address is inside memory; otherwise the process ends |
| Chip8.ReadMemWord | src/chip8.rs:79-81 | a word is returned exactly when pc + 1 is inside memory, and it is big-endian: high byte memory[pc], low byte memory[pc + 1] |
| Chip8.Initialized | src/chip8.rs:106-117 | pc = 0x200, I = 0, sp = 0, opcode = 0; memory[0x50..0xA0) holds the 80 font bytes; every other cell and every other field unchanged |
| Chip8.InitializeIdempotent | src/chip8.rs:106-117 | initializing twice gives the same state as initializing once |
| Chip8.CPU.Initialize | src/chip8.rs:106-117 | the in-place initialization leaves the view equal to `Initialized` of the old view |
| Chip8.CPU.CopyFont | src/chip8.rs:114-116 | the font-copy loop replaces memory[0x50..0xA0) by the font and keeps every other cell |
| Chip8.Loaded | src/chip8.rs:100-105 | fails exactly when the image is longer than 4096 − 0x200 bytes; otherwise memory[0x200 + i] = bytes[i], every other cell and field unchanged |
| Chip8.CPU.LoadProgram | src/chip8.rs:100-105 | the copy loop agrees with `Loaded`: same fault, or the same new state |
| Chip8.Advance | src/chip8/instructions.rs:13 | `pc += k` succeeds exactly when the sum fits in u16, changing only pc; otherwise a `PcOverflow` fault |
| Chip8.CPU.AdvancePc | src/chip8/instructions.rs:13 | the in-place `pc += k` agrees with `Advance` |
| Chip8.Ticked | src/chip8.rs:131-142 | each timer counts down by one if nonzero and stays 0 if zero; nothing else changes |
| Chip8.CPU.UpdateTimers | src/chip8.rs:131-142 | the view becomes `Ticked` of the old view, and a beep is signalled exactly when the sound timer was 1 |
| Chip8.Beeps | src/chip8.rs:136-140 | a tick beeps exactly when it takes a nonzero sound timer to zero |
| Chip8.TimersCountDown | src/chip8.rs:131-142 | after n ticks each timer equals max(0, t − n), and nothing else has changed |
| Chip8.BeepsExactlyOnce | src/chip8.rs:136-141 | over n ticks a sound timer s beeps exactly once if 1 ≤ s ≤ n, and never otherwise |
| Chip8.WaitingOn | src/chip8.rs:144-148 | `wait_for_key(x)` enters `WaitingForKey(x)` and changes nothing else |
| Chip8.CPU.WaitForKey | src/chip8.rs:144-148 | the in-place state change agrees with `WaitingOn` |
| Chip8.KeyHandled | src/chip8.rs:149-156 | latches key[k] = 1 if pressed, else 0, keeping the other latches. If waiting on x, then V[x] = k and the machine resumes executing, whether pressed or released, failing only if x ≥ 16. Otherwise no register changes |
| Chip8.CPU.HandleKeyEvent | src/chip8.rs:149-156 | the in-place key event agrees with `KeyHandled` |
| Chip8.WaitThenKeyEvent | src/chip8.rs:144-156 | waiting on a register then receiving any key event resumes execution with the key number in that register and every other register unchanged |
| Chip8.Cleared | src/chip8.rs:158-161 | every framebuffer cell is 0 and the frame is marked dirty; nothing else changes |
| Chip8.CPU.ClearDisplay | src/chip8.rs:158-161 | the in-place clear loop agrees with `Cleared` |
| Chip8.SpriteBit | src/chip8.rs:178 | bit (7 − ix) of a sprite row is 0 or 1 |
| Chip8.SpriteBitsReassemble | src/chip8.rs:178 | the eight sprite bits, weighted 128, 64, …, 1 from ix = 0 to 7, add up to the row: the most significant bit is drawn leftmost |
| Chip8.XorBit | src/chip8.rs:179 | `cell ^ bit` keeps the upper bits of the cell and flips its low bit exactly when the sprite bit is 1 |
| Chip8.SpriteRow | src/chip8.rs:171 | sprite row iy is the byte `read_mem_byte` would give at I + iy |
| Chip8.Painted | src/chip8.rs:176-183 | a cell of the sprite box changes exactly when its sprite bit is 1, and a 0/1 cell stays 0/1 |
| Chip8.Collides | src/chip8.rs:180-182 | a cell collides exactly when it is lit and its sprite bit is 1 |
| Chip8.Drawn | src/chip8.rs:163-188 | the origin is (x mod 64, y mod 32). The draw fails exactly when an on-screen sprite row would be read past memory. Otherwise only the framebuffer, the registers and the dirty flag change, and the frame is marked dirty |
| Chip8.CPU.Draw | src/chip8.rs:163-188 | the nested row/column loops with their `set_vf` accumulator agree with `Drawn` |
| Chip8.CPU.DrawRow | src/chip8.rs:172-185 | one row of the inner column loop extends the partly drawn screen and collision flag by that row, clipped at column 64 |
| Chip8.DrawEffect | src/chip8.rs:163-188 | after a successful draw, VF is 0 or 1, with VF = 1 exactly when some cell went from 1 to 0; no other register changes; cells outside the clipped 8×n box keep their value; each cell inside it becomes its old value XOR bit (7 − ix) of memory[I + iy], on any screen |
| Chip8.CPU.DrawCell | src/chip8.rs:176-184 | one step of the column loop XORs one cell and updates the collision flag, extending the partly drawn screen by one column |
| Chip8.CellStep | src/chip8.rs:176-184 | the cell a column step writes has not been drawn yet, and XOR-ing it extends the partly drawn screen and collision flag by that cell |
| Chip8.RowDone | src/chip8.rs:172-175 | a row finished at 8 columns or clipped at column 64 is the same as having drawn every earlier row completely |
| Chip8.DrawKeepsPixelsBinary | src/chip8.rs:176-186 | if every cell is 0 or 1 before a draw, every cell is 0 or 1 after it |
| Chip8.DrawOnBlankScreen | src/chip8.rs:163-188 | drawing on a blank screen never collides (VF = 0), and each on-screen cell of the box shows exactly the sprite's bit |
| Chip8.DrawTwiceRestores | src/chip8.rs:163-188 | drawing the same sprite at the same place twice restores the framebuffer |
| Instructions.Family | src/chip8/instructions.rs:8 | the family nibble is below 16 |
| Instructions.OpcodeFields | src/chip8/instructions.rs:79-82 | the field decoders (family, X, Y, N, NN, NNN) give back the parts an opcode was assembled from |
| Instructions.RegX | src/chip8/instructions.rs:37 | X is a register index below 16 |
| Instructions.RegY | src/chip8/instructions.rs:62 | Y is a register index below 16 |
| Instructions.Bitwise | src/chip8/instructions.rs:88-101 | a bitwise operator on `width` bits yields a value below 2^width |
| Instructions.OrPlusAnd | src/chip8/instructions.rs:88-96 | a OR b plus a AND b equals a + b |
| Instructions.XorPlusCarries | src/chip8/instructions.rs:92-101 | a XOR b plus twice a AND b equals a + b |
| Instructions.AndBelowOperands | src/chip8/instructions.rs:92-96 | a AND b is at most a and at most b |
| Instructions.ByteOperators | src/chip8/instructions.rs:88-101 | for the u8 operators, as consequences of their bit-by-bit definition: OR + AND = a + b, XOR + 2·AND = a + b and AND ≤ each operand |
| Instructions.ByteOperatorsSelf | src/chip8/instructions.rs:88-101 | a byte XOR itself is 0, and a byte OR or AND itself is the byte |
| Instructions.XorTwice | src/chip8/instructions.rs:97-101 | XOR-ing with b twice gives back a |
| Instructions.Xor8Twice | src/chip8/instructions.rs:97-101 | the u8 `^` applied twice with the same operand is the identity |
| Instructions.Execute | src/chip8/instructions.rs:3-221 | one opcode keeps the state well-formed and never changes opcode, timers, key latches or the wait state |
| Instructions.DecodeOpcode | src/chip8/instructions.rs:3-221 | the in-place decoder agrees with `Execute`: same fault, or the same new state |
| Instructions.Skip | src/chip8/instructions.rs:31-67 | a skip keeps the machine well-formed and never touches opcode, timers, keys or the wait state |
| Instructions.Call | src/chip8/instructions.rs:26-30 | 2NNN keeps the machine well-formed and never touches opcode, timers, keys or the wait state |
| Instructions.Return | src/chip8/instructions.rs:14-18 | 00EE keeps the machine well-formed and never touches opcode, timers, keys or the wait state |
| Instructions.SystemOp | src/chip8/instructions.rs:9-21 | a 0NNN opcode keeps the machine well-formed and never touches opcode, timers, keys or the wait state |
| Instructions.Bcd | src/chip8/instructions.rs:193-202 | FX33 keeps the machine well-formed and never touches opcode, timers, keys or the wait state |
| Instructions.RegDump | src/chip8/instructions.rs:203-208 | FX55 keeps the machine well-formed and never touches opcode, timers, keys or the wait state |
| Instructions.RegLoad | src/chip8/instructions.rs:209-214 | FX65 keeps the machine well-formed and never touches opcode, timers, keys or the wait state |
| Instructions.MiscOp | src/chip8/instructions.rs:178-217 | an FX?? opcode keeps the machine well-formed and never touches opcode, timers, keys or the wait state |
| Instructions.CallSubroutine | src/chip8/instructions.rs:26-30 | the in-place call agrees with the specification of 2NNN |
| Instructions.ReturnFromSubroutine | src/chip8/instructions.rs:14-18 | the in-place return agrees with the specification of 00EE |
| Instructions.DecodeArith | src/chip8/instructions.rs:79-132 | the in-place 8XY? branch agrees with `ArithOp` |
| Instructions.DecodeMisc | src/chip8/instructions.rs:178-217 | the in-place FX?? branch agrees with `MiscOp` |
| Instructions.StoreBcd | src/chip8/instructions.rs:193-202 | the three in-place BCD stores agree with `Bcd` |
| Instructions.DumpRegisters | src/chip8/instructions.rs:203-208 | the FX55 copy loop agrees with `RegDump` |
| Instructions.LoadRegisters | src/chip8/instructions.rs:209-214 | the FX65 copy loop agrees with `RegLoad` |
| Instructions.ZeroPageIgnored | src/chip8/instructions.rs:4-21 | 0x0000 and every 0NNN other than 00E0/00EE leave the whole machine unchanged, pc included |
| Instructions.ClearScreen | src/chip8/instructions.rs:10-13 | 00E0 zeroes all 2048 cells, marks the frame dirty, advances pc by 2 and changes nothing else |
| Instructions.CallThenReturn | src/chip8/instructions.rs:14-30 | 2NNN stores pc at stack[sp], increments sp, jumps to NNN and changes nothing else; a following 00EE restores sp and every other field and resumes at the call's address + 2 |
| Instructions.StackFaults | src/chip8/instructions.rs:14-30 | a call with sp ≥ 16 and a return with sp = 0 both end the run |
| Instructions.ConditionalSkips | src/chip8/instructions.rs:31-67 | 3XNN, 4XNN, 5XY? and (at lines 133-145) 9XY? advance pc by 4 exactly when VX = NN, VX ≠ NN, VX = VY or VX ≠ VY respectively, else by 2, changing nothing else |
| Instructions.Jump | src/chip8/instructions.rs:22-25 | 1NNN sets pc to NNN and changes nothing else |
| Instructions.LoadImmediate | src/chip8/instructions.rs:68-72 | 6XNN sets VX = NN, advances pc by 2 and changes nothing else |
| Instructions.AddImmediate | src/chip8/instructions.rs:73-78 | 7XNN sets VX = (VX + NN) mod 256, leaves every other register (VF included) untouched, advances pc by 2 |
| Instructions.SetIndex | src/chip8/instructions.rs:146-149 | ANNN sets I = NNN, advances pc by 2 and changes nothing else |
| Instructions.SetThenAdd | src/chip8/instructions.rs:68-78 | 6XNN then 7XNN gives VX = 2·NN mod 256 with VF unchanged |
| Instructions.ArithDispatch | src/chip8/instructions.rs:79-82 | every 8XY? opcode is executed by the register-arithmetic table on its X, Y and N |
| Instructions.ArithRegs | src/chip8/instructions.rs:83-131 | the register file after a listed 8XY? operation still has 16 registers |
| Instructions.ArithOp | src/chip8/instructions.rs:79-132 | an 8XY? operation keeps the machine well-formed and never touches opcode, timers, keys or the wait state |
| Instructions.MiscDispatch | src/chip8/instructions.rs:178-180 | every FX?? opcode is executed by the FX table |
| Instructions.RegisterCopy | src/chip8/instructions.rs:83-87 | 8XY0 sets VX = VY, leaves every other register alone, advances pc by 2 and changes nothing else |
| Instructions.RegisterLogic | src/chip8/instructions.rs:88-101 | 8XY1, 8XY2 and 8XY3 set VX to VX OR VY, VX AND VY and VX XOR VY respectively, leave every other register (VF included) alone, advance pc by 2 and change nothing else |
| Instructions.AddWithCarry | src/chip8/instructions.rs:102-107 | 8XY4: VF = 1 exactly when VX + VY > 255 (the flag wins when X = F); for X ≠ F, VX + 256·VF = old VX + VY; other registers unchanged; pc advances by 2 and nothing else changes |
| Instructions.SubtractWithBorrow | src/chip8/instructions.rs:108-125 | 8XY5/8XY7: VF = 1 exactly when there is no borrow (the flag wins when X = F); for X ≠ F, VX is the difference plus 256 when it borrowed; other registers unchanged; pc advances by 2 and nothing else changes |
| Instructions.ShiftRight | src/chip8/instructions.rs:114-119 | 8XY6: for X ≠ F, VF ≤ 1 and 2·VX + VF = old VX (VF is the bit shifted out); for X = F, VF = old VF >> 1, so the shifted value wins over the flag; other registers unchanged; pc advances by 2 and nothing else changes |
| Instructions.ShiftLeft | src/chip8/instructions.rs:126-131 | 8XYE: for X ≠ F, VF ≤ 1 and VX + 256·VF = 2·old VX; for X = F, VF = (2·old VF) mod 256, so the shifted value wins over the flag; other registers unchanged; pc advances by 2 and nothing else changes |
| Instructions.XorInstructionTwice | src/chip8/instructions.rs:97-101 | 8XY3 executed twice with X ≠ Y restores every register and leaves pc advanced by 4 |
| Instructions.UnlistedArithIgnored | src/chip8/instructions.rs:79-132 | 8XY? with N outside 0–7 and E changes nothing, not even pc |
| Instructions.BcdDigits | src/chip8/instructions.rs:193-202 | FX33 writes three digits, each ≤ 9, with 100·h + 10·t + u = VX, at I..I+2; every other cell and field unchanged |
| Instructions.DumpRegistersEffect | src/chip8/instructions.rs:203-208 | FX55 sets memory[I + i] = V[i] for each i ≤ X and leaves every other cell and field alone |
| Instructions.LoadRegistersEffect | src/chip8/instructions.rs:209-214 | FX65 sets V[i] = memory[I + i] for each i ≤ X and leaves the other registers and fields alone |
| Instructions.DumpThenLoad | src/chip8/instructions.rs:203-214 | FX55 then FX65 with the same I and X leaves the registers as they were |
| Instructions.MemoryFaults | src/chip8/instructions.rs:199-212 | FX33, FX55 and FX65 end the run when they would write or read past memory |
| Instructions.PrintOnlyIgnored | src/chip8/instructions.rs:150-192 | BNNN, CXNN, EX?? and FX07/0A/15/18/1E/29 change nothing, not even pc |
| Instructions.UnknownOpcodePanics | src/chip8/instructions.rs:215-216 | every other FX?? opcode is an unknown-opcode fault carrying the opcode |
| Instructions.DrawSprite | src/chip8/instructions.rs:158-171 | DXYN draws an N-row sprite at (VX, VY), then advances pc by 2; a draw that faults stops the run with that fault |
| Instructions.ExecuteKeepsStackBound | src/chip8/instructions.rs:26-30 | no instruction leaves sp above 16 |
| Instructions.ExecuteKeepsPixelsBinary | src/chip8/instructions.rs:158-170 | no instruction puts a value other than 0 or 1 into the framebuffer |
| Emulation.Step | src/chip8.rs:118-129 | a waiting machine is left unchanged. An executing machine with pc + 1 past memory ends the run. Otherwise opcode becomes the big-endian word at pc and that word is executed |
| Emulation.EmulateCycle | src/chip8.rs:118-129 | the in-place cycle agrees with `Step` |
| Emulation.Run | src/chip8.rs:118-129 | n cycles are `Step` repeated n times, ending at the first fault; the state stays well-formed |
| Emulation.WaitingIsSuspended | src/chip8.rs:118-129 | while waiting for a key, any number of cycles changes nothing |
| Emulation.StepKeepsInvariants | src/chip8.rs:118-129 | one cycle keeps sp ≤ 16 and every pixel 0 or 1 |
| Emulation.RunKeepsInvariants | src/chip8.rs:118-129 | across any number of cycles, sp stays ≤ 16 and every pixel stays 0 or 1 |
| Emulation.WaitThenResume | src/chip8.rs:144-156 | a machine waiting on register x is unchanged by any number of cycles. A key event then puts the key in V[x] and returns to executing, with everything but V and the key latches as before |

## Left out

- `fs::read` in `load_program` is file I/O. The model takes the file's bytes as a parameter.
- `dump_opcodes` (src/chip8.rs:64-71) is left out. It never advances pc, so it never terminates; it is debugging scaffolding.
- The `println!` tracing in the decoder and the "BEEP!" message are left out; the beep is returned as a boolean instead.
- After a fault the process ends. The model reports which fault occurred but does not describe memory, registers or the screen after the partial writes that precede a panic.
- src/emulator.rs is not part of this model. It covers the window, texture upload, key mapping, frame pacing and FPS printing, and it is the caller that decides how often `emulate_cycle` and `update_timers` run.
- src/main.rs and src/log.rs are not part of this model. They hold argument reading and a print macro.
- src/chip8/mod.rs is not part of this model. It is an older copy of the module that the program does not use.
