# A verified model of the mychip8 Chip-8 virtual machine

`chip8.py` implements a Chip-8 interpreter as one class, `Chip8`. The class holds:
- sixteen 8-bit registers V0..VF;
- the 12-bit address register I and the program counter;
- a return stack of at most 16 entries;
- 4096 bytes of memory, with the hexadecimal font at 0..79 and the program at 0x200;
- a 16-key keypad;
- the delay and sound timers;
- a 64 x 32 one-bit screen.

Its `run` loop polls key events, fetches a big-endian opcode, advances pc by 2, dispatches on the top nibble to one of `op_0` .. `op_F`, and then decrements both timers.

The model has two layers.

* **A value semantics.** Module `Semantics` gives the machine as a datatype and each handler as a function from machine to machine plus an outcome (`Op0` .. `OpF`). `Execute`, `Step`, `Cycle` and `Run` describe the driver loop. Modules `Bytes`, `Opcodes`, `Font`, `Timers`, `Registers` and `Display` hold the pieces: bytes and bitwise operations, opcode fields, the font, timer decrements, the 8XY_ arithmetic and XOR sprite drawing. Module `Properties` proves what the instruction set promises about these functions.
* **The machine as the source builds it.** `Vm.Chip8` is a class with array fields updated in place and one method per handler. Loops copy registers to memory and back (FX55/FX65), load the ROM, apply key events and draw sprites bit by bit (DXYN). Each method is proved to produce exactly the state that the matching `Semantics` function gives (`Transition(State(), outcome) == Semantics.OpN(old(State()), op)`). So everything proved about the value semantics holds for the class too.

Error behaviour follows the source:
- **Printed and carried on.** An unsupported opcode, a call on a full stack and a return on an empty stack print a message and continue. The model returns `Unsupported`, `StackFull` or `StackEmpty`, leaves the state unchanged, and the timers still tick.
- **Exception out of the loop.** These halt with `Halted(fault)`:
  - a fetch at 4095 or beyond;
  - a DXYN sprite, an FX33 digit or an FX55/FX65 block past the end of memory;
  - an EX9E/EXA1 key number above F.

  No timer ticks after any of these. A fetch halt leaves the state exactly as it was, pc included. A handler halt leaves the state as the fetch left it, with pc already advanced by 2.

Where the code and its comments disagree, the model follows the code:
- The flag of 8XY4 is written last.
- 8XY6 and 8XYE write VF before they shift, so with X = F they shift the new flag.
- CXNN draws from `int(random() * 255)`, a number from 0 to 254.

The three places where the code is evidently wrong are listed under Findings. The rest of the model uses the corrected behaviour.

## Model

| member | source | states |
|---|---|---|
| Opcodes.Family | chip8.py:414 | the top nibble, below 16, selects the handler |
| Opcodes.X | chip8.py:176 | the second nibble names register VX, below 16 |
| Opcodes.Y | chip8.py:192 | the third nibble names register VY, below 16 |
| Opcodes.N | chip8.py:300 | the low nibble, below 16: the DXYN height and the 5XY0/9XY0/8XY_ sub-operation |
| Opcodes.NN | chip8.py:177 | the low byte of the opcode (definition; DecodeEncode and EncodeDecode state it) |
| Opcodes.NNN | chip8.py:164 | the low twelve bits, an address of at most 0xFFF |
| Opcodes.Fetch | chip8.py:410 | the opcode's high byte is memory[pc] and its low byte memory[pc+1] |
| Opcodes.DecodeEncode | chip8.py:175-176 | the family, X, Y, N, NN and NNN fields read back the nibbles an opcode is built from |
| Opcodes.EncodeDecode | chip8.py:211-213 | every opcode is rebuilt exactly from its four nibbles; NN and NNN are the low two and three nibbles |
| Font.GlyphAddress | chip8.py:367-370 | digit d's glyph starts at 5d, a multiple of 5, and ends inside the 80-byte font |
| Timers.Tick | chip8.py:420-423 | a timer above zero drops by exactly one and never goes below zero |
| Timers.TickN | chip8.py:420-423 | the timer value after n end-of-cycle decrements (definition; TickNFloor and Properties.RunTicksTimers state its value) |
| Timers.TickNFloor | chip8.py:420-423 | n decrements of a timer value leave max(0, t - n) |
| Bytes.BitOr | chip8.py:217-219 | VX or VY is a byte at least as large as each operand |
| Bytes.BitAnd | chip8.py:220-222 | VX and VY is a byte at most as large as each operand |
| Bytes.OrCommutes | chip8.py:217-219 | bitwise or does not depend on operand order |
| Bytes.AndCommutes | chip8.py:220-222 | bitwise and does not depend on operand order |
| Bytes.BitXor | chip8.py:223-225 | the eight-bit exclusive or (definition; ByteXorTwice states its inverse) |
| Bytes.ByteXorTwice | chip8.py:223-225 | xor with the same byte twice gives the original back |
| Bytes.BitLength | chip8.py:217-225 | Python's `bit_length`: every n is below 2 to the power of its bit length |
| Bytes.BitwiseWidthStable | chip8.py:217-225 | a bitwise operation gives the same result at every width covering both operands |
| Bytes.OrZero | chip8.py:217-219 | or with zero leaves a value unchanged |
| Bytes.SpriteBit | chip8.py:313 | bit j of a sprite row counted from the most significant bit (definition; Display.DrawTogglesSpriteBits and NonZeroRowHasBit state its use) |
| Bytes.NonZeroRowHasBit | chip8.py:313-314 | a non-zero sprite row has a set bit among its eight columns |
| Registers.Alu | chip8.py:210-264 | 8XY_ is defined exactly for low nibbles 0-7 and E; it changes only VX and VF, and 8XY0-8XY3 leave VF alone unless X is F |
| Registers.AddCarry | chip8.py:226-234 | 8XY4: VF is 1 exactly when VX + VY > 255 and 0 otherwise; VX gets the sum modulo 256 |
| Registers.SubtractBorrow | chip8.py:235-243 | 8XY5: VF is 1 exactly when VX >= VY and 0 exactly on a borrow; VX gets (VX - VY) mod 256 |
| Registers.ReverseSubtractBorrow | chip8.py:249-257 | 8XY7: VF is 1 exactly when VY >= VX and 0 exactly on a borrow; VX gets (VY - VX) mod 256 |
| Registers.ShiftRightFlag | chip8.py:244-248 | 8XY6: 2 * VX' + VF' equals the old VX, so VF holds the bit shifted out |
| Registers.ShiftLeftFlag | chip8.py:258-262 | 8XYE: 256 * VF' + VX' equals twice the old VX, so VF holds the bit shifted out |
| Registers.OrAndBounds | chip8.py:217-222 | 8XY1 leaves VX no smaller than either operand; 8XY2 leaves it no larger |
| Registers.XorTwiceRestores | chip8.py:223-225 | 8XY3 applied twice with X != Y restores the whole register file |
| Registers.CopyCopies | chip8.py:214-216 | 8XY0 puts VY in VX and leaves VY as it was |
| Display.Cleared | chip8.py:147-148 | the cleared screen is 32 rows of 64 dark pixels |
| Display.Draw | chip8.py:307-315 | the screen after XOR-drawing the sprite rows with wrap-around is again a 32 x 64 grid |
| Display.Collides | chip8.py:304-319 | the DXYN collision flag: some set sprite bit lands on a lit pixel (definition; CollisionIffPixelTurnedOff states its meaning) |
| Display.DrawTogglesSpriteBits | chip8.py:307-315 | bit j of sprite row i toggles pixel ((VY + i) mod 32, (VX + j) mod 64) when set and leaves it when clear |
| Display.DrawChangesExactlySprite | chip8.py:307-315 | a pixel changes exactly when a set sprite bit lands on it after wrapping |
| Display.CollisionTurnsPixelOff | chip8.py:311-315 | a collision names a lit pixel inside the screen that the draw turns off |
| Display.PixelTurnedOffCollides | chip8.py:311-315 | a lit pixel that the draw turns off means the sprite collided |
| Display.CollisionIffPixelTurnedOff | chip8.py:306-319 | the collision flag is raised exactly when the draw turns some lit pixel off |
| Display.DrawTwiceRestores | chip8.py:313-315 | drawing the same sprite twice at the same place restores the screen |
| Display.DrawTwiceCollides | chip8.py:306-319 | a sprite with a set bit collides on the first or the second of two identical draws |
| Display.DrawTwiceOnClearedScreen | chip8.py:306-319 | on a dark screen the first draw does not collide and the second does |
| Semantics.Overwrite | chip8.py:382-389 | a block written at an offset: cells inside the block take its values, all others keep theirs |
| Semantics.Init | chip8.py:107-131 | the start-up state is a valid machine |
| Semantics.SkipIf | chip8.py:174-179 | the conditional `pc += 2` of 3XNN, 4XNN, 5XY0, 9XY0 and EX9E/EXA1 (lines 179, 186, 194, 272, 329, 333) (definition; Properties.SkipsOnlyMovePc states its effect) |
| Semantics.Op0 | chip8.py:145-160 | 00E0 and 00EE keep the machine valid: 16 registers, I within 12 bits, at most 16 stack entries, a full memory, keypad and 64x32 screen |
| Semantics.Op2 | chip8.py:166-172 | a call keeps the stack within 16 entries and the machine valid |
| Semantics.Op1 | chip8.py:162-164 | 1NNN keeps the machine valid |
| Semantics.Op3 | chip8.py:174-179 | 3XNN keeps the machine valid |
| Semantics.Op4 | chip8.py:181-186 | 4XNN keeps the machine valid |
| Semantics.Op5 | chip8.py:188-196 | 5XY0 keeps the machine valid |
| Semantics.Op6 | chip8.py:198-202 | 6XNN keeps the machine valid |
| Semantics.Op7 | chip8.py:204-208 | 7XNN keeps the machine valid |
| Semantics.Op8 | chip8.py:210-264 | 8XY_ keeps the machine valid, registers staying bytes |
| Semantics.Op9 | chip8.py:266-274 | 9XY0 keeps the machine valid |
| Semantics.OpA | chip8.py:276-278 | ANNN keeps the machine valid |
| Semantics.OpB | chip8.py:280-282 | BNNN keeps the machine valid |
| Semantics.OpC | chip8.py:284-289 | CXNN keeps the machine valid |
| Semantics.OpE | chip8.py:322-335 | EX9E and EXA1 keep the machine valid |
| Semantics.Sprite | chip8.py:307-309 | the N sprite rows are the N bytes of memory from I on |
| Semantics.OpD | chip8.py:291-320 | DXYN keeps the machine valid |
| Semantics.AddIndex | chip8.py:358-366 | FX1E keeps I within 12 bits and always completes |
| Semantics.StoreBcd | chip8.py:371-381 | FX33 keeps the machine valid |
| Semantics.StoreBlock | chip8.py:382-385 | FX55 keeps the machine valid |
| Semantics.LoadBlock | chip8.py:386-389 | FX65 keeps the machine valid |
| Semantics.OpF | chip8.py:337-391 | every FX__ keeps I within 12 bits and the machine valid |
| Semantics.Execute | chip8.py:414-418 | dispatch keeps the machine valid |
| Semantics.Step | chip8.py:409-423 | a cycle keeps the machine valid |
| Semantics.Advance | chip8.py:412-423 | the rest of a cycle after the fetch keeps the machine valid |
| Semantics.TickTimers | chip8.py:420-423 | both timers take one decrement (definition; FinishTicks and StepTicksTimers state its effect) |
| Semantics.Fetched | chip8.py:413 | the fetch moves pc past the two-byte instruction and keeps the machine valid; Properties.StepAdvancesPc states the resulting pc |
| Semantics.Finish | chip8.py:419-423 | the timer update at the end of a cycle keeps the machine valid |
| Semantics.Cycle | chip8.py:397-423 | one pass of the driver loop, the key poll and then the step, keeps the machine valid |
| Semantics.Press | chip8.py:401-408 | a key event changes only that key and nothing else in the machine |
| Semantics.ApplyKeys | chip8.py:397-408 | polling key events changes only the keypad |
| Semantics.Run | chip8.py:393-424 | the driver loop keeps the machine valid |
| Properties.StepHaltsPastMemory | chip8.py:410 | fetching at 4095 or beyond halts with nothing changed |
| Properties.StepAdvancesPc | chip8.py:409-413 | every cycle of a family that does not jump, call, return or skip leaves pc at the next instruction |
| Properties.AdvanceMovesPc | chip8.py:412-418 | the same for any fetched opcode of those families |
| Properties.ExecuteKeepsPc | chip8.py:145-391 | 00E0 and the handlers of families 6, 7, 8, A, C, D and F leave pc where the fetch put it |
| Properties.FinishTicks | chip8.py:419-423 | a cycle whose handler halts ends with the handler's transition; otherwise it keeps the outcome, ticks each timer once and changes nothing else |
| Properties.StepTicksTimers | chip8.py:409-423 | after a cycle each timer is one less if it was positive, counting FX15/FX18 writes first |
| Properties.AdvanceTicksTimers | chip8.py:412-423 | the same for any fetched opcode |
| Properties.NotExecutedKeepsMachine | chip8.py:145-391 | an unsupported opcode, a full or empty stack and every halt leave the machine exactly as it was |
| Properties.WritesTimer | chip8.py:352-357 | FX15 and FX18, the two instructions that write a timer (definition) |
| Properties.NoTimerWrites | chip8.py:409-418 | no cycle of a run, up to a halt, fetches FX15 or FX18 (definition) |
| Properties.RunTicksTimers | chip8.py:393-423 | a run of n cycles without a halt and without FX15/FX18 leaves each timer at TickN(t, n) = max(0, t - n) |
| Properties.ExecuteKeepsPixels | chip8.py:145-320 | every instruction other than 00E0 and DXYN leaves the screen as it was |
| Properties.UntouchedKeyKeeps | chip8.py:397-408 | a key named by no polled event keeps its state |
| Properties.KeyFollowsLastEvent | chip8.py:401-408 | after a poll a key is pressed exactly when the last event naming it was a key-down |
| Properties.RunConcat | chip8.py:393-424 | running two input stretches in turn equals running their concatenation, and a halt in the first ends the run |
| Properties.CallPushes | chip8.py:166-172 | 2NNN reports a full stack exactly when it holds 16 entries, then changes nothing; otherwise it pushes pc and jumps |
| Properties.ReturnPops | chip8.py:151-157 | 00EE on an empty stack changes nothing; otherwise it pops the last entry into pc and changes nothing else |
| Properties.CallThenReturn | chip8.py:151-172 | a call followed by a return gives back the machine exactly |
| Properties.CallReturnCycles | chip8.py:409-423 | a 2NNN cycle and a 00EE cycle at its target leave the stack as it was and pc after the call |
| Properties.SkipsOnlyMovePc | chip8.py:174-196 | 3XNN, 4XNN, 5XY0, 9XY0 and EX__ add 0 or 2 to pc and change nothing else; each skips exactly when its condition holds; 5XY_/9XY_ with N != 0 are unsupported |
| Properties.KeySkips | chip8.py:322-335 | EX9E skips exactly when key VX is down, EXA1 exactly when it is up; a key number above F halts; other EX__ are unsupported |
| Properties.JumpsAreAbsolute | chip8.py:162-164 | 1NNN (lines 162-164) sets pc to NNN and BNNN (lines 280-282) to NNN + V0, for every cycle input; both complete and nothing else changes |
| Properties.AddImmediateKeepsFlag | chip8.py:204-208 | 7XNN adds modulo 256, no register but VX changes, VF included, and nothing else in the machine changes |
| Properties.AddRegistersCarry | chip8.py:226-234 | 8XY4 on the machine: carry in VF exactly when the sum exceeds 255; only registers change |
| Properties.SubtractRegistersBorrow | chip8.py:235-257 | 8XY5 and 8XY7 on the machine: VF is 1 exactly without a borrow, VX is the difference mod 256; only registers change |
| Properties.AluUnsupported | chip8.py:263-264 | 8XY_ with a low nibble of 8 to D or F changes nothing and reports unsupported |
| Properties.RandomMasked | chip8.py:284-289 | CXNN stores random AND NN, which is at most NN and at most 254, in VX and changes nothing else |
| Properties.WaitKeyStores | chip8.py:343-351 | FX0A stores the pressed key number in VX and changes nothing else |
| Properties.ClearTurnsAllOff | chip8.py:145-150 | 00E0 turns every pixel off and changes nothing else |
| Properties.DrawSemantics | chip8.py:298-319 | DXYN toggles pixel ((VY + i) mod 32, (VX + j) mod 64) exactly when bit j of sprite row i is set, and changes nothing but the screen and VF |
| Properties.DrawFlagsCollision | chip8.py:298-319 | DXYN leaves 0 or 1 in VF, and 1 exactly when it turned some lit pixel off; nothing but the screen and VF changes |
| Properties.ExecuteKeepsTimers | chip8.py:352-357 | only FX15 and FX18 write a timer, with VX; every other instruction leaves both timers alone |
| Properties.BlockPastMemoryHalts | chip8.py:382-389 | FX55 and FX65 with I + X past memory halt with nothing changed |
| Properties.DrawTwice | chip8.py:291-320 | the same DXYN twice restores the screen; a sprite with a set bit collides on one of the draws, and on a dark screen only on the second |
| Properties.DrawPastMemoryHalts | chip8.py:307-309 | a sprite reaching past memory halts with nothing changed |
| Properties.AddToIndex | chip8.py:358-366 | FX1E completes and leaves I = (I + VX) mod 0x1000 within 12 bits, with VF = 1 exactly on overflow past 0xFFF; nothing but I and VF changes |
| Properties.PointsAtGlyph | chip8.py:367-370 | FX29 sets I to 5 * VX for every VX, completes and changes nothing else |
| Properties.GlyphOfDigit | chip8.py:367-370 | FX29 with VX <= F points I at the five bytes of digit VX's glyph, inside the font area |
| Properties.BcdDigits | chip8.py:371-381 | FX33 stores three decimal digits, each at most 9, whose value is VX; no other cell changes; an end past memory halts |
| Properties.StoreChangesOnlyBlock | chip8.py:382-385 | FX55 writes V0..VX to I..I+X and changes no other cell and no other part of the machine |
| Properties.StoreThenLoad | chip8.py:382-389 | FX55 followed by FX65 with the same X gives back every register |
| Properties.LoadThenStore | chip8.py:382-389 | FX65 followed by FX55 with the same X gives back memory |
| Properties.InitLayout | chip8.py:107-131 | after start-up the font is at 0..79, the ROM at 0x200, all other memory zero, registers zero, pc 0x200, screen dark |
| Vm.Chip8.LoadFont | chip8.py:61-79 | memory[0..80] holds the font afterwards and the rest is untouched |
| Vm.Chip8.LoadRom | chip8.py:81-90 | the ROM bytes are copied to memory from 0x200 on and the rest is untouched |
| Vm.Chip8.constructor | chip8.py:107-139 | the new object's state is the start-up state |
| Vm.Chip8.HandleEvents | chip8.py:397-408 | applying the polled key events to the keypad array yields the keypad of the semantics |
| Vm.Chip8.Op0 | chip8.py:145-160 | the handler's new state and outcome are those of 00E0 / 00EE in the semantics |
| Vm.Chip8.Op1 | chip8.py:162-164 | as Semantics.Op1 |
| Vm.Chip8.Op2 | chip8.py:166-172 | as Semantics.Op2 |
| Vm.Chip8.Op3 | chip8.py:174-179 | as Semantics.Op3 |
| Vm.Chip8.Op4 | chip8.py:181-186 | as Semantics.Op4 |
| Vm.Chip8.Op5 | chip8.py:188-196 | as Semantics.Op5 |
| Vm.Chip8.Op6 | chip8.py:198-202 | as Semantics.Op6 |
| Vm.Chip8.Op7 | chip8.py:204-208 | as Semantics.Op7 |
| Vm.Chip8.Op8 | chip8.py:210-264 | as Semantics.Op8, with the corrected 8XY7 and 8XYE |
| Vm.Chip8.ApplyAlu | chip8.py:210-264 | the register array afterwards is Registers.Alu of the one before; an unsupported sub-operation leaves it untouched |
| Vm.Chip8.Op9 | chip8.py:266-274 | as Semantics.Op9 |
| Vm.Chip8.OpA | chip8.py:276-278 | as Semantics.OpA |
| Vm.Chip8.OpB | chip8.py:280-282 | as Semantics.OpB |
| Vm.Chip8.OpC | chip8.py:284-289 | as Semantics.OpC for the given random draw |
| Vm.Chip8.DrawRow | chip8.py:308-319 | one sprite row toggles its set bits and raises VF on a pixel turned off, keeping the loop's drawn-so-far invariant |
| Vm.Chip8.DrawSprite | chip8.py:307-319 | the row loop leaves each pixel toggled exactly where the sprite covers it and VF holding the collision flag |
| Vm.Chip8.OpD | chip8.py:291-320 | the bit-by-bit drawing loop leaves exactly the screen and flag of Semantics.OpD |
| Vm.Chip8.OpE | chip8.py:322-335 | as Semantics.OpE |
| Vm.Chip8.AddIndex | chip8.py:358-366 | the FX1E branch has the effect of Semantics.AddIndex |
| Vm.Chip8.StoreBcd | chip8.py:371-381 | the FX33 branch has the effect of Semantics.StoreBcd |
| Vm.Chip8.StoreBlock | chip8.py:382-385 | the FX55 loop has the effect of Semantics.StoreBlock: the block V0..VX written at I, or a halt past memory |
| Vm.Chip8.LoadBlock | chip8.py:386-389 | the FX65 loop has the effect of Semantics.LoadBlock: memory[I..I+X] written to V0..VX, or a halt past memory |
| Vm.Chip8.OpF | chip8.py:337-391 | as Semantics.OpF for the given pressed key |
| Vm.Chip8.Execute | chip8.py:414-418 | the dispatch on the top nibble has the effect of Semantics.Execute |
| Vm.Chip8.ExecuteLow | chip8.py:145-208 | families 0 to 7 have the effect of Semantics.Execute |
| Vm.Chip8.ExecuteHigh | chip8.py:210-391 | families 8 to F have the effect of Semantics.Execute |
| Vm.Chip8.Step | chip8.py:409-423 | the big-endian fetch and the rest of the cycle have the effect of Semantics.Step |
| Vm.Chip8.Advance | chip8.py:412-423 | advancing pc by 2, executing and ticking have the effect of Semantics.Advance |
| Vm.Chip8.TickTimers | chip8.py:420-423 | the two decrements have the effect of Semantics.TickTimers and keep the screen |
| Vm.Chip8.ExecuteThenTick | chip8.py:414-423 | the handler followed by the timer update has the effect of Semantics.Finish after Semantics.Execute |
| Vm.Chip8.Run | chip8.py:393-424 | the driver loop ends in the state and fault Semantics.Run gives for the same inputs |
| AsWritten.Alu8AsWritten | chip8.py:210-264 | the source's 8XY_ completes exactly for low nibbles 0-6 and F |
| AsWritten.AgreesBelowSeven | chip8.py:214-248 | for low nibbles 0 to 6 the source's 8XY_ and Registers.Alu agree on every register file |
| AsWritten.BitwiseOfBytes | chip8.py:217-225 | on two bytes, Python's unbounded or, and and xor equal the eight-bit ones |
| AsWritten.OrKeepsWideValues | chip8.py:217-219 | 8XY1 as written leaves VX no smaller than either register, also for values above 0xFF |
| AsWritten.OrOfShiftedValue | chip8.py:217-262 | after the unmasked shift leaves 0x100 in V0, 8XY1 with V1 = 0 keeps 0x100: the wide value survives |
| AsWritten.ReverseSubtractRaises | chip8.py:249-252 | 8XY7 as written raises NameError for every register file, where Registers.Alu is defined |
| AsWritten.ShiftLeftMisrouted | chip8.py:258 | 0x801E is reported unsupported and 0x801F shifts, the opposite of the corrected model |
| AsWritten.ShiftLeftOverflows | chip8.py:262 | with V0 = 0x80 the source leaves 0x100 in V0; the corrected shift leaves 0 with VF = 1 |

## Left out

- Display output: pygame initialisation, `draw_pixel`, `clear_screen`, `display.flip` and the 600 Hz clock have no counterpart. The model keeps the pixel array these routines show.
- `load_rom` reads its file through Python file I/O. The model takes the ROM's bytes as a parameter, and a ROM longer than 3584 bytes is excluded by a precondition. The source would raise IndexError part-way through loading.
- `dump_memory`, `test` and every `print` are debugging output and are left out.
- Events other than key-down and key-up for mapped keys are not modelled. The `key_map` translation from keyboard codes to keypad numbers is not modelled either: inputs carry keypad numbers directly. A QUIT event ends the input sequence: the poll that sees QUIT becomes the last input. It carries only the events before QUIT, and its cycle of fetch, execute and tick still runs, as in the source.
- Semantics.OpF: FX0A's busy-wait on pygame events is replaced by the `pressedKey` part of the cycle's input. The wait does not update the keypad array, and it does not in the model either.
- Semantics.OpC: the random draw `int(random.random() * 255)` is the `random` part of the cycle's input, a number from 0 to 254.
- Semantics.Step: when the source raises IndexError part-way through a handler, the writes made before the exception remain. The model halts before the handler writes anything. This affects DXYN and FX55/FX65 reaching past memory, where the source draws the rows that fit and FX55 stores and FX65 loads the registers that fit, and FX33 with I = 0xFFE or 0xFFF, where the source stores the digits that fit (the hundreds digit at I = 0xFFF, the hundreds and tens digits at I = 0xFFE) before it raises.
- Semantics.OpF: FX29 accepts any VX. For VX above F, I points past the font, as in the source. Writes to the font area are not prevented, in the source or the model.
- The `Errno` class and the `errno` attribute are never used by the core and are left out.
- The `opcode` attribute: the fetched opcode is passed to the handlers as a parameter instead of being stored in the object.
- Vm.Chip8.Run: a halt ends the run and is returned as a fault. In the source the exception propagates out of `run`.

## Findings

| source | as written | input that shows it | evidently intended | confidence | as-written member | corrected member |
|---|---|---|---|---|---|---|
| chip8.py:252 | `slef.reg[vx]`: the name `slef` is undefined, so every 8XY7 raises NameError | opcode 0x8017 with any registers | VX := VY - VX mod 256, VF := 1 exactly without a borrow, as the comment says | high, not executed | AsWritten.ReverseSubtractRaises | Registers.ReverseSubtractBorrow |
| chip8.py:258 | the left shift is dispatched on `subop == 15`, so 8XYE is reported unsupported and 8XYF shifts | opcode 0x801E | the shift on low nibble E, as the comment "8XYE" says, and F unsupported | high, not executed | AsWritten.ShiftLeftMisrouted | Registers.Alu |
| chip8.py:262 | `self.reg[vx] <<= 1` is not masked, so VX can leave the 8-bit range | V0 = 0x80, then the shift of V0 | VX := 2 * VX mod 256, the shifted-out bit in VF | high, not executed | AsWritten.ShiftLeftOverflows | Registers.ShiftLeftFlag |
