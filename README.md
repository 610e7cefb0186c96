# CHIP-8 virtual machine core, modelled in Dafny

This project models the core of a CHIP-8 emulator written in Rust. The core has three parts:

- the opcode decoder (`src/chip8/opcode.rs`);
- the instruction handlers (`src/chip8/instruction.rs`);
- the machine state and its clocking (`src/chip8/mod.rs`).

The opcode names (`6xkk`, `Dxyn`, …) follow Cowgod's Chip-8 Technical Reference, section 3.1. The glyph table follows section 2.4 of the same reference.

Modules, in dependency order:

| file | module | what it holds |
|---|---|---|
| `ints.dfy` | `Ints` | `u8`/`u16` as bounded integers; bitwise OR, AND, XOR and the sprite bit test, defined bit by bit |
| `opcode.dfy` | `OpCode` | `Operands`, the handler tags, the `Instruction` record, `FromCells`, `ToMatchTup`, the `Decode*` helpers and the full dispatch table `Decode` |
| `machine.dfy` | `Machine` | constants, glyph table, `State` (the machine as a value), class `Chip8` (the machine updated in place): constructor, `LoadSprite(s)`, `Fetch`, `PcInc`, `SetFlag`/`ClearFlag` |
| `sprite.dfy` | `Sprite` | the XOR blit of `drw_dxyn` as a function on screens, with its properties |
| `instruction.dfy` | `Instruction` | each handler as a next-state function on `State` and as a method on `Chip8`, plus `Exec` |
| `emulator.dfy` | `Emulator` | `Cycle`, `Advance` (its cycle loop `CycleLoop`, one pass of it `CyclePass`, and its delay-timer loop `DelayLoop`) and `LoadRom` |

How the pieces fit:

- Every handler method updates the `Chip8` object the way the Rust function does.
- Each method is proved to end in `XxxNext(old state, operands)`: a pure function on `State` that plays the role of the handler's specification.
- The properties of the handlers are lemmas about those functions.
- `Exec`, `Cycle` and `Advance` are proved against the functions `Next` (one handler), `CycleNext` (one cycle) and `Run` (the cycle loop of `advance`).
- The nested loops of `drw_dxyn` are the method `Instruction.Blit`, which works on the screen array alone. The two loops of `advance` are the methods `CycleLoop` and `DelayLoop`. The statements are the source's, in the source's order.

Rust panics become preconditions: an arithmetic overflow in debug builds, or an index out of range. Examples are `reg_pc += 2`, `reg_i += 1`, `digit * 5`, `base_y + c`, `base_x + 8`, and memory or sprite slices past 4096. `Safe` collects these conditions for each handler, and `CycleSafe`/`RunSafe` collect them for whole cycles.

Where the usual CHIP-8 rules and the code disagree, the model follows the code:

- **Timers.** The loops in `advance` test with a strict `>`. So an accumulator holding exactly one period does not tick; it needs one nanosecond more. `Emulator.DrainOnePeriod` shows both cases.
- **Redraw.** By the CHIP-8 convention, clearing the screen and drawing a sprite request a redraw, and `cls_00e0` and `drw_dxyn` do return true. But the dispatch table routes CLS and DRW to `not_implemented`, so no cycle returns true and `advance` always returns false. `Emulator.CycleNeverRedraws`, `Emulator.RunNeverRedraws` and `Emulator.Advance` state this.
- **VF on a repeated DRW.** By the CHIP-8 convention, drawing a sprite over itself reports a collision. In `drw_dxyn`, VF is 1 only when a set bit lands on a lit cell. On the second of two identical draws, those cells are the ones the first draw lit: cells that were unset before it. A cell that was already lit was turned off by the first draw, so the second draw finds it unset. `Instruction.DrwTwiceFlag` states this iff. `Instruction.ClsThenDrwTwice` gives the convention's case: on a blank screen, a sprite with a set bit does collide the second time.
- **LD F, Vx.** By the CHIP-8 convention, the digit is the low nibble of Vx. `ld_fx29` does not mask Vx. `digit * 5` is computed in `u8`, so it panics in debug builds once Vx >= 52. For Vx from 16 to 51 it points past the glyphs. `Machine.SpriteAddr` and the `LdFx29` case of `Safe` require `Vx * 5 < 256`. `Instruction.GlyphAddress` speaks only of Vx < 16.
- **ADD VF, kk.** `add_7xkk` writes the sum into any register, VF included. So with x = F, the flag register is overwritten. `Instruction.AddConstInverse` says that VF is kept only when x is not F.
- **Pixel constants.** `PX_SET` and `PX_UNS`, used by the handlers, are taken as `true` and `false`, since the screen is a vector of booleans.

## Model

| member | source | states |
|---|---|---|
| OpCode.FromCells | src/chip8/opcode.rs:21-25 | the word's high byte is `m1` and its low byte is `m2` |
| OpCode.FromCellsSplits | src/chip8/opcode.rs:21-25 | every word is `from_cells` of its own high and low byte |
| OpCode.ToMatchTup | src/chip8/opcode.rs:27-34 | four nibbles, each below 16, that recombine to the word |
| OpCode.NibbleFacts | src/chip8/opcode.rs:27-34 | the first nibble is the class, the last is the low nibble, and the last two make the low byte |
| OpCode.DecodeAddr | src/chip8/opcode.rs:213-215 | an `Address` equal to the low 12 bits, below 0x1000 |
| OpCode.DecodeReg | src/chip8/opcode.rs:217-219 | a `Reg` holding nibble 2, below 16 |
| OpCode.DecodeRegs | src/chip8/opcode.rs:221-223 | a `Regs` holding nibbles 2 and 1, both below 16 |
| OpCode.DecodeRegConst | src/chip8/opcode.rs:225-227 | a `RegAndConst` holding nibble 2 and the low byte |
| OpCode.DecodeRegsConst | src/chip8/opcode.rs:229-235 | a `RegsAndConst` holding nibbles 2, 1 and 0, all below 16 |
| OpCode.Decode | src/chip8/opcode.rs:36-206 | the instruction keeps the word and carries operands in range |
| OpCode.DecodeUnknown | src/chip8/opcode.rs:199-202 | a word gets the name `"???"` iff it matches no arm; it is then `(w, "???", Empty, not_implemented)` |
| OpCode.DecodeClassZero | src/chip8/opcode.rs:38-49 | in class 0, only 00E0 is CLS and only 00EE is RET, both with no operands; every other word is SYS `Address(nnn)`; all three are not implemented |
| OpCode.DecodeRouting | src/chip8/opcode.rs:36-198 | the handler of every word is what the reference routing `Routed` gives; CLS, SNE, DRW and Fx1E never reach their routines |
| OpCode.DecodeOperands | src/chip8/opcode.rs:50-198 | every recognised word outside class 0 carries the operand shape of its class (`Shape`) |
| OpCode.DecodeExamples | src/chip8/opcode.rs:38-45 | 00E0 is CLS and 00EE is RET; 5121 is `"???"` and 5120 is SE; D125 is DRW with (1, 2, 5) and not implemented; 600A is LD V0, 0x0A routed to `ld_6xkk` |
| Machine.SpriteAddr | src/chip8/mod.rs:213-216 | the glyph address is `digit * 5`: a multiple of 5 whose quotient is the digit |
| Machine.GlyphAt | src/chip8/mod.rs:223-240 | font byte `5d + k` is byte `k` of glyph `d` |
| Machine.LoadedGlyphsContents | src/chip8/mod.rs:218-240 | after the first `d` glyph copies, cells below `5d` hold the font and every other cell is unchanged |
| Machine.State.GetOpcode | src/chip8/mod.rs:195-197 | the word's high byte is `mem[idx]` and its low byte is `mem[idx + 1]` |
| Machine.State.PcInc | src/chip8/mod.rs:198-201 | PC grows by exactly 2 and nothing else changes |
| Machine.State.SetFlag | src/chip8/mod.rs:208-211 | VF becomes 1; V0..VE and every other field are unchanged |
| Machine.State.ClearFlag | src/chip8/mod.rs:203-206 | VF becomes 0; V0..VE and every other field are unchanged |
| Machine.InitialMemory | src/chip8/mod.rs:165-182 | in the initial memory, glyph `d` sits at `d * 5` and every cell from 80 on is zero |
| Machine.Chip8.constructor | src/chip8/mod.rs:165-182 | the new machine is `Initial()`: font loaded, PC = 0x200, I, V, DT, ST zero, empty stack, blank screen, zero time accumulators |
| Machine.Chip8.LoadSprite | src/chip8/mod.rs:218-221 | the five bytes land at `digit * 5`; every other cell is kept |
| Machine.Chip8.LoadSprites | src/chip8/mod.rs:223-240 | cells 0..80 hold the sixteen glyphs; every other cell is kept |
| Machine.Chip8.Fetch | src/chip8/mod.rs:188-193 | returns the word at PC; PC grows by 2 and nothing else changes |
| Machine.Chip8.PcInc | src/chip8/mod.rs:198-201 | PC grows by 2 |
| Machine.Chip8.SetFlag | src/chip8/mod.rs:208-211 | the state after is `State.SetFlag` of the state before |
| Machine.Chip8.ClearFlag | src/chip8/mod.rs:203-206 | the state after is `State.ClearFlag` of the state before |
| Sprite.DrawRowFlips | src/chip8/instruction.rs:149-163 | which cells a row toggles does not depend on the screen it is drawn on |
| Sprite.DrawSpriteFlips | src/chip8/instruction.rs:148-165 | which cells a sprite toggles does not depend on the screen it is drawn on |
| Sprite.DrawSpriteTwice | src/chip8/instruction.rs:148-165 | drawing the same sprite at the same place twice gives back the original screen |
| Sprite.HitInjective | src/chip8/instruction.rs:151-154 | within 32 rows and 8 columns, two sprite bits never land on the same wrapped cell |
| Sprite.FreshColumn | src/chip8/instruction.rs:149-154 | a column of a row lands on a cell no earlier column of that row reached |
| Sprite.DrawRowPixels | src/chip8/instruction.rs:149-163 | a row toggles exactly the cells its set bits land on; every other pixel is unchanged |
| Sprite.DrawRowCollision | src/chip8/instruction.rs:149-159 | a row collides iff the collision was already set or one of its set bits lands on a cell that was set |
| Sprite.DrawRowEffect | src/chip8/instruction.rs:149-163 | a row toggles exactly the cells its set bits land on; it collides iff one of those cells was set |
| Sprite.RowsDisjoint | src/chip8/instruction.rs:148-154 | a cell the last row reaches is reached by no earlier row |
| Sprite.CoversSplit | src/chip8/instruction.rs:148-150 | a cell is covered by a sprite iff it is covered by the last row or by the rows before it |
| Sprite.CollidesSplit | src/chip8/instruction.rs:148-159 | a sprite collides iff its last row or the rows before it do |
| Sprite.DrawSpritePixels | src/chip8/instruction.rs:148-165 | a sprite of at most 32 rows toggles exactly the covered cells; all other pixels are unchanged |
| Sprite.DrawSpriteCollision | src/chip8/instruction.rs:137-165 | the blit reports a collision iff some set bit lands on a cell that was set before |
| Sprite.DrawRowWraps | src/chip8/instruction.rs:151-154 | 0xFF drawn at x = 60 lights x = 60..63 and wraps to x = 0..3, with no collision on a blank row |
| Instruction.NextRedraw | src/chip8/instruction.rs:38-208 | a handler returns true iff it is `cls_00e0` or `drw_dxyn`, whatever its operands |
| Instruction.MismatchIsNoop | src/chip8/instruction.rs:43-208 | a handler given operands of another shape does not panic and changes nothing |
| Instruction.NextFrame | src/chip8/instruction.rs:38-208 | no handler touches the stack, DT or ST; only CLS and DRW touch the screen; only Fx55 touches memory; only JP and SNE touch PC |
| Instruction.SneSkips | src/chip8/instruction.rs:59-66 | PC grows by 2 iff Vx != kk and stays put iff Vx == kk; nothing else changes |
| Instruction.LoadThenSne | src/chip8/instruction.rs:59-73 | after LD Vx, kk, SNE Vx, kk never skips and SNE Vx, j with j != kk always skips |
| Instruction.LdCopies | src/chip8/instruction.rs:84-89 | Vx becomes Vy; no other register and no other field changes |
| Instruction.AddConstInverse | src/chip8/instruction.rs:75-82 | Vx becomes (Vx + kk) mod 256; VF is kept unless x = F; ADD Vx, 256 - kk then restores the machine |
| Instruction.AddRegsCarry | src/chip8/instruction.rs:112-123 | for x != F, VF = 1 iff Vx + Vy > 255, VF = 0 otherwise, Vx + 256·VF equals the sum, and V0..VE other than Vx are unchanged |
| Instruction.AddRegsIntoFlag | src/chip8/instruction.rs:112-123 | for x = F, the low byte of the sum overwrites the carry in VF |
| Ints.OrAndAbsorb | src/chip8/instruction.rs:91-103 | OR-ing a byte `a` with `b` and then AND-ing with `b` gives `b` |
| Ints.OrSelf | src/chip8/instruction.rs:91-96 | `a \| a == a` on bytes |
| Ints.OrSelfBits | src/chip8/instruction.rs:91-96 | bit by bit: OR of a number with itself keeps exactly its low bits |
| Ints.XorCancels | src/chip8/instruction.rs:105-110 | `(a ^ b) ^ b == a` and `a ^ a == 0` on bytes |
| Ints.OrAndAbsorbBits | src/chip8/instruction.rs:91-103 | bit by bit: OR with `b` then AND with `b` keeps exactly the low bits of `b` |
| Ints.XorCancelBits | src/chip8/instruction.rs:105-110 | bitwise: `(a ^ b) ^ b` gives back the low bits of `a` |
| Ints.XorSelfBits | src/chip8/instruction.rs:105-110 | bitwise: `a ^ a` has no bit set |
| Ints.LowBitsOfSmall | src/chip8/instruction.rs:91-110 | a number below 2^n is its own low `n` bits, so the byte operators give back bytes |
| Ints.FullByte | src/chip8/instruction.rs:150 | every bit of 0xFF passes the sprite bit test |
| Instruction.OrThenAnd | src/chip8/instruction.rs:84-103 | OR Vx, Vy followed by AND Vx, Vy has the effect of LD Vx, Vy, also when x = y |
| Instruction.XorTwice | src/chip8/instruction.rs:105-110 | XOR Vx, Vy twice restores the machine (x != y); XOR Vx, Vx clears Vx |
| Instruction.IndexArithmetic | src/chip8/instruction.rs:125-180 | LD I, nnn then ADD I, Vx leaves nnn + Vx in I and nothing else changed |
| Instruction.StoreThenLoad | src/chip8/instruction.rs:182-200 | storing V0..Vx, resetting I and loading V0..Vx reads back the same registers and leaves I = old I + x + 1 |
| Instruction.StoreCells | src/chip8/instruction.rs:182-190 | Fx55 writes Vk to cell I + k for k <= x, keeps every other cell, and leaves I = old I + x + 1 |
| Instruction.GlyphAddress | src/chip8/instruction.rs:202-208 | with the font in place and Vx < 16, I points at the five bytes of glyph Vx |
| Instruction.ClsBlanks | src/chip8/instruction.rs:43-50 | after CLS every pixel is unset and nothing but the screen has changed |
| Instruction.DrwEffect | src/chip8/instruction.rs:132-173 | DRW toggles exactly the pixels the sprite at I covers from (Vx, Vy); VF = 1 iff one of them was lit, else 0; V0..VE and every field but screen and VF are unchanged |
| Instruction.DrwTwice | src/chip8/instruction.rs:132-173 | DRW twice with the same operands is safe again and gives back the original screen |
| Instruction.DrwTwiceFlag | src/chip8/instruction.rs:132-173 | with at most 32 rows, the second of two identical DRWs sets VF to 1 iff a set bit of the sprite lands on a cell that was unset before the first |
| Instruction.ClsThenDrwTwice | src/chip8/instruction.rs:43-173 | after CLS, a sprite with a set bit drawn twice at the same place reports a collision the second time |
| Instruction.ClsThenDrw | src/chip8/instruction.rs:43-173 | DRW right after CLS never reports a collision |
| Instruction.NotImplemented | src/chip8/instruction.rs:38-41 | changes nothing (no modifies clause) and returns false |
| Instruction.Cls00e0 | src/chip8/instruction.rs:43-50 | the loop ends in `Cls00e0Next`: blank screen for `Empty`, no change otherwise; returns true |
| Instruction.Jp1nnn | src/chip8/instruction.rs:52-57 | ends in `Jp1nnnNext` (PC := nnn) and returns false |
| Instruction.Sne4xnn | src/chip8/instruction.rs:59-66 | ends in `Sne4xnnNext` and returns false |
| Instruction.Ld6xkk | src/chip8/instruction.rs:68-73 | ends in `Ld6xkkNext` (Vx := kk) and returns false |
| Instruction.Add7xkk | src/chip8/instruction.rs:75-82 | ends in `Add7xkkNext` and returns false |
| Instruction.Ld8xy0 | src/chip8/instruction.rs:84-89 | ends in `Ld8xy0Next` and returns false |
| Instruction.Or8xy1 | src/chip8/instruction.rs:91-96 | ends in `Or8xy1Next` (Vx := Vx OR Vy) and returns false |
| Instruction.And8xy2 | src/chip8/instruction.rs:98-103 | ends in `And8xy2Next` (Vx := Vx & Vy) and returns false |
| Instruction.Xor8xy3 | src/chip8/instruction.rs:105-110 | ends in `Xor8xy3Next` (Vx := Vx ^ Vy) and returns false |
| Instruction.Add8xy4 | src/chip8/instruction.rs:112-123 | ends in `Add8xy4Next` and returns false |
| Instruction.LdAnnn | src/chip8/instruction.rs:125-130 | ends in `LdAnnnNext` (I := nnn) and returns false |
| Instruction.DrwDxyn | src/chip8/instruction.rs:132-173 | the nested row and column loops end in `DrwDxynNext` (the screen is `DrawSprite` of the old one; VF is the collision); returns true |
| Instruction.Blit | src/chip8/instruction.rs:148-165 | the row and column loops turn the screen into `DrawSprite` of the old one, and the collision flag is the one `DrawSprite` reports |
| Instruction.AddFx1e | src/chip8/instruction.rs:175-180 | ends in `AddFx1eNext` (I := I + Vx) and returns false |
| Instruction.LdFx55 | src/chip8/instruction.rs:182-190 | the store loop ends in `LdFx55Next` and returns false |
| Instruction.LdFx65 | src/chip8/instruction.rs:192-200 | the load loop ends in `LdFx65Next` and returns false |
| Instruction.LdFx29 | src/chip8/instruction.rs:202-208 | ends in `LdFx29Next` (I := Vx * 5) and returns false |
| Instruction.Exec | src/chip8/instruction.rs:27-31 | the new state and the result are `Next` of the instruction's handler and operands |
| Emulator.DrainSplits | src/chip8/mod.rs:120-130 | each pass removes exactly one period; the rest is at most one period and is positive when the accumulator was |
| Emulator.DrainOnePeriod | src/chip8/mod.rs:125-130 | exactly one timer period does not tick; one nanosecond more ticks once |
| Emulator.CountdownSaturates | src/chip8/mod.rs:125-130 | after `k` ticks DT is `dt - k`, stopping at 0 instead of wrapping |
| Emulator.DrainStep | src/chip8/mod.rs:120-121 | a pass whose loop test holds removes one period and exactly one pass from what is left |
| Emulator.RunStep | src/chip8/mod.rs:120-123 | one pass runs a cycle iff `draw` is still false; the rest of the loop continues from there |
| Emulator.CycleNeverRedraws | src/chip8/opcode.rs:36-206 | no cycle returns true, because no word is routed to `cls_00e0` or `drw_dxyn` |
| Emulator.RunNeverRedraws | src/chip8/mod.rs:118-123 | the cycle loop ends with the `draw` it started with |
| Emulator.RunKeepsTimers | src/chip8/mod.rs:118-123 | running cycles never changes the stack, DT or ST |
| Emulator.JumpToSelf | src/chip8/mod.rs:184-193 | a `1nnn` jumping to its own address leaves the machine unchanged, for any number of cycles |
| Emulator.LoadAddProgram | src/chip8/mod.rs:184-193 | `60 0A 70 05` at 0x200 runs in two cycles to V0 = 0x0F and PC = 0x204 |
| Emulator.Cycle | src/chip8/mod.rs:184-186 | fetch, decode and execute end in `CycleNext` of the old state |
| Emulator.Advance | src/chip8/mod.rs:114-141 | the state is `Run` for the cycles drained, with DT counted down by the delay ticks drained; both accumulators keep the remainders; the result is the run's redraw flag, which is always false; the sound accumulator is unchanged |
| Emulator.CycleLoop | src/chip8/mod.rs:118-123 | the cycle loop ends in `Run` of the old state for the passes `Drain` gives, and leaves the remainder in the accumulator |
| Emulator.CyclePass | src/chip8/mod.rs:120-123 | one pass takes a period off the accumulator and leaves a run of one pass fewer that ends in the same state |
| Emulator.DelayLoop | src/chip8/mod.rs:125-130 | DT ends as `Countdown` of the old DT for the ticks `Drain` gives; the accumulator keeps the remainder |
| Emulator.RomFetch | src/chip8/mod.rs:108-112 | after loading a ROM of two bytes or more, the first fetch reads its first two bytes |
| Emulator.RomKeepsFont | src/chip8/mod.rs:108-112 | loading at PC >= 80 keeps the glyphs |
| Emulator.LoadRom | src/chip8/mod.rs:108-112 | byte `k` goes to cell `pc + k`; registers and all other cells are kept |

## Left out

- `Chip8::draw`, `draw_size`, `cycle_dt` and the rendering helpers: they call into the graphics library or return a constant (`CYCLE_TIME`).
- The `Display` and `UpperHex` implementations and the `trace!`/`warn!` logging: string formatting only.
- The debug views, the logger, the window and display back ends, `lib.rs` and `main.rs`. These are terminal and window I/O, the command line, reading the ROM file, and the blocking event loop.
- SYS, CALL, RET, SE (3xkk, 5xy0), SNE 9xy0, SUB, SUBN, SHR, SHL, JP V0, RND, SKP/SKNP, the DT/ST/key loads and BCD: the table routes them to `not_implemented`, so they are modelled only as the no-op they are. The `stack` field is never touched.
- The sound-timer loop of `advance` (src/chip8/mod.rs:132-138) is not modelled as a loop. Nothing ever adds to the sound accumulator, so it stays at zero (part of `Chip8.Valid`) and the loop body never runs. Its body decrements ST twice per tick and would underflow at 0.
- Durations are whole nanoseconds (`nat`). `Duration`'s seconds/nanoseconds split and its overflow panic are not modelled.
- `Instruction::create` is the constructor of the `Instruction` datatype. The handler function pointer is a tag of the `Handler` datatype, which `Exec` maps to its method.
- Machine.Chip8.LoadSprites: it copies the sixteen rows of the `GLYPHS` table rather than sixteen separate literal arrays. The table holds the same bytes in the same order.
- Instruction.DrwEffect, Sprite.DrawSpritePixels, Sprite.DrawSpriteCollision: they require at most 32 sprite rows, so that no two bits land on the same cell. A decoded DRW has at most 15 rows. `DrawSpriteTwice` and `DrwTwice` hold for any height.
- Rust's debug-build overflow panics are taken as the behaviour (preconditions). The wrap-around a release build would perform on `reg_pc += 2`, `reg_i += …`, `digit * 5` or `base_y + c` is not modelled.
- `Regs`/`Mem` indexing is modelled by array indexing with the index bound as a precondition, which is where Rust panics.
