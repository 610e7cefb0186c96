/**
 * The emulator loop of src/chip8/mod.rs: one instruction cycle (fetch, decode,
 * execute), `advance`, which turns elapsed nanoseconds into instruction cycles
 * and delay-timer ticks, and `load_rom`.
 */
module Emulator {
  import opened Ints
  import opened OpCode
  import opened Machine
  import opened Instruction

  // ------------------------------------------------------------------
  // Draining an accumulator
  // ------------------------------------------------------------------

  /**
   * `while acc > period { acc -= period; ... }`: how many times the body runs
   * and what is left in the accumulator afterwards.
   */
  function Drain(acc: nat, period: nat): (r: (nat, nat))
    requires period > 0
    decreases acc
  {
    if acc > period then
      var rest := Drain(acc - period, period);
      (rest.0 + 1, rest.1)
    else (0, acc)
  }

  /**
   * Each pass removes exactly one period; what is left is at most one period,
   * and it is never emptied completely: a non-empty accumulator keeps a
   * positive remainder, because the loop test is a strict `>`.
   */
  lemma {:induction false} DrainSplits(acc: nat, period: nat)
    requires period > 0
    ensures var (ticks, rest) := Drain(acc, period);
      && rest + ticks * period == acc
      && rest <= period
      && (acc > 0 ==> rest > 0)
      && (ticks == 0 <==> acc <= period)
  {
    if acc > period {
      DrainSplits(acc - period, period);
    }
  }

  /** Exactly one period in a fresh accumulator does not tick; one nanosecond more ticks once. */
  lemma DrainOnePeriod()
    ensures Drain(TIMER_TIME, TIMER_TIME) == (0, TIMER_TIME)
    ensures Drain(TIMER_TIME + 1, TIMER_TIME) == (1, 1)
    ensures Drain(2 * TIMER_TIME, TIMER_TIME) == (1, TIMER_TIME)
  {
  }

  /** DT after `k` delay-timer ticks, each decrementing it only while it is positive. */
  function Countdown(dt: u8, k: nat): u8 {
    if k == 0 then dt
    else
      var d := Countdown(dt, k - 1);
      if d > 0 then d - 1 else 0
  }

  /** The delay timer counts down by one per tick and stops at zero instead of wrapping. */
  lemma {:induction false} CountdownSaturates(dt: u8, k: nat)
    ensures Countdown(dt, k) == if k >= dt then 0 else dt - k
  {
    if k > 0 {
      CountdownSaturates(dt, k - 1);
    }
  }

  // ------------------------------------------------------------------
  // Instruction cycles
  // ------------------------------------------------------------------

  /** `cycle` does not panic: both opcode cells exist and the decoded handler is safe after the fetch. */
  predicate CycleSafe(s: State)
    requires s.WellSized()
  {
    && s.regPc + 1 < MEM_SIZE
    && var ins := Decode(s.GetOpcode(s.regPc));
       Safe(ins.handler, ins.operands, s.PcInc())
  }

  /** `cycle`: fetch the word at PC, advance PC by 2, decode the word and execute it. */
  function CycleNext(s: State): (r: (State, bool))
    requires s.WellSized() && CycleSafe(s)
    ensures r.0.WellSized()
  {
    var ins := Decode(s.GetOpcode(s.regPc));
    Next(ins.handler, ins.operands, s.PcInc())
  }

  /**
   * The cycle loop of `advance` with `ticks` passes left and `draw` so far:
   * `draw = draw || cycle()` runs no further cycle once `draw` holds.
   */
  function Run(s: State, ticks: nat, draw: bool): (r: (State, bool))
    requires s.WellSized() && RunSafe(s, ticks, draw)
    ensures r.0.WellSized()
    decreases ticks, 1
  {
    if ticks == 0 || draw then (s, draw) else RunOn(s, ticks)
  }

  /** One cycle, then the rest of the loop. */
  function RunOn(s: State, ticks: nat): (r: (State, bool))
    requires s.WellSized() && ticks > 0 && SafeOn(s, ticks)
    ensures r.0.WellSized()
    decreases ticks, 0
  {
    var next := CycleNext(s);
    Run(next.0, ticks - 1, next.1)
  }

  /** No cycle the loop executes panics. */
  predicate RunSafe(s: State, ticks: nat, draw: bool)
    requires s.WellSized()
    decreases ticks, 1
  {
    ticks == 0 || draw || SafeOn(s, ticks)
  }

  /** The next cycle does not panic, nor does any of the rest of the loop. */
  predicate SafeOn(s: State, ticks: nat)
    requires s.WellSized() && ticks > 0
    decreases ticks, 0
  {
    CycleSafe(s) && var next := CycleNext(s); RunSafe(next.0, ticks - 1, next.1)
  }

  /**
   * No cycle asks for a redraw: the only handlers that return true are
   * `cls_00e0` and `drw_dxyn`, and the dispatch table routes no word to either.
   */
  lemma CycleNeverRedraws(s: State)
    requires s.WellSized() && CycleSafe(s)
    ensures !CycleNext(s).1
  {
    var ins := Decode(s.GetOpcode(s.regPc));
    DecodeRouting(s.GetOpcode(s.regPc));
    NextRedraw(ins.handler, ins.operands, s.PcInc());
  }

  /** The cycle loop ends with the `draw` it started with: it never turns it on. */
  lemma {:induction false} RunNeverRedraws(s: State, ticks: nat, draw: bool)
    requires s.WellSized() && RunSafe(s, ticks, draw)
    ensures Run(s, ticks, draw).1 == draw
    decreases ticks
  {
    if ticks > 0 && !draw {
      CycleNeverRedraws(s);
      var next := CycleNext(s);
      RunNeverRedraws(next.0, ticks - 1, next.1);
    }
  }

  /** No instruction touches the stack, DT or ST, so neither does a run of cycles. */
  lemma {:induction false} RunKeepsTimers(s: State, ticks: nat, draw: bool)
    requires s.WellSized() && RunSafe(s, ticks, draw)
    ensures var r := Run(s, ticks, draw).0;
      r.stack == s.stack && r.regDt == s.regDt && r.regSt == s.regSt
    decreases ticks
  {
    if ticks > 0 && !draw {
      var ins := Decode(s.GetOpcode(s.regPc));
      NextFrame(ins.handler, ins.operands, s.PcInc());
      var next := CycleNext(s);
      RunKeepsTimers(next.0, ticks - 1, next.1);
    }
  }

  /** A `1nnn` that jumps to its own address is a fixed point: every cycle leaves the machine as it was. */
  lemma {:induction false} JumpToSelf(s: State, ticks: nat)
    requires s.WellSized() && s.regPc + 1 < MEM_SIZE
    requires s.mem[s.regPc] == 0x10 + s.regPc / 0x100 && s.mem[s.regPc + 1] == s.regPc % 0x100
    ensures CycleSafe(s) && CycleNext(s) == (s, false)
    ensures RunSafe(s, ticks, false) && Run(s, ticks, false) == (s, false)
  {
    var w := s.GetOpcode(s.regPc);
    assert w == 0x1000 + s.regPc;
    assert Decode(w).operands == Address(s.regPc);
    if ticks > 0 {
      JumpToSelf(s, ticks - 1);
    }
  }

  /** `LD V0, 0x0A; ADD V0, 0x05` at 0x200: after two cycles V0 = 0x0F and PC = 0x204. */
  lemma LoadAddProgram(s: State)
    requires s.WellSized() && s.regPc == 0x200
    requires s.mem[0x200] == 0x60 && s.mem[0x201] == 0x0A && s.mem[0x202] == 0x70 && s.mem[0x203] == 0x05
    ensures RunSafe(s, 2, false)
    ensures Run(s, 2, false) == (s.(regs := s.regs[0 := 0x0F], regPc := 0x204), false)
  {
    assert s.GetOpcode(0x200) == 0x600A;
    var s1 := s.(regs := s.regs[0 := 0x0A], regPc := 0x202);
    assert Decode(0x600A) == Instruction(0x600A, "LD", RegAndConst(0, 0x0A), Handler.Ld6xkk);
    assert CycleNext(s) == (s1, false);
    assert s1.GetOpcode(0x202) == 0x7005;
    assert Decode(0x7005) == Instruction(0x7005, "ADD", RegAndConst(0, 0x05), Handler.Add7xkk);
    assert s1.regs[0 := (0x0A + 0x05) % 0x100] == s.regs[0 := 0x0F];
    assert CycleNext(s1) == (s.(regs := s.regs[0 := 0x0F], regPc := 0x204), false);
  }

  /** `cycle`. */
  method Cycle(e: Chip8) returns (redraw: bool)
    requires e.Valid() && CycleSafe(e.Snapshot())
    modifies e`regPc, e`regI, e.mem, e.regs, e.screen
    ensures e.Valid() && (e.Snapshot(), redraw) == CycleNext(old(e.Snapshot()))
  {
    var code := e.Fetch();
    var ins := Decode(code);
    redraw := Exec(ins, e);
  }

  // ------------------------------------------------------------------
  // advance and load_rom
  // ------------------------------------------------------------------

  /** One pass of an accumulator loop whose test holds removes one period and one tick. */
  lemma DrainStep(acc: nat, period: nat)
    requires period > 0 && acc > period
    ensures Drain(acc, period).0 > 0
    ensures Drain(acc - period, period) == (Drain(acc, period).0 - 1, Drain(acc, period).1)
  {
  }

  /** One pass of the cycle loop: nothing once `draw` holds, else one cycle. */
  lemma RunStep(s: State, ticks: nat, draw: bool)
    requires s.WellSized() && ticks > 0 && RunSafe(s, ticks, draw)
    ensures draw ==> RunSafe(s, ticks - 1, draw) && Run(s, ticks, draw) == Run(s, ticks - 1, draw)
    ensures !draw ==> CycleSafe(s) && RunSafe(CycleNext(s).0, ticks - 1, CycleNext(s).1)
    ensures !draw ==> Run(s, ticks, draw) == Run(CycleNext(s).0, ticks - 1, CycleNext(s).1)
  {
  }

  /**
   * `advance`: adds `elapsed` nanoseconds to both accumulators, runs one cycle
   * per whole `CYCLE_TIME` drained (none after the first that asks for a
   * redraw), then one delay tick per `TIMER_TIME` drained. The sound
   * accumulator stays at zero, so ST is never touched. As the dispatch table
   * is written no cycle asks for a redraw, so the result is always false.
   */
  method Advance(e: Chip8, elapsed: nat) returns (draw: bool)
    requires e.Valid()
    requires RunSafe(e.Snapshot(), Drain(e.cycleTimer + elapsed, CYCLE_TIME).0, false)
    modifies e, e.mem, e.regs, e.screen
    ensures e.Valid()
    ensures var (cycles, cycleRest) := Drain(old(e.cycleTimer) + elapsed, CYCLE_TIME);
      var (ticks, delayRest) := Drain(old(e.delayTimer) + elapsed, TIMER_TIME);
      var (s, d) := Run(old(e.Snapshot()), cycles, false);
      && draw == d
      && e.Snapshot() == s.(regDt := Countdown(old(e.regDt), ticks))
      && e.cycleTimer == cycleRest && e.delayTimer == delayRest
      && e.soundTimer == old(e.soundTimer)
    ensures !draw
  {
    e.cycleTimer := e.cycleTimer + elapsed;
    e.delayTimer := e.delayTimer + elapsed;
    ghost var start := e.Snapshot();
    draw := CycleLoop(e);
    RunKeepsTimers(start, Drain(old(e.cycleTimer) + elapsed, CYCLE_TIME).0, false);
    RunNeverRedraws(start, Drain(old(e.cycleTimer) + elapsed, CYCLE_TIME).0, false);
    ghost var ran := e.Snapshot();
    DelayLoop(e);
    assert e.Snapshot() == ran.(regDt := e.regDt);
  }

  /** The cycle loop of `advance`: one cycle per period drained, none once a redraw was asked for. */
  method CycleLoop(e: Chip8) returns (draw: bool)
    requires e.Valid() && RunSafe(e.Snapshot(), Drain(e.cycleTimer, CYCLE_TIME).0, false)
    modifies e`cycleTimer, e`regPc, e`regI, e.mem, e.regs, e.screen
    ensures e.Valid()
    ensures (e.Snapshot(), draw) == Run(old(e.Snapshot()), Drain(old(e.cycleTimer), CYCLE_TIME).0, false)
    ensures e.cycleTimer == Drain(old(e.cycleTimer), CYCLE_TIME).1
  {
    draw := false;
    ghost var final := Run(e.Snapshot(), Drain(e.cycleTimer, CYCLE_TIME).0, false);
    ghost var cycleRest := Drain(e.cycleTimer, CYCLE_TIME).1;
    ghost var left := Drain(e.cycleTimer, CYCLE_TIME).0;
    while e.cycleTimer > CYCLE_TIME
      invariant e.Valid()
      invariant Drain(e.cycleTimer, CYCLE_TIME).0 == left
      invariant Drain(e.cycleTimer, CYCLE_TIME).1 == cycleRest
      invariant RunSafe(e.Snapshot(), left, draw) && Run(e.Snapshot(), left, draw) == final
      decreases e.cycleTimer
    {
      draw := CyclePass(e, draw, left, final);
      left := left - 1;
    }
  }

  /**
   * One pass of the cycle loop: one period off the accumulator, then
   * `draw = draw || cycle()`, so a cycle runs only while no redraw was asked for.
   * A run of `ticks` passes that ends in `final` goes on as one of `ticks - 1`.
   */
  method CyclePass(e: Chip8, draw: bool, ghost ticks: nat, ghost final: (State, bool)) returns (draw': bool)
    requires e.Valid() && e.cycleTimer > CYCLE_TIME && ticks > 0
    requires RunSafe(e.Snapshot(), ticks, draw) && Run(e.Snapshot(), ticks, draw) == final
    modifies e`cycleTimer, e`regPc, e`regI, e.mem, e.regs, e.screen
    ensures e.cycleTimer == old(e.cycleTimer) - CYCLE_TIME
    ensures Drain(e.cycleTimer, CYCLE_TIME).0 == Drain(old(e.cycleTimer), CYCLE_TIME).0 - 1
    ensures Drain(e.cycleTimer, CYCLE_TIME).1 == Drain(old(e.cycleTimer), CYCLE_TIME).1
    ensures e.Valid()
    ensures RunSafe(e.Snapshot(), ticks - 1, draw') && Run(e.Snapshot(), ticks - 1, draw') == final
  {
    RunStep(e.Snapshot(), ticks, draw);
    DrainStep(e.cycleTimer, CYCLE_TIME);
    e.cycleTimer := e.cycleTimer - CYCLE_TIME;
    draw' := draw;
    if !draw {
      draw' := Cycle(e);
    }
  }

  /** The delay-timer loop of `advance`: DT goes down by one per period drained, stopping at zero. */
  method DelayLoop(e: Chip8)
    modifies e`delayTimer, e`regDt
    ensures e.regDt == Countdown(old(e.regDt), Drain(old(e.delayTimer), TIMER_TIME).0)
    ensures e.delayTimer == Drain(old(e.delayTimer), TIMER_TIME).1
  {
    ghost var ticks := Drain(e.delayTimer, TIMER_TIME).0;
    ghost var delayRest := Drain(e.delayTimer, TIMER_TIME).1;
    ghost var k: nat := 0;
    while e.delayTimer > TIMER_TIME
      invariant k <= ticks
      invariant Drain(e.delayTimer, TIMER_TIME) == (ticks - k, delayRest)
      invariant e.regDt == Countdown(old(e.regDt), k)
      decreases e.delayTimer
    {
      DrainStep(e.delayTimer, TIMER_TIME);
      e.delayTimer := e.delayTimer - TIMER_TIME;
      if e.regDt > 0 {
        e.regDt := e.regDt - 1;
      }
      k := k + 1;
    }
  }

  /** Memory after `load_rom`: the content copied to the cells from `pc` on. */
  function WithRom(mem: seq<u8>, pc: nat, content: seq<u8>): seq<u8>
    requires pc + |content| <= |mem|
  {
    mem[..pc] + content + mem[pc + |content|..]
  }

  /** After loading a ROM of two bytes or more, the first fetch reads its first two bytes. */
  lemma RomFetch(s: State, content: seq<u8>)
    requires s.WellSized() && s.regPc + |content| <= MEM_SIZE && |content| >= 2
    ensures var r := s.(mem := WithRom(s.mem, s.regPc, content));
      r.WellSized() && r.GetOpcode(s.regPc) == FromCells(content[0], content[1])
  {
    var r := s.(mem := WithRom(s.mem, s.regPc, content));
    assert r.mem[s.regPc] == content[0] && r.mem[s.regPc + 1] == content[1];
  }

  /** Loading a ROM at a PC of 80 or above keeps the glyphs in cells 0..80. */
  lemma RomKeepsFont(mem: seq<u8>, pc: nat, content: seq<u8>)
    requires pc + |content| <= |mem| && 16 * 5 <= pc
    ensures |WithRom(mem, pc, content)| == |mem|
    ensures WithRom(mem, pc, content)[..16 * 5] == mem[..16 * 5]
  {
  }

  /** `load_rom`: byte `k` of the content goes to cell `pc + k`; registers and other cells are kept. */
  method LoadRom(e: Chip8, content: seq<u8>)
    requires e.Valid() && e.regPc + |content| <= MEM_SIZE
    modifies e.mem
    ensures e.Snapshot() == old(e.Snapshot()).(mem := WithRom(old(e.mem[..]), e.regPc, content))
  {
    ghost var mem0 := e.mem[..];
    var ctr := 0;
    while ctr < |content|
      invariant 0 <= ctr <= |content|
      invariant forall a :: 0 <= a < MEM_SIZE ==>
        e.mem[a] == if e.regPc <= a < e.regPc + ctr then content[a - e.regPc] else mem0[a]
    {
      e.mem[e.regPc + ctr] := content[ctr];
      ctr := ctr + 1;
    }
    assert e.mem[..] == mem0[..e.regPc] + content + mem0[e.regPc + |content|..];
  }
}
