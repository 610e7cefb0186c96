/**
 * The state of the CHIP-8 machine (src/chip8/mod.rs): 4 KiB of memory, sixteen
 * general registers V0..VF, the index register I, the program counter, the two
 * timer registers, the unused call stack, a 64x32 screen of booleans and the
 * three elapsed-time accumulators.
 *
 * `State` is the value of the machine's registers, memory, stack and screen;
 * the class `Chip8` holds the same data in place and `Snapshot()` reads it
 * back as a `State`. The handlers are specified on `State` values.
 */
module Machine {
  import opened Ints
  import opened OpCode

  const STACK_SIZE: nat := 16
  const GP_AMOUNT: nat := 16
  const MEM_SIZE: nat := 4 * 1024

  const WIDTH: nat := 64
  const HEIGHT: nat := 32

  /** Screen cells are booleans: a set pixel is `true`. */
  const PX_SET: bool := true
  const PX_UNS: bool := false

  /** One instruction cycle every 2 ms (about 500 Hz), in nanoseconds. */
  const CYCLE_TIME: nat := 2_000_000
  /** One timer tick every 16 666 666 ns (about 60 Hz). */
  const TIMER_TIME: nat := 16_666_666

  /** The sixteen built-in hexadecimal glyphs, five rows each, as `load_sprites` writes them. */
  const GLYPHS: seq<seq<u8>> := [
    [0xF0, 0x90, 0x90, 0x90, 0xF0], [0x20, 0x60, 0x20, 0x20, 0x70],
    [0xF0, 0x10, 0xF0, 0x80, 0xF0], [0xF0, 0x10, 0xF0, 0x10, 0xF0],
    [0x90, 0x90, 0xF0, 0x10, 0x10], [0xF0, 0x80, 0xF0, 0x10, 0xF0],
    [0xF0, 0x80, 0xF0, 0x90, 0xF0], [0xF0, 0x10, 0x20, 0x40, 0x40],
    [0xF0, 0x90, 0xF0, 0x90, 0xF0], [0xF0, 0x90, 0xF0, 0x10, 0xF0],
    [0xF0, 0x90, 0xF0, 0x90, 0x90], [0xE0, 0x90, 0xE0, 0x90, 0xE0],
    [0xF0, 0x80, 0x80, 0x80, 0xF0], [0xE0, 0x90, 0x90, 0x90, 0xE0],
    [0xF0, 0x80, 0xF0, 0x80, 0xF0], [0xF0, 0x80, 0xF0, 0x80, 0x80]
  ]

  /** `sprite_addr`: glyph `digit` starts at `digit * 5`, computed in `u8`, which must not overflow. */
  function SpriteAddr(digit: u8): (a: u16)
    requires digit * 5 < 0x100
    ensures a % 5 == 0 && a / 5 == digit
  {
    digit * 5
  }

  /** Memory cell `k` of the glyph area once every glyph is loaded. */
  function FontByte(k: nat): u8
    requires k < 16 * 5
  {
    GLYPHS[k / 5][k % 5]
  }

  /** The glyph area holds glyph `d` at `SpriteAddr(d)`. */
  lemma GlyphAt(d: u8, k: nat)
    requires d < 16 && k < 5
    ensures SpriteAddr(d) + k < 16 * 5 && FontByte(SpriteAddr(d) + k) == GLYPHS[d][k]
  {
    var a := SpriteAddr(d);
    assert (a + k) / 5 == d && (a + k) % 5 == k;
  }

  /** Memory `m` after glyphs 0 .. d - 1 have been copied to their sprite addresses in turn. */
  function LoadedGlyphs(m: seq<u8>, d: nat): (r: seq<u8>)
    requires d <= 16 && |m| == MEM_SIZE
    ensures |r| == MEM_SIZE
  {
    if d == 0 then m
    else
      var prev := LoadedGlyphs(m, d - 1);
      prev[..(d - 1) * 5] + GLYPHS[d - 1] + prev[(d - 1) * 5 + 5..]
  }

  /** After `d` glyphs, cells below `d * 5` hold the glyph table and the rest is untouched. */
  lemma {:induction false} LoadedGlyphsContents(m: seq<u8>, d: nat)
    requires d <= 16 && |m| == MEM_SIZE
    ensures forall k :: 0 <= k < d * 5 ==> LoadedGlyphs(m, d)[k] == FontByte(k)
    ensures forall k :: d * 5 <= k < MEM_SIZE ==> LoadedGlyphs(m, d)[k] == m[k]
  {
    if d > 0 {
      LoadedGlyphsContents(m, d - 1);
      var r := LoadedGlyphs(m, d);
      forall k | (d - 1) * 5 <= k < d * 5
        ensures r[k] == FontByte(k)
      {
        assert k / 5 == d - 1 && k % 5 == k - (d - 1) * 5;
      }
    }
  }

  /** Registers, memory, screen and stack of the machine, as a value. */
  datatype State = State(
    mem: seq<u8>,
    stack: seq<u16>,
    regs: seq<u8>,
    regI: u16,
    regPc: u16,
    regDt: u8,
    regSt: u8,
    screen: seq<bool>)
  {
    /** The fixed sizes of memory, register file and screen. */
    predicate WellSized() {
      |mem| == MEM_SIZE && |regs| == GP_AMOUNT && |screen| == WIDTH * HEIGHT
    }

    /** `get_opcode`: the big-endian word at `idx`; `idx + 1` must be a valid cell. */
    function GetOpcode(idx: u16): (w: u16)
      requires WellSized() && idx + 1 < MEM_SIZE
      ensures w / 0x100 == mem[idx] && w % 0x100 == mem[idx + 1]
    {
      FromCells(mem[idx], mem[idx + 1])
    }

    /** `pc_inc`: the `u16` addition must not overflow. */
    function PcInc(): (s: State)
      requires regPc + 2 < 0x1_0000
      ensures s.regPc == regPc + 2 && s == this.(regPc := s.regPc)
    {
      this.(regPc := regPc + 2)
    }

    /** `set_flag`: VF := 1. */
    function SetFlag(): (s: State)
      requires WellSized()
      ensures s.WellSized() && s.regs[0xF] == 1
      ensures forall r :: 0 <= r < 0xF ==> s.regs[r] == regs[r]
      ensures s == this.(regs := s.regs)
    {
      this.(regs := regs[0xF := 1])
    }

    /** `clear_flag`: VF := 0. */
    function ClearFlag(): (s: State)
      requires WellSized()
      ensures s.WellSized() && s.regs[0xF] == 0
      ensures forall r :: 0 <= r < 0xF ==> s.regs[r] == regs[r]
      ensures s == this.(regs := s.regs)
    {
      this.(regs := regs[0xF := 0])
    }
  }

  /** The state `Chip8::new` builds: glyphs in cells 0..80, zero elsewhere, PC = 0x200. */
  function Initial(): (s: State)
    ensures s.WellSized()
  {
    State(
      seq(MEM_SIZE, k => if 0 <= k < 16 * 5 then FontByte(k) else 0),
      [],
      seq(GP_AMOUNT, _ => 0),
      0, 0x200, 0, 0,
      seq(WIDTH * HEIGHT, _ => PX_UNS))
  }

  /** The initial memory holds glyph `d` at `SpriteAddr(d)` and zero from cell 80 on. */
  lemma InitialMemory(d: u8)
    requires d < 16
    ensures var a := SpriteAddr(d); Initial().mem[a .. a + 5] == GLYPHS[d]
    ensures forall k :: 16 * 5 <= k < MEM_SIZE ==> Initial().mem[k] == 0
  {
    var a := SpriteAddr(d);
    forall k | 0 <= k < 5
      ensures Initial().mem[a .. a + 5][k] == GLYPHS[d][k]
    {
      GlyphAt(d, k);
    }
  }

  /** The machine, updated in place by the handlers and the emulator loop. */
  class Chip8 {
    const mem: array<u8>
    var stack: seq<u16>
    const regs: array<u8>
    var regI: u16
    var regPc: u16
    var regDt: u8
    var regSt: u8
    const screen: array<bool>
    /** Nanoseconds elapsed since the last instruction cycle. */
    var cycleTimer: nat
    /** Nanoseconds elapsed since the last delay-timer tick. */
    var delayTimer: nat
    /** Nanoseconds elapsed since the last sound-timer tick; nothing ever adds to it. */
    var soundTimer: nat

    ghost predicate Valid()
      reads this
    {
      && mem.Length == MEM_SIZE
      && regs.Length == GP_AMOUNT
      && screen.Length == WIDTH * HEIGHT
      && mem != regs
      && soundTimer == 0
    }

    /** The machine's registers, memory, stack and screen as a value. */
    ghost function Snapshot(): (s: State)
      reads this, mem, regs, screen
      ensures Valid() ==> s.WellSized()
    {
      State(mem[..], stack, regs[..], regI, regPc, regDt, regSt, screen[..])
    }

    /** `Chip8::new`. */
    constructor ()
      ensures Valid() && fresh(mem) && fresh(regs) && fresh(screen)
      ensures Snapshot() == Initial()
      ensures cycleTimer == 0 && delayTimer == 0
    {
      mem := new u8[MEM_SIZE](_ => 0);
      stack := [];
      regs := new u8[GP_AMOUNT](_ => 0);
      regI := 0x000;
      regPc := 0x200;
      regDt := 0x00;
      regSt := 0x00;
      screen := new bool[WIDTH * HEIGHT](_ => false);
      cycleTimer, delayTimer, soundTimer := 0, 0, 0;
      new;
      LoadSprites();
      assert mem[..] == Initial().mem;
      assert regs[..] == Initial().regs;
      assert screen[..] == Initial().screen;
    }

    /** `load_sprite`: copies the five bytes to `SpriteAddr(digit)` and changes nothing else. */
    method LoadSprite(digit: u8, sprite: seq<u8>)
      requires Valid() && |sprite| == 5 && digit * 5 < 0x100
      modifies mem
      ensures mem[..] == old(mem[..])[..digit * 5] + sprite + old(mem[..])[digit * 5 + 5..]
    {
      var addr := SpriteAddr(digit);
      forall k | 0 <= k < 5 {
        mem[addr + k] := sprite[k];
      }
    }

    /** `load_sprites`: the glyph area becomes the sixteen glyphs; the rest of memory is kept. */
    method LoadSprites()
      requires Valid()
      modifies mem
      ensures forall k :: 0 <= k < 16 * 5 ==> mem[k] == FontByte(k)
      ensures forall k :: 16 * 5 <= k < MEM_SIZE ==> mem[k] == old(mem[k])
    {
      ghost var orig := mem[..];
      LoadSprite(0x0, GLYPHS[0x0]);
      assert mem[..] == LoadedGlyphs(orig, 1);
      LoadSprite(0x1, GLYPHS[0x1]);
      assert mem[..] == LoadedGlyphs(orig, 2);
      LoadSprite(0x2, GLYPHS[0x2]);
      assert mem[..] == LoadedGlyphs(orig, 3);
      LoadSprite(0x3, GLYPHS[0x3]);
      assert mem[..] == LoadedGlyphs(orig, 4);
      LoadSprite(0x4, GLYPHS[0x4]);
      assert mem[..] == LoadedGlyphs(orig, 5);
      LoadSprite(0x5, GLYPHS[0x5]);
      assert mem[..] == LoadedGlyphs(orig, 6);
      LoadSprite(0x6, GLYPHS[0x6]);
      assert mem[..] == LoadedGlyphs(orig, 7);
      LoadSprite(0x7, GLYPHS[0x7]);
      assert mem[..] == LoadedGlyphs(orig, 8);
      LoadSprite(0x8, GLYPHS[0x8]);
      assert mem[..] == LoadedGlyphs(orig, 9);
      LoadSprite(0x9, GLYPHS[0x9]);
      assert mem[..] == LoadedGlyphs(orig, 10);
      LoadSprite(0xA, GLYPHS[0xA]);
      assert mem[..] == LoadedGlyphs(orig, 11);
      LoadSprite(0xB, GLYPHS[0xB]);
      assert mem[..] == LoadedGlyphs(orig, 12);
      LoadSprite(0xC, GLYPHS[0xC]);
      assert mem[..] == LoadedGlyphs(orig, 13);
      LoadSprite(0xD, GLYPHS[0xD]);
      assert mem[..] == LoadedGlyphs(orig, 14);
      LoadSprite(0xE, GLYPHS[0xE]);
      assert mem[..] == LoadedGlyphs(orig, 15);
      LoadSprite(0xF, GLYPHS[0xF]);
      assert mem[..] == LoadedGlyphs(orig, 16);
      LoadedGlyphsContents(orig, 16);
    }

    /** `fetch`: the word at PC, with PC advanced by exactly 2 before anything executes. */
    method Fetch() returns (code: u16)
      requires Valid() && regPc + 1 < MEM_SIZE
      modifies this`regPc
      ensures code == old(Snapshot()).GetOpcode(old(regPc))
      ensures Snapshot() == old(Snapshot()).PcInc()
    {
      code := FromCells(mem[regPc], mem[regPc + 1]);
      PcInc();
    }

    /** `pc_inc`. */
    method PcInc()
      requires regPc + 2 < 0x1_0000
      modifies this`regPc
      ensures regPc == old(regPc) + 2
    {
      regPc := regPc + 2;
    }

    /** `clear_flag`. */
    method ClearFlag()
      requires Valid()
      modifies regs
      ensures Snapshot() == old(Snapshot()).ClearFlag()
    {
      regs[0xF] := 0;
    }

    /** `set_flag`. */
    method SetFlag()
      requires Valid()
      modifies regs
      ensures Snapshot() == old(Snapshot()).SetFlag()
    {
      regs[0xF] := 1;
    }
  }
}
