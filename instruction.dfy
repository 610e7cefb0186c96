/**
 * The instruction handlers of src/chip8/instruction.rs. Each handler is given
 * twice: as a pure next-state function on `State` (the specification) and as a
 * method that updates a `Chip8` in place the way the Rust function does, proved
 * to end in the state the function describes. `Exec` dispatches on the handler
 * a decoded instruction carries.
 */
module Instruction {
  import opened Ints
  import opened OpCode
  import opened Machine
  import opened Sprite

  // ------------------------------------------------------------------
  // When a handler does not panic
  // ------------------------------------------------------------------

  /**
   * The handler runs without a Rust panic: register indices below 16, no `u8`
   * or `u16` overflow, memory indices and slices inside the 4 KiB memory. A
   * handler given operands of another shape does nothing and is always safe.
   */
  predicate Safe(h: Handler, o: Operands, s: State)
    requires s.WellSized()
  {
    match h
    case Sne4xnn =>
      o.RegAndConst? ==> o.x < GP_AMOUNT && (s.regs[o.x] != o.k ==> s.regPc + 2 < 0x1_0000)
    case Ld6xkk => o.RegAndConst? ==> o.x < GP_AMOUNT
    case Add7xkk => o.RegAndConst? ==> o.x < GP_AMOUNT
    case Ld8xy0 => o.Regs? ==> o.x < GP_AMOUNT && o.y < GP_AMOUNT
    case Or8xy1 => o.Regs? ==> o.x < GP_AMOUNT && o.y < GP_AMOUNT
    case And8xy2 => o.Regs? ==> o.x < GP_AMOUNT && o.y < GP_AMOUNT
    case Xor8xy3 => o.Regs? ==> o.x < GP_AMOUNT && o.y < GP_AMOUNT
    case Add8xy4 => o.Regs? ==> o.x < GP_AMOUNT && o.y < GP_AMOUNT
    case DrwDxyn => o.RegsAndConst? ==> DrwSafe(s, o.x, o.y, o.n)
    case AddFx1e => o.Reg? ==> o.x < GP_AMOUNT && s.regI + s.regs[o.x] < 0x1_0000
    case LdFx55 => o.Reg? ==> o.x < GP_AMOUNT && s.regI + o.x < MEM_SIZE
    case LdFx65 => o.Reg? ==> o.x < GP_AMOUNT && s.regI + o.x < MEM_SIZE
    case LdFx29 => o.Reg? ==> o.x < GP_AMOUNT && (s.regs[o.x] as int) * 5 < 0x100
    case _ => true
  }

  /**
   * DRW reads its coordinates after VF is cleared; the sprite slice must lie in
   * memory, `base_y + n` must fit a `u8`, and so must `base_x + 8` once a row is drawn.
   */
  predicate DrwSafe(s: State, x: u8, y: u8, n: u8)
    requires s.WellSized()
  {
    && x < GP_AMOUNT && y < GP_AMOUNT
    && s.regI + n <= MEM_SIZE
    && (s.ClearFlag().regs[y] as int) + n < 0x100
    && (n > 0 ==> (s.ClearFlag().regs[x] as int) + 8 < 0x100)
  }

  // ------------------------------------------------------------------
  // The handlers as functions on states
  // ------------------------------------------------------------------

  /** `cls_00e0`: with no operands every pixel is cleared. */
  function Cls00e0Next(s: State, o: Operands): (r: State)
    requires s.WellSized()
    ensures r.WellSized()
  {
    if o.Empty? then s.(screen := seq(WIDTH * HEIGHT, _ => PX_UNS)) else s
  }

  /** `jp_1nnn`: PC := nnn. */
  function Jp1nnnNext(s: State, o: Operands): (r: State)
    requires s.WellSized()
    ensures r.WellSized()
  {
    if o.Address? then s.(regPc := o.addr) else s
  }

  /** `sne_4xnn`: skip the next instruction iff Vx != kk. */
  function Sne4xnnNext(s: State, o: Operands): (r: State)
    requires s.WellSized() && Safe(Handler.Sne4xnn, o, s)
    ensures r.WellSized()
  {
    if o.RegAndConst? && s.regs[o.x] != o.k then s.PcInc() else s
  }

  /** `ld_6xkk`: Vx := kk. */
  function Ld6xkkNext(s: State, o: Operands): (r: State)
    requires s.WellSized() && Safe(Handler.Ld6xkk, o, s)
    ensures r.WellSized()
  {
    if o.RegAndConst? then s.(regs := s.regs[o.x := o.k]) else s
  }

  /** `add_7xkk`: Vx := (Vx + kk) & 0xFF; VF is not touched. */
  function Add7xkkNext(s: State, o: Operands): (r: State)
    requires s.WellSized() && Safe(Handler.Add7xkk, o, s)
    ensures r.WellSized()
  {
    if o.RegAndConst? then s.(regs := s.regs[o.x := ((s.regs[o.x] as int) + o.k) % 0x100]) else s
  }

  /** `ld_8xy0`: Vx := Vy. */
  function Ld8xy0Next(s: State, o: Operands): (r: State)
    requires s.WellSized() && Safe(Handler.Ld8xy0, o, s)
    ensures r.WellSized()
  {
    if o.Regs? then s.(regs := s.regs[o.x := s.regs[o.y]]) else s
  }

  /** `or_8xy1`: Vx |= Vy. */
  function Or8xy1Next(s: State, o: Operands): (r: State)
    requires s.WellSized() && Safe(Handler.Or8xy1, o, s)
    ensures r.WellSized()
  {
    if o.Regs? then s.(regs := s.regs[o.x := BitOr(s.regs[o.x], s.regs[o.y])]) else s
  }

  /** `and_8xy2`: Vx &= Vy. */
  function And8xy2Next(s: State, o: Operands): (r: State)
    requires s.WellSized() && Safe(Handler.And8xy2, o, s)
    ensures r.WellSized()
  {
    if o.Regs? then s.(regs := s.regs[o.x := BitAnd(s.regs[o.x], s.regs[o.y])]) else s
  }

  /** `xor_8xy3`: Vx ^= Vy. */
  function Xor8xy3Next(s: State, o: Operands): (r: State)
    requires s.WellSized() && Safe(Handler.Xor8xy3, o, s)
    ensures r.WellSized()
  {
    if o.Regs? then s.(regs := s.regs[o.x := BitXor(s.regs[o.x], s.regs[o.y])]) else s
  }

  /**
   * `add_8xy4`: the sum is taken first, then VF becomes the carry, then Vx the
   * low byte of the sum (so for x = F the low byte overwrites the carry).
   */
  function Add8xy4Next(s: State, o: Operands): (r: State)
    requires s.WellSized() && Safe(Handler.Add8xy4, o, s)
    ensures r.WellSized()
  {
    if o.Regs? then
      var res := (s.regs[o.x] as int) + s.regs[o.y];
      var flagged := if res > 255 then s.SetFlag() else s.ClearFlag();
      flagged.(regs := flagged.regs[o.x := res % 0x100])
    else s
  }

  /** `ld_annn`: I := nnn. */
  function LdAnnnNext(s: State, o: Operands): (r: State)
    requires s.WellSized()
    ensures r.WellSized()
  {
    if o.Address? then s.(regI := o.addr) else s
  }

  /**
   * `drw_dxyn`: VF is cleared, the `n` bytes at I are blitted at (Vx, Vy)
   * (read after the clear), and VF is set iff some pixel was already lit.
   */
  function DrwDxynNext(s: State, o: Operands): (r: State)
    requires s.WellSized() && Safe(Handler.DrwDxyn, o, s)
    ensures r.WellSized()
  {
    if o.RegsAndConst? then
      var cleared := s.ClearFlag();
      var sprite := cleared.mem[cleared.regI .. cleared.regI + o.n];
      var c := DrawSprite(Canvas(cleared.screen, false), sprite, cleared.regs[o.x], cleared.regs[o.y]);
      var drawn := cleared.(screen := c.pixels);
      if c.collision then drawn.SetFlag() else drawn
    else s
  }

  /** `add_fx1e`: I += Vx. */
  function AddFx1eNext(s: State, o: Operands): (r: State)
    requires s.WellSized() && Safe(Handler.AddFx1e, o, s)
    ensures r.WellSized()
  {
    if o.Reg? then s.(regI := s.regI + s.regs[o.x]) else s
  }

  /** `ld_fx55`: V0..Vx are stored from I on, and I ends one past the last cell written. */
  function LdFx55Next(s: State, o: Operands): (r: State)
    requires s.WellSized() && Safe(Handler.LdFx55, o, s)
    ensures r.WellSized()
  {
    if o.Reg? then
      s.(mem := s.mem[..s.regI] + s.regs[..o.x + 1] + s.mem[s.regI + o.x + 1..],
         regI := s.regI + o.x + 1)
    else s
  }

  /** `ld_fx65`: V0..Vx are loaded from I on, and I ends one past the last cell read. */
  function LdFx65Next(s: State, o: Operands): (r: State)
    requires s.WellSized() && Safe(Handler.LdFx65, o, s)
    ensures r.WellSized()
  {
    if o.Reg? then
      s.(regs := s.mem[s.regI .. s.regI + o.x + 1] + s.regs[o.x + 1..],
         regI := s.regI + o.x + 1)
    else s
  }

  /** `ld_fx29`: I := the address of the glyph for digit Vx. */
  function LdFx29Next(s: State, o: Operands): (r: State)
    requires s.WellSized() && Safe(Handler.LdFx29, o, s)
    ensures r.WellSized()
  {
    if o.Reg? then s.(regI := SpriteAddr(s.regs[o.x])) else s
  }

  /** What running handler `h` on operands `o` does: the new state and whether to redraw. */
  function Next(h: Handler, o: Operands, s: State): (r: (State, bool))
    requires s.WellSized() && Safe(h, o, s)
    ensures r.0.WellSized()
  {
    match h
    case NotImplemented => (s, false)
    case Cls00e0 => (Cls00e0Next(s, o), true)
    case Jp1nnn => (Jp1nnnNext(s, o), false)
    case Sne4xnn => (Sne4xnnNext(s, o), false)
    case Ld6xkk => (Ld6xkkNext(s, o), false)
    case Add7xkk => (Add7xkkNext(s, o), false)
    case Ld8xy0 => (Ld8xy0Next(s, o), false)
    case Or8xy1 => (Or8xy1Next(s, o), false)
    case And8xy2 => (And8xy2Next(s, o), false)
    case Xor8xy3 => (Xor8xy3Next(s, o), false)
    case Add8xy4 => (Add8xy4Next(s, o), false)
    case LdAnnn => (LdAnnnNext(s, o), false)
    case DrwDxyn => (DrwDxynNext(s, o), true)
    case AddFx1e => (AddFx1eNext(s, o), false)
    case LdFx55 => (LdFx55Next(s, o), false)
    case LdFx65 => (LdFx65Next(s, o), false)
    case LdFx29 => (LdFx29Next(s, o), false)
  }

  /** The operand shape each handler acts on. */
  predicate Matches(h: Handler, o: Operands) {
    match h
    case NotImplemented => false
    case Cls00e0 => o.Empty?
    case Jp1nnn => o.Address?
    case LdAnnn => o.Address?
    case Sne4xnn => o.RegAndConst?
    case Ld6xkk => o.RegAndConst?
    case Add7xkk => o.RegAndConst?
    case DrwDxyn => o.RegsAndConst?
    case AddFx1e => o.Reg?
    case LdFx55 => o.Reg?
    case LdFx65 => o.Reg?
    case LdFx29 => o.Reg?
    case _ => o.Regs?
  }

  // ------------------------------------------------------------------
  // Properties of the handlers
  // ------------------------------------------------------------------

  /** Only CLS and DRW ask for a redraw, whatever their operands. */
  lemma NextRedraw(h: Handler, o: Operands, s: State)
    requires s.WellSized() && Safe(h, o, s)
    ensures Next(h, o, s).1 <==> h == Handler.Cls00e0 || h == Handler.DrwDxyn
  {
  }

  /** A handler given operands of another shape leaves the machine unchanged. */
  lemma MismatchIsNoop(h: Handler, o: Operands, s: State)
    requires s.WellSized() && !Matches(h, o)
    ensures Safe(h, o, s) && Next(h, o, s).0 == s
  {
  }

  /**
   * No handler touches the stack or the timers; only CLS and DRW touch the
   * screen, only LD [I] touches memory, only JP and SNE touch PC.
   */
  lemma NextFrame(h: Handler, o: Operands, s: State)
    requires s.WellSized() && Safe(h, o, s)
    ensures var r := Next(h, o, s).0;
      && r.stack == s.stack && r.regDt == s.regDt && r.regSt == s.regSt
      && (h != Handler.Cls00e0 && h != Handler.DrwDxyn ==> r.screen == s.screen)
      && (h != Handler.LdFx55 ==> r.mem == s.mem)
      && (h != Handler.Jp1nnn && h != Handler.Sne4xnn ==> r.regPc == s.regPc)
  {
  }

  /** SNE Vx, kk skips exactly when Vx differs from kk, and changes nothing else. */
  lemma SneSkips(s: State, x: u8, k: u8)
    requires s.WellSized() && Safe(Handler.Sne4xnn, RegAndConst(x, k), s)
    ensures var r := Next(Handler.Sne4xnn, RegAndConst(x, k), s).0;
      (r.regPc == s.regPc + 2 <==> s.regs[x] != k) && (r.regPc == s.regPc <==> s.regs[x] == k)
      && r == s.(regPc := r.regPc)
  {
  }

  /** After LD Vx, kk the instruction SNE Vx, kk never skips, while SNE Vx, j for j != kk always does. */
  lemma LoadThenSne(s: State, x: u8, k: u8, j: u8)
    requires s.WellSized() && x < GP_AMOUNT && s.regPc + 2 < 0x1_0000
    ensures var l := Ld6xkkNext(s, RegAndConst(x, k));
      && Next(Handler.Sne4xnn, RegAndConst(x, k), l).0.regPc == s.regPc
      && (j != k ==> Next(Handler.Sne4xnn, RegAndConst(x, j), l).0.regPc == s.regPc + 2)
  {
  }

  /** LD Vx, Vy makes Vx equal to Vy and changes no other register. */
  lemma LdCopies(s: State, x: u8, y: u8)
    requires s.WellSized() && x < GP_AMOUNT && y < GP_AMOUNT
    ensures var r := Next(Handler.Ld8xy0, Regs(x, y), s).0;
      && r.regs[x] == s.regs[y]
      && (forall i :: 0 <= i < GP_AMOUNT && i != x ==> r.regs[i] == s.regs[i])
      && r == s.(regs := r.regs)
  {
  }

  /** Adding `k` and then `256 - k` modulo 256 gives back the byte. */
  lemma ByteAddInverse(a: u8, k: u8)
    ensures (((a as int) + k) % 0x100 + (0x100 - k) % 0x100) % 0x100 == a
  {
    if k == 0 {
    } else if a + k < 0x100 {
      assert ((a as int) + k) % 0x100 == a + k;
    } else {
      assert ((a as int) + k) % 0x100 == a + k - 0x100;
    }
  }

  /** ADD Vx, kk followed by ADD Vx, 256 - kk restores the machine: the sum wraps and VF is left alone. */
  lemma AddConstInverse(s: State, x: u8, k: u8)
    requires s.WellSized() && x < GP_AMOUNT
    ensures var r := Add7xkkNext(s, RegAndConst(x, k));
      && r.regs[x] == ((s.regs[x] as int) + k) % 0x100
      && (x != 0xF ==> r.regs[0xF] == s.regs[0xF])
      && Add7xkkNext(r, RegAndConst(x, (0x100 - k) % 0x100)) == s
  {
    var r := Add7xkkNext(s, RegAndConst(x, k));
    var t := Add7xkkNext(r, RegAndConst(x, (0x100 - k) % 0x100));
    ByteAddInverse(s.regs[x], k);
    assert t.regs[x] == s.regs[x];
    assert t.regs == s.regs;
  }

  /** ADD Vx, Vy with x != F: Vx and VF together hold the full 9-bit sum, VF being the carry. */
  lemma AddRegsCarry(s: State, x: u8, y: u8)
    requires s.WellSized() && x < GP_AMOUNT && y < GP_AMOUNT && x != 0xF
    ensures var r := Next(Handler.Add8xy4, Regs(x, y), s).0;
      && (r.regs[0xF] == 1 <==> (s.regs[x] as int) + s.regs[y] > 255)
      && (r.regs[0xF] == 0 <==> (s.regs[x] as int) + s.regs[y] <= 255)
      && (r.regs[x] as int) + 0x100 * (r.regs[0xF] as int) == (s.regs[x] as int) + s.regs[y]
      && (forall i :: 0 <= i < 0xF && i != x ==> r.regs[i] == s.regs[i])
  {
  }

  /** ADD VF, Vy: the low byte of the sum is written after the carry and replaces it. */
  lemma AddRegsIntoFlag(s: State, y: u8)
    requires s.WellSized() && y < GP_AMOUNT
    ensures Next(Handler.Add8xy4, Regs(0xF, y), s).0.regs[0xF] == ((s.regs[0xF] as int) + s.regs[y]) % 0x100
  {
  }

  /** OR Vx, Vy followed by AND Vx, Vy leaves Vx equal to Vy, as LD Vx, Vy would. */
  lemma OrThenAnd(s: State, x: u8, y: u8)
    requires s.WellSized() && x < GP_AMOUNT && y < GP_AMOUNT
    ensures var o := Regs(x, y);
      And8xy2Next(Or8xy1Next(s, o), o) == Ld8xy0Next(s, o)
  {
    OrAndAbsorb(s.regs[x], s.regs[y]);
    OrSelf(s.regs[x]);
  }

  /** XOR Vx, Vy twice restores the machine (x != y); XOR Vx, Vx clears Vx. */
  lemma XorTwice(s: State, x: u8, y: u8)
    requires s.WellSized() && x < GP_AMOUNT && y < GP_AMOUNT
    ensures x != y ==> Xor8xy3Next(Xor8xy3Next(s, Regs(x, y)), Regs(x, y)) == s
    ensures x == y ==> Xor8xy3Next(s, Regs(x, y)).regs[x] == 0
  {
    XorCancels(s.regs[x], s.regs[y]);
    if x != y {
      var t := Xor8xy3Next(Xor8xy3Next(s, Regs(x, y)), Regs(x, y));
      assert t.regs == s.regs;
    }
  }

  /** LD I, nnn followed by ADD I, Vx leaves nnn + Vx in I and nothing else changed. */
  lemma IndexArithmetic(s: State, a: u16, x: u8)
    requires s.WellSized() && x < GP_AMOUNT && a + s.regs[x] < 0x1_0000
    ensures var l := LdAnnnNext(s, Address(a));
      Safe(Handler.AddFx1e, Reg(x), l) && Next(Handler.AddFx1e, Reg(x), l).0 == s.(regI := a + s.regs[x])
  {
  }

  /** LD [I], Vx then LD I, (old I) then LD Vx, [I] reads back the stored registers, changing nothing more. */
  lemma {:induction false} StoreThenLoad(s: State, x: u8)
    requires s.WellSized() && Safe(Handler.LdFx55, Reg(x), s)
    ensures var stored := LdFx55Next(s, Reg(x));
      var reset := LdAnnnNext(stored, Address(s.regI));
      Safe(Handler.LdFx65, Reg(x), reset) && LdFx65Next(reset, Reg(x)) == stored
  {
    var stored := LdFx55Next(s, Reg(x));
    var reset := LdAnnnNext(stored, Address(s.regI));
    var loaded := LdFx65Next(reset, Reg(x));
    assert stored.mem[s.regI .. s.regI + x + 1] == s.regs[..x + 1];
    assert loaded.regs == s.regs;
  }

  /** LD [I], Vx writes V0..Vx to the cells from I on and keeps every other cell. */
  lemma StoreCells(s: State, x: u8)
    requires s.WellSized() && Safe(Handler.LdFx55, Reg(x), s)
    ensures var r := LdFx55Next(s, Reg(x));
      && (forall k :: 0 <= k <= x ==> r.mem[s.regI + k] == s.regs[k])
      && (forall a :: 0 <= a < MEM_SIZE && !(s.regI <= a <= s.regI + x) ==> r.mem[a] == s.mem[a])
      && r.regI == s.regI + x + 1
  {
  }

  /** With the font in place, LD F, Vx (Vx < 16) points I at the five bytes of glyph Vx. */
  lemma GlyphAddress(s: State, x: u8)
    requires s.WellSized() && x < GP_AMOUNT && s.regs[x] < 16
    requires s.mem[..16 * 5] == Initial().mem[..16 * 5]
    ensures var r := LdFx29Next(s, Reg(x));
      r.regI + 5 <= 16 * 5 && r.mem[r.regI .. r.regI + 5] == GLYPHS[s.regs[x]]
  {
    var d := s.regs[x];
    InitialMemory(d);
    var a := SpriteAddr(d);
    assert s.mem[a .. a + 5] == s.mem[..16 * 5][a .. a + 5];
    assert Initial().mem[a .. a + 5] == Initial().mem[..16 * 5][a .. a + 5];
  }

  /** After CLS the screen is blank and nothing but the screen has changed. */
  lemma ClsBlanks(s: State)
    requires s.WellSized()
    ensures var r := Next(Handler.Cls00e0, Empty, s).0;
      (forall p :: 0 <= p < |r.screen| ==> r.screen[p] == PX_UNS) && r == s.(screen := r.screen)
  {
  }

  /**
   * DRW with a sprite of at most 32 rows toggles exactly the pixels its set
   * bits land on and sets VF to 1 if one of them was lit, to 0 otherwise.
   */
  lemma DrwEffect(s: State, x: u8, y: u8, n: u8)
    requires s.WellSized() && DrwSafe(s, x, y, n) && n <= HEIGHT
    ensures var cleared := s.ClearFlag();
      var sprite := s.mem[s.regI .. s.regI + n];
      var baseX := cleared.regs[x];
      var baseY := cleared.regs[y];
      var r := Next(Handler.DrwDxyn, RegsAndConst(x, y, n), s).0;
      && (forall p :: 0 <= p < WIDTH * HEIGHT ==> r.screen[p] == (s.screen[p] != Covers(sprite, baseX, baseY, p)))
      && (r.regs[0xF] == 1 <==> Collides(sprite, baseX, baseY, s.screen))
      && (r.regs[0xF] == 0 <==> !Collides(sprite, baseX, baseY, s.screen))
      && r == s.(screen := r.screen, regs := r.regs)
      && (forall i :: 0 <= i < 0xF ==> r.regs[i] == s.regs[i])
  {
    var cleared := s.ClearFlag();
    var sprite := s.mem[s.regI .. s.regI + n];
    DrawSpritePixels(Canvas(cleared.screen, false), sprite, cleared.regs[x], cleared.regs[y]);
    DrawSpriteCollision(Canvas(cleared.screen, false), sprite, cleared.regs[x], cleared.regs[y]);
  }

  /** DRW twice with the same operands gives back the screen it started from. */
  lemma DrwTwice(s: State, x: u8, y: u8, n: u8)
    requires s.WellSized() && DrwSafe(s, x, y, n)
    ensures var o := RegsAndConst(x, y, n);
      var once := DrwDxynNext(s, o);
      Safe(Handler.DrwDxyn, o, once) && DrwDxynNext(once, o).screen == s.screen
  {
    var o := RegsAndConst(x, y, n);
    var cleared := s.ClearFlag();
    var sprite := cleared.mem[cleared.regI .. cleared.regI + n];
    var c := DrawSprite(Canvas(cleared.screen, false), sprite, cleared.regs[x], cleared.regs[y]);
    var once := DrwDxynNext(s, o);
    assert once.ClearFlag().regs == cleared.regs;
    DrawSpriteTwice(Canvas(cleared.screen, false), sprite, cleared.regs[x], cleared.regs[y], false);
  }

  /**
   * The second of two identical DRWs (at most 32 rows) sets VF to 1 iff one of
   * the sprite's set bits lands on a pixel that was unset before the first:
   * the first draw lit exactly those pixels, and the second finds them lit.
   */
  lemma DrwTwiceFlag(s: State, x: u8, y: u8, n: u8)
    requires s.WellSized() && DrwSafe(s, x, y, n) && n <= HEIGHT
    ensures var o := RegsAndConst(x, y, n);
      var cleared := s.ClearFlag();
      var sprite := s.mem[s.regI .. s.regI + n];
      var once := DrwDxynNext(s, o);
      && DrwSafe(once, x, y, n)
      && (DrwDxynNext(once, o).regs[0xF] == 1 <==>
          exists j: nat, i: nat :: Lit(sprite, j, i) && s.screen[Hit(cleared.regs[x], cleared.regs[y], j, i)] == PX_UNS)
  {
    var o := RegsAndConst(x, y, n);
    var cleared := s.ClearFlag();
    var sprite := s.mem[s.regI .. s.regI + n];
    var px, py := cleared.regs[x], cleared.regs[y];
    var once := DrwDxynNext(s, o);
    DrwTwice(s, x, y, n);
    DrwEffect(s, x, y, n);
    assert once.ClearFlag().regs == cleared.regs;
    DrwEffect(once, x, y, n);
    var twice := DrwDxynNext(once, o);
    if twice.regs[0xF] == 1 {
      var j: nat, i: nat :| Lit(sprite, j, i) && once.screen[Hit(px, py, j, i)] == PX_SET;
      assert Covers(sprite, px, py, Hit(px, py, j, i));
    } else {
      forall j: nat, i: nat | Lit(sprite, j, i)
        ensures s.screen[Hit(px, py, j, i)] == PX_SET
      {
        assert Covers(sprite, px, py, Hit(px, py, j, i));
        assert once.screen[Hit(px, py, j, i)] != PX_SET;
      }
    }
  }

  /** After CLS, a sprite with a set bit drawn twice at the same place reports a collision the second time. */
  lemma ClsThenDrwTwice(s: State, x: u8, y: u8, n: u8)
    requires s.WellSized() && n <= HEIGHT
    requires DrwSafe(Cls00e0Next(s, Empty), x, y, n)
    requires HasLitBit(s.mem[s.regI .. s.regI + n])
    ensures var blank := Cls00e0Next(s, Empty);
      var o := RegsAndConst(x, y, n);
      DrwDxynNext(DrwDxynNext(blank, o), o).regs[0xF] == 1
  {
    var blank := Cls00e0Next(s, Empty);
    var sprite := s.mem[s.regI .. s.regI + n];
    var px, py := blank.ClearFlag().regs[x], blank.ClearFlag().regs[y];
    DrwTwiceFlag(blank, x, y, n);
    var j: nat, i: nat :| Lit(sprite, j, i);
    assert blank.screen[Hit(px, py, j, i)] == PX_UNS;
  }

  /** DRW right after CLS never reports a collision. */
  lemma ClsThenDrw(s: State, x: u8, y: u8, n: u8)
    requires s.WellSized() && n <= HEIGHT
    requires DrwSafe(Cls00e0Next(s, Empty), x, y, n)
    ensures Next(Handler.DrwDxyn, RegsAndConst(x, y, n), Cls00e0Next(s, Empty)).0.regs[0xF] == 0
  {
    var blank := Cls00e0Next(s, Empty);
    DrwEffect(blank, x, y, n);
  }

  // ------------------------------------------------------------------
  // The handlers, updating the machine in place
  // ------------------------------------------------------------------

  /** `not_implemented`: ignores the instruction. */
  method NotImplemented(e: Chip8, o: Operands) returns (redraw: bool)
    ensures !redraw
  {
    redraw := false;
  }

  /** `cls_00e0`. */
  method Cls00e0(e: Chip8, o: Operands) returns (redraw: bool)
    requires e.Valid()
    modifies e.screen
    ensures e.Snapshot() == Cls00e0Next(old(e.Snapshot()), o) && redraw
  {
    if o.Empty? {
      var px := 0;
      while px < e.screen.Length
        invariant 0 <= px <= e.screen.Length
        invariant forall p :: 0 <= p < px ==> e.screen[p] == PX_UNS
      {
        e.screen[px] := PX_UNS;
        px := px + 1;
      }
      assert e.screen[..] == seq(WIDTH * HEIGHT, _ => PX_UNS);
    }
    redraw := true;
  }

  /** `jp_1nnn`. */
  method Jp1nnn(e: Chip8, o: Operands) returns (redraw: bool)
    requires e.Valid()
    modifies e`regPc
    ensures e.Snapshot() == Jp1nnnNext(old(e.Snapshot()), o) && !redraw
  {
    if o.Address? {
      e.regPc := o.addr;
    }
    redraw := false;
  }

  /** `sne_4xnn`. */
  method Sne4xnn(e: Chip8, o: Operands) returns (redraw: bool)
    requires e.Valid() && Safe(Handler.Sne4xnn, o, e.Snapshot())
    modifies e`regPc
    ensures e.Snapshot() == Sne4xnnNext(old(e.Snapshot()), o) && !redraw
  {
    if o.RegAndConst? {
      if e.regs[o.x] != o.k {
        e.PcInc();
      }
    }
    redraw := false;
  }

  /** `ld_6xkk`. */
  method Ld6xkk(e: Chip8, o: Operands) returns (redraw: bool)
    requires e.Valid() && Safe(Handler.Ld6xkk, o, e.Snapshot())
    modifies e.regs
    ensures e.Snapshot() == Ld6xkkNext(old(e.Snapshot()), o) && !redraw
  {
    if o.RegAndConst? {
      e.regs[o.x] := o.k;
    }
    redraw := false;
  }

  /** `add_7xkk`. */
  method Add7xkk(e: Chip8, o: Operands) returns (redraw: bool)
    requires e.Valid() && Safe(Handler.Add7xkk, o, e.Snapshot())
    modifies e.regs
    ensures e.Snapshot() == Add7xkkNext(old(e.Snapshot()), o) && !redraw
  {
    if o.RegAndConst? {
      var res := (e.regs[o.x] as int) + o.k;
      e.regs[o.x] := res % 0x100;
    }
    redraw := false;
  }

  /** `ld_8xy0`. */
  method Ld8xy0(e: Chip8, o: Operands) returns (redraw: bool)
    requires e.Valid() && Safe(Handler.Ld8xy0, o, e.Snapshot())
    modifies e.regs
    ensures e.Snapshot() == Ld8xy0Next(old(e.Snapshot()), o) && !redraw
  {
    if o.Regs? {
      e.regs[o.x] := e.regs[o.y];
    }
    redraw := false;
  }

  /** `or_8xy1`. */
  method Or8xy1(e: Chip8, o: Operands) returns (redraw: bool)
    requires e.Valid() && Safe(Handler.Or8xy1, o, e.Snapshot())
    modifies e.regs
    ensures e.Snapshot() == Or8xy1Next(old(e.Snapshot()), o) && !redraw
  {
    if o.Regs? {
      e.regs[o.x] := BitOr(e.regs[o.x], e.regs[o.y]);
    }
    redraw := false;
  }

  /** `and_8xy2`. */
  method And8xy2(e: Chip8, o: Operands) returns (redraw: bool)
    requires e.Valid() && Safe(Handler.And8xy2, o, e.Snapshot())
    modifies e.regs
    ensures e.Snapshot() == And8xy2Next(old(e.Snapshot()), o) && !redraw
  {
    if o.Regs? {
      e.regs[o.x] := BitAnd(e.regs[o.x], e.regs[o.y]);
    }
    redraw := false;
  }

  /** `xor_8xy3`. */
  method Xor8xy3(e: Chip8, o: Operands) returns (redraw: bool)
    requires e.Valid() && Safe(Handler.Xor8xy3, o, e.Snapshot())
    modifies e.regs
    ensures e.Snapshot() == Xor8xy3Next(old(e.Snapshot()), o) && !redraw
  {
    if o.Regs? {
      e.regs[o.x] := BitXor(e.regs[o.x], e.regs[o.y]);
    }
    redraw := false;
  }

  /** `add_8xy4`. */
  method Add8xy4(e: Chip8, o: Operands) returns (redraw: bool)
    requires e.Valid() && Safe(Handler.Add8xy4, o, e.Snapshot())
    modifies e.regs
    ensures e.Snapshot() == Add8xy4Next(old(e.Snapshot()), o) && !redraw
  {
    if o.Regs? {
      var res := (e.regs[o.x] as int) + e.regs[o.y];
      if res > 255 {
        e.SetFlag();
      } else {
        e.ClearFlag();
      }
      e.regs[o.x] := res % 0x100;
    }
    redraw := false;
  }

  /** `ld_annn`. */
  method LdAnnn(e: Chip8, o: Operands) returns (redraw: bool)
    requires e.Valid()
    modifies e`regI
    ensures e.Snapshot() == LdAnnnNext(old(e.Snapshot()), o) && !redraw
  {
    if o.Address? {
      e.regI := o.addr;
    }
    redraw := false;
  }

  /** `drw_dxyn`: VF is cleared, the sprite is blitted, and VF is set if a lit pixel was hit. */
  method DrwDxyn(e: Chip8, o: Operands) returns (redraw: bool)
    requires e.Valid() && Safe(Handler.DrwDxyn, o, e.Snapshot())
    modifies e.regs, e.screen
    ensures e.Snapshot() == DrwDxynNext(old(e.Snapshot()), o) && redraw
  {
    if o.RegsAndConst? {
      var x, y, c := o.x, o.y, o.n;
      e.ClearFlag();
      var i := e.regI;
      var sprite := e.mem[i .. i + c];
      var baseX := e.regs[x];
      var baseY := e.regs[y];
      var collision := Blit(e.screen, sprite, baseX, baseY);
      if collision {
        e.SetFlag();
      }
    }
    redraw := true;
  }

  /**
   * The row and column loops of `drw_dxyn` on the screen buffer: every set bit
   * toggles its wrapped pixel, and the result says whether a lit pixel was hit.
   * Computing `base_y + n` and `base_x + 8` must not overflow a `u8`.
   */
  method Blit(screen: array<bool>, sprite: seq<u8>, baseX: u8, baseY: u8) returns (collision: bool)
    requires screen.Length == WIDTH * HEIGHT
    requires baseY + |sprite| < 0x100 && (|sprite| > 0 ==> baseX + 8 < 0x100)
    modifies screen
    ensures Canvas(screen[..], collision) == DrawSprite(Canvas(old(screen[..]), false), sprite, baseX, baseY)
  {
    collision := false;
    ghost var start := Canvas(screen[..], false);
    var spriteY := 0;
    while spriteY < |sprite|
      invariant 0 <= spriteY <= |sprite|
      invariant Canvas(screen[..], collision) == DrawSprite(start, sprite[..spriteY], baseX, baseY)
    {
      ghost var before := Canvas(screen[..], collision);
      var row := sprite[spriteY];
      var dispY := baseY + spriteY;
      var spriteX := 0;
      while spriteX < 8
        invariant 0 <= spriteX <= 8
        invariant Canvas(screen[..], collision) == DrawRow(before, row, baseX, dispY, spriteX)
      {
        if BitSet(row, spriteX) {
          var dispX := baseX + spriteX;
          var addr := (dispY % HEIGHT) * WIDTH + dispX % WIDTH;
          if screen[addr] == PX_SET {
            collision := true;
          }
          screen[addr] := screen[addr] != PX_SET;
        }
        spriteX := spriteX + 1;
      }
      assert sprite[..spriteY + 1][..spriteY] == sprite[..spriteY];
      spriteY := spriteY + 1;
    }
    assert sprite[..spriteY] == sprite;
  }

  /** `add_fx1e`. */
  method AddFx1e(e: Chip8, o: Operands) returns (redraw: bool)
    requires e.Valid() && Safe(Handler.AddFx1e, o, e.Snapshot())
    modifies e`regI
    ensures e.Snapshot() == AddFx1eNext(old(e.Snapshot()), o) && !redraw
  {
    if o.Reg? {
      e.regI := e.regI + e.regs[o.x];
    }
    redraw := false;
  }

  /** `ld_fx55`: one register per step, advancing I each time. */
  method LdFx55(e: Chip8, o: Operands) returns (redraw: bool)
    requires e.Valid() && Safe(Handler.LdFx55, o, e.Snapshot())
    modifies e.mem, e`regI
    ensures e.Snapshot() == LdFx55Next(old(e.Snapshot()), o) && !redraw
  {
    if o.Reg? {
      var r := o.x;
      ghost var mem0, i0 := e.mem[..], e.regI;
      var ctr := 0;
      while ctr < r + 1
        invariant 0 <= ctr <= r + 1
        invariant e.regI == i0 + ctr
        invariant forall a :: 0 <= a < MEM_SIZE ==>
          e.mem[a] == if i0 <= a < i0 + ctr then e.regs[a - i0] else mem0[a]
      {
        e.mem[e.regI] := e.regs[ctr];
        e.regI := e.regI + 1;
        ctr := ctr + 1;
      }
      assert e.mem[..] == mem0[..i0] + e.regs[..r + 1] + mem0[i0 + r + 1..];
    }
    redraw := false;
  }

  /** `ld_fx65`: one register per step, advancing I each time. */
  method LdFx65(e: Chip8, o: Operands) returns (redraw: bool)
    requires e.Valid() && Safe(Handler.LdFx65, o, e.Snapshot())
    modifies e.regs, e`regI
    ensures e.Snapshot() == LdFx65Next(old(e.Snapshot()), o) && !redraw
  {
    if o.Reg? {
      var r := o.x;
      ghost var regs0, mem0, i0 := e.regs[..], e.mem[..], e.regI;
      assert e.mem != e.regs && e.mem.Length == MEM_SIZE && e.regs.Length == GP_AMOUNT;
      var ctr := 0;
      while ctr < r + 1
        invariant 0 <= ctr <= r + 1
        invariant e.regI == i0 + ctr
        invariant forall j :: 0 <= j < GP_AMOUNT ==>
          e.regs[j] == if j < ctr then mem0[i0 + j] else regs0[j]
      {
        e.regs[ctr] := e.mem[e.regI];
        e.regI := e.regI + 1;
        ctr := ctr + 1;
      }
      assert e.mem[..] == mem0;
      assert e.regs[..] == mem0[i0 .. i0 + r + 1] + regs0[r + 1..];
    }
    redraw := false;
  }

  /** `ld_fx29`. */
  method LdFx29(e: Chip8, o: Operands) returns (redraw: bool)
    requires e.Valid() && Safe(Handler.LdFx29, o, e.Snapshot())
    modifies e`regI
    ensures e.Snapshot() == LdFx29Next(old(e.Snapshot()), o) && !redraw
  {
    if o.Reg? {
      var addr := e.regs[o.x];
      e.regI := SpriteAddr(addr);
    }
    redraw := false;
  }

  /** `Instruction::exec`: runs the instruction's handler on its operands. */
  method Exec(ins: Instruction, e: Chip8) returns (redraw: bool)
    requires e.Valid() && Safe(ins.handler, ins.operands, e.Snapshot())
    modifies e.mem, e.regs, e.screen, e`regI, e`regPc
    ensures e.Valid()
    ensures (e.Snapshot(), redraw) == Next(ins.handler, ins.operands, old(e.Snapshot()))
  {
    var o, h := ins.operands, ins.handler;
    // each tag `h.X?` selects the method `X` modelling the routine it stands for
    if h.NotImplemented? {
      redraw := NotImplemented(e, o);
    } else if h.Cls00e0? {
      redraw := Cls00e0(e, o);
    } else if h.Jp1nnn? {
      redraw := Jp1nnn(e, o);
    } else if h.Sne4xnn? {
      redraw := Sne4xnn(e, o);
    } else if h.Ld6xkk? {
      redraw := Ld6xkk(e, o);
    } else if h.Add7xkk? {
      redraw := Add7xkk(e, o);
    } else if h.Ld8xy0? {
      redraw := Ld8xy0(e, o);
    } else if h.Or8xy1? {
      redraw := Or8xy1(e, o);
    } else if h.And8xy2? {
      redraw := And8xy2(e, o);
    } else if h.Xor8xy3? {
      redraw := Xor8xy3(e, o);
    } else if h.Add8xy4? {
      redraw := Add8xy4(e, o);
    } else if h.LdAnnn? {
      redraw := LdAnnn(e, o);
    } else if h.DrwDxyn? {
      redraw := DrwDxyn(e, o);
    } else if h.AddFx1e? {
      redraw := AddFx1e(e, o);
    } else if h.LdFx55? {
      redraw := LdFx55(e, o);
    } else if h.LdFx65? {
      redraw := LdFx65(e, o);
    } else {
      redraw := LdFx29(e, o);
    }
  }
}
