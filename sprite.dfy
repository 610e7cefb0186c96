/**
 * The XOR blit of `drw_dxyn` (src/chip8/instruction.rs), as a function on
 * screens: row by row, column by column, every set bit of the sprite toggles
 * one pixel, with both axes wrapping, and a pixel that was set when toggled
 * records a collision.
 */
module Sprite {
  import opened Ints
  import opened Machine

  /** A screen together with the collision seen so far. */
  datatype Canvas = Canvas(pixels: seq<bool>, collision: bool)

  /** The screen cell of display position (dispX, dispY), wrapping on both axes. */
  function PixelAddr(dispY: nat, dispX: nat): (a: nat)
    ensures a < WIDTH * HEIGHT
  {
    (dispY % HEIGHT) * WIDTH + dispX % WIDTH
  }

  /** One set sprite bit: record whether the pixel was set, then toggle it. */
  function Plot(c: Canvas, addr: nat): (r: Canvas)
    requires addr < |c.pixels|
    ensures |r.pixels| == |c.pixels|
  {
    Canvas(c.pixels[addr := c.pixels[addr] != PX_SET], c.collision || c.pixels[addr] == PX_SET)
  }

  /** The first `n` columns (bits, most significant first) of one sprite row drawn at row `dispY`. */
  function DrawRow(c: Canvas, row: u8, baseX: nat, dispY: nat, n: nat): (r: Canvas)
    requires n <= 8 && |c.pixels| == WIDTH * HEIGHT
    ensures |r.pixels| == WIDTH * HEIGHT
  {
    if n == 0 then c
    else
      var prev := DrawRow(c, row, baseX, dispY, n - 1);
      if BitSet(row, n - 1) then Plot(prev, PixelAddr(dispY, baseX + n - 1)) else prev
  }

  /** The rows of `sprite` drawn in order, row `j` at display row `baseY + j`. */
  function DrawSprite(c: Canvas, sprite: seq<u8>, baseX: nat, baseY: nat): (r: Canvas)
    requires |c.pixels| == WIDTH * HEIGHT
    ensures |r.pixels| == WIDTH * HEIGHT
  {
    if |sprite| == 0 then c
    else
      var m := |sprite| - 1;
      DrawRow(DrawSprite(c, sprite[..m], baseX, baseY), sprite[m], baseX, baseY + m, 8)
  }

  // ------------------------------------------------------------------
  // Drawing twice restores the screen
  // ------------------------------------------------------------------

  /** Canvas `c1` differs from `c0` in exactly the cells in which `d1` differs from `d0`. */
  ghost predicate SameFlips(c0: seq<bool>, c1: seq<bool>, d0: seq<bool>, d1: seq<bool>)
    requires |c0| == |c1| == |d0| == |d1|
  {
    forall p :: 0 <= p < |c0| ==> (c1[p] != c0[p]) == (d1[p] != d0[p])
  }

  /** The cells a row toggles do not depend on the screen it is drawn on. */
  lemma {:induction false} DrawRowFlips(c: Canvas, d: Canvas, row: u8, baseX: nat, dispY: nat, n: nat)
    requires n <= 8 && |c.pixels| == |d.pixels| == WIDTH * HEIGHT
    ensures SameFlips(c.pixels, DrawRow(c, row, baseX, dispY, n).pixels,
                      d.pixels, DrawRow(d, row, baseX, dispY, n).pixels)
  {
    if n > 0 {
      DrawRowFlips(c, d, row, baseX, dispY, n - 1);
    }
  }

  /** The cells a sprite toggles do not depend on the screen it is drawn on. */
  lemma {:induction false} DrawSpriteFlips(c: Canvas, d: Canvas, sprite: seq<u8>, baseX: nat, baseY: nat)
    requires |c.pixels| == |d.pixels| == WIDTH * HEIGHT
    ensures SameFlips(c.pixels, DrawSprite(c, sprite, baseX, baseY).pixels,
                      d.pixels, DrawSprite(d, sprite, baseX, baseY).pixels)
  {
    if |sprite| > 0 {
      var m := |sprite| - 1;
      var c', d' := DrawSprite(c, sprite[..m], baseX, baseY), DrawSprite(d, sprite[..m], baseX, baseY);
      DrawSpriteFlips(c, d, sprite[..m], baseX, baseY);
      DrawRowFlips(c', d', sprite[m], baseX, baseY + m, 8);
    }
  }

  /** Drawing the same sprite at the same place twice gives back the original screen. */
  lemma DrawSpriteTwice(c: Canvas, sprite: seq<u8>, baseX: nat, baseY: nat, collision: bool)
    requires |c.pixels| == WIDTH * HEIGHT
    ensures var once := DrawSprite(c, sprite, baseX, baseY).pixels;
            DrawSprite(Canvas(once, collision), sprite, baseX, baseY).pixels == c.pixels
  {
    var once := DrawSprite(c, sprite, baseX, baseY).pixels;
    var twice := DrawSprite(Canvas(once, collision), sprite, baseX, baseY).pixels;
    DrawSpriteFlips(c, Canvas(once, collision), sprite, baseX, baseY);
    assert forall p :: 0 <= p < |once| ==> twice[p] == c.pixels[p];
  }

  // ------------------------------------------------------------------
  // Which pixels change, and when a collision is reported
  // ------------------------------------------------------------------

  /** Bit `i` of sprite row `j` is set. */
  predicate Lit(sprite: seq<u8>, j: int, i: int) {
    0 <= j < |sprite| && 0 <= i < 8 && BitSet(sprite[j], i)
  }

  /** The sprite has at least one set bit. */
  ghost predicate HasLitBit(sprite: seq<u8>) {
    exists j: nat, i: nat :: Lit(sprite, j, i)
  }

  /** The screen cell that bit `i` of row `j` lands on. */
  function Hit(baseX: nat, baseY: nat, j: nat, i: nat): (a: nat)
    ensures a < WIDTH * HEIGHT
  {
    PixelAddr(baseY + j, baseX + i)
  }

  /** Some set bit of the sprite lands on cell `p`. */
  ghost predicate Covers(sprite: seq<u8>, baseX: nat, baseY: nat, p: int) {
    exists j: nat, i: nat :: Lit(sprite, j, i) && Hit(baseX, baseY, j, i) == p
  }

  /** Some set bit of the sprite lands on a cell that is set in `screen`. */
  ghost predicate Collides(sprite: seq<u8>, baseX: nat, baseY: nat, screen: seq<bool>)
    requires |screen| == WIDTH * HEIGHT
  {
    exists j: nat, i: nat :: Lit(sprite, j, i) && screen[Hit(baseX, baseY, j, i)] == PX_SET
  }

  /** Two bits land on the same cell only if they are the same bit (at most 32 rows, 8 columns). */
  lemma HitInjective(baseX: nat, baseY: nat, j: nat, i: nat, j': nat, i': nat)
    requires j < HEIGHT && j' < HEIGHT && i < 8 && i' < 8
    requires Hit(baseX, baseY, j, i) == Hit(baseX, baseY, j', i')
    ensures j == j' && i == i'
  {
    var y, y' := (baseY + j) % HEIGHT, (baseY + j') % HEIGHT;
    var x, x' := (baseX + i) % WIDTH, (baseX + i') % WIDTH;
    assert y * WIDTH + x == y' * WIDTH + x';
    assert y == y' && x == x';
  }

  /** The set bits of the first `n` columns of `row` that land on cell `p` (at display row `dispY`). */
  ghost predicate RowCovers(row: u8, baseX: nat, dispY: nat, n: nat, p: int)
    requires n <= 8
  {
    exists i: nat :: i < n && BitSet(row, i) && PixelAddr(dispY, baseX + i) == p
  }

  /** Column `n - 1` of a row lands on a cell none of the columns before it reached. */
  lemma FreshColumn(row: u8, baseX: nat, dispY: nat, n: nat)
    requires 0 < n <= 8
    ensures !RowCovers(row, baseX, dispY, n - 1, PixelAddr(dispY, baseX + n - 1))
  {
    forall i: nat | i < n - 1 && BitSet(row, i)
      ensures PixelAddr(dispY, baseX + i) != PixelAddr(dispY, baseX + n - 1)
    {
      if PixelAddr(dispY, baseX + i) == PixelAddr(dispY, baseX + n - 1) {
        HitInjective(baseX, dispY, 0, i, 0, n - 1);
      }
    }
  }

  /** A row toggles exactly the cells its set bits land on. */
  lemma {:induction false} DrawRowPixels(c: Canvas, row: u8, baseX: nat, dispY: nat, n: nat)
    requires n <= 8 && |c.pixels| == WIDTH * HEIGHT
    ensures var r := DrawRow(c, row, baseX, dispY, n);
      forall p :: 0 <= p < WIDTH * HEIGHT ==> r.pixels[p] == (c.pixels[p] != RowCovers(row, baseX, dispY, n, p))
  {
    if n > 0 {
      DrawRowPixels(c, row, baseX, dispY, n - 1);
      FreshColumn(row, baseX, dispY, n);
      var r := DrawRow(c, row, baseX, dispY, n);
      var a := PixelAddr(dispY, baseX + n - 1);
      forall p | 0 <= p < WIDTH * HEIGHT
        ensures r.pixels[p] == (c.pixels[p] != RowCovers(row, baseX, dispY, n, p))
      {
        if BitSet(row, n - 1) && p == a {
          assert RowCovers(row, baseX, dispY, n, p);
        } else if RowCovers(row, baseX, dispY, n, p) {
          var i: nat :| i < n && BitSet(row, i) && PixelAddr(dispY, baseX + i) == p;
          assert RowCovers(row, baseX, dispY, n - 1, p);
        }
      }
    }
  }

  /** A row collides iff one of its set bits lands on a cell that was set before the row. */
  lemma {:induction false} DrawRowCollision(c: Canvas, row: u8, baseX: nat, dispY: nat, n: nat)
    requires n <= 8 && |c.pixels| == WIDTH * HEIGHT
    ensures DrawRow(c, row, baseX, dispY, n).collision <==>
      c.collision || exists i: nat :: i < n && BitSet(row, i) && c.pixels[PixelAddr(dispY, baseX + i)] == PX_SET
  {
    if n > 0 {
      DrawRowCollision(c, row, baseX, dispY, n - 1);
      DrawRowPixels(c, row, baseX, dispY, n - 1);
      FreshColumn(row, baseX, dispY, n);
      var prev := DrawRow(c, row, baseX, dispY, n - 1);
      var a := PixelAddr(dispY, baseX + n - 1);
      assert prev.pixels[a] == c.pixels[a];
      if BitSet(row, n - 1) && !prev.collision && c.pixels[a] == PX_SET {
        assert DrawRow(c, row, baseX, dispY, n).collision;
      }
    }
  }

  /** A row toggles exactly the cells its set bits land on and collides where one of them was set. */
  lemma DrawRowEffect(c: Canvas, row: u8, baseX: nat, dispY: nat, n: nat)
    requires n <= 8 && |c.pixels| == WIDTH * HEIGHT
    ensures var r := DrawRow(c, row, baseX, dispY, n);
      forall p :: 0 <= p < WIDTH * HEIGHT ==> r.pixels[p] == (c.pixels[p] != RowCovers(row, baseX, dispY, n, p))
    ensures DrawRow(c, row, baseX, dispY, n).collision <==>
      c.collision || exists i: nat :: i < n && BitSet(row, i) && c.pixels[PixelAddr(dispY, baseX + i)] == PX_SET
  {
    DrawRowPixels(c, row, baseX, dispY, n);
    DrawRowCollision(c, row, baseX, dispY, n);
  }

  /** The sprite's rows land on display rows no other row of it reaches. */
  lemma RowsDisjoint(sprite: seq<u8>, baseX: nat, baseY: nat, p: int)
    requires 0 < |sprite| <= HEIGHT
    requires RowCovers(sprite[|sprite| - 1], baseX, baseY + |sprite| - 1, 8, p)
    ensures !Covers(sprite[..|sprite| - 1], baseX, baseY, p)
  {
    var m := |sprite| - 1;
    var i: nat :| i < 8 && BitSet(sprite[m], i) && PixelAddr(baseY + m, baseX + i) == p;
    if Covers(sprite[..m], baseX, baseY, p) {
      var j': nat, i': nat :| Lit(sprite[..m], j', i') && Hit(baseX, baseY, j', i') == p;
      assert Hit(baseX, baseY, m, i) == p;
      HitInjective(baseX, baseY, j', i', m, i);
    }
  }

  /** A cell is covered by a sprite iff its last row or the rows before it cover it. */
  lemma CoversSplit(sprite: seq<u8>, baseX: nat, baseY: nat, p: int)
    requires 0 < |sprite|
    ensures var m := |sprite| - 1;
      Covers(sprite, baseX, baseY, p) <==>
      RowCovers(sprite[m], baseX, baseY + m, 8, p) || Covers(sprite[..m], baseX, baseY, p)
  {
    var m := |sprite| - 1;
    if Covers(sprite, baseX, baseY, p) {
      var j: nat, i: nat :| Lit(sprite, j, i) && Hit(baseX, baseY, j, i) == p;
      if j == m {
        assert RowCovers(sprite[m], baseX, baseY + m, 8, p);
      } else {
        assert Lit(sprite[..m], j, i);
      }
    }
    if RowCovers(sprite[m], baseX, baseY + m, 8, p) {
      var i: nat :| i < 8 && BitSet(sprite[m], i) && PixelAddr(baseY + m, baseX + i) == p;
      assert Lit(sprite, m, i) && Hit(baseX, baseY, m, i) == p;
    }
    if Covers(sprite[..m], baseX, baseY, p) {
      var j: nat, i: nat :| Lit(sprite[..m], j, i) && Hit(baseX, baseY, j, i) == p;
      assert Lit(sprite, j, i);
    }
  }

  /** A sprite collides with a screen iff its last row or the rows before it do. */
  lemma CollidesSplit(sprite: seq<u8>, baseX: nat, baseY: nat, screen: seq<bool>)
    requires 0 < |sprite| && |screen| == WIDTH * HEIGHT
    ensures var m := |sprite| - 1;
      Collides(sprite, baseX, baseY, screen) <==>
      (exists i: nat :: i < 8 && BitSet(sprite[m], i) && screen[PixelAddr(baseY + m, baseX + i)] == PX_SET)
      || Collides(sprite[..m], baseX, baseY, screen)
  {
    var m := |sprite| - 1;
    if Collides(sprite, baseX, baseY, screen) {
      var j: nat, i: nat :| Lit(sprite, j, i) && screen[Hit(baseX, baseY, j, i)] == PX_SET;
      if j < m {
        assert Lit(sprite[..m], j, i);
      } else {
        assert BitSet(sprite[m], i) && screen[PixelAddr(baseY + m, baseX + i)] == PX_SET;
      }
    }
    if exists i: nat :: i < 8 && BitSet(sprite[m], i) && screen[PixelAddr(baseY + m, baseX + i)] == PX_SET {
      var i: nat :| i < 8 && BitSet(sprite[m], i) && screen[PixelAddr(baseY + m, baseX + i)] == PX_SET;
      assert Lit(sprite, m, i) && screen[Hit(baseX, baseY, m, i)] == PX_SET;
    }
    if Collides(sprite[..m], baseX, baseY, screen) {
      var j: nat, i: nat :| Lit(sprite[..m], j, i) && screen[Hit(baseX, baseY, j, i)] == PX_SET;
      assert Lit(sprite, j, i);
    }
  }

  /**
   * For a sprite of at most 32 rows every set bit lands on its own cell, so
   * the blit toggles exactly the cells the sprite covers.
   */
  lemma {:induction false} DrawSpritePixels(c: Canvas, sprite: seq<u8>, baseX: nat, baseY: nat)
    requires |c.pixels| == WIDTH * HEIGHT && |sprite| <= HEIGHT
    ensures var r := DrawSprite(c, sprite, baseX, baseY);
      forall p :: 0 <= p < WIDTH * HEIGHT ==> r.pixels[p] == (c.pixels[p] != Covers(sprite, baseX, baseY, p))
  {
    if |sprite| > 0 {
      var m := |sprite| - 1;
      var prev := DrawSprite(c, sprite[..m], baseX, baseY);
      var r := DrawSprite(c, sprite, baseX, baseY);
      DrawSpritePixels(c, sprite[..m], baseX, baseY);
      DrawRowPixels(prev, sprite[m], baseX, baseY + m, 8);
      forall p | 0 <= p < WIDTH * HEIGHT
        ensures r.pixels[p] == (c.pixels[p] != Covers(sprite, baseX, baseY, p))
      {
        CoversSplit(sprite, baseX, baseY, p);
        if RowCovers(sprite[m], baseX, baseY + m, 8, p) {
          RowsDisjoint(sprite, baseX, baseY, p);
        }
      }
    }
  }

  /**
   * For a sprite of at most 32 rows the blit reports a collision iff one of
   * its set bits lands on a cell that was set beforehand.
   */
  lemma {:induction false} DrawSpriteCollision(c: Canvas, sprite: seq<u8>, baseX: nat, baseY: nat)
    requires |c.pixels| == WIDTH * HEIGHT && |sprite| <= HEIGHT
    ensures DrawSprite(c, sprite, baseX, baseY).collision <==>
      c.collision || Collides(sprite, baseX, baseY, c.pixels)
  {
    if |sprite| > 0 {
      var m := |sprite| - 1;
      var prev := DrawSprite(c, sprite[..m], baseX, baseY);
      DrawSpriteCollision(c, sprite[..m], baseX, baseY);
      DrawSpritePixels(c, sprite[..m], baseX, baseY);
      DrawRowCollision(prev, sprite[m], baseX, baseY + m, 8);
      // the last row meets the cells of `c`, since the rows before it never reach them
      forall i: nat | i < 8 && BitSet(sprite[m], i)
        ensures prev.pixels[PixelAddr(baseY + m, baseX + i)] == c.pixels[PixelAddr(baseY + m, baseX + i)]
      {
        var p := PixelAddr(baseY + m, baseX + i);
        assert RowCovers(sprite[m], baseX, baseY + m, 8, p);
        RowsDisjoint(sprite, baseX, baseY, p);
      }
      CollidesSplit(sprite, baseX, baseY, c.pixels);
    }
  }

  /** A byte 0xFF drawn at x = 60 on a blank row wraps its last four columns to x = 0..3. */
  lemma DrawRowWraps()
    ensures var r := DrawRow(Canvas(seq(WIDTH * HEIGHT, _ => PX_UNS), false), 0xFF, 60, 0, 8);
      && (forall p :: 0 <= p < WIDTH ==> r.pixels[p] == (p < 4 || 60 <= p))
      && !r.collision
  {
    var blank := Canvas(seq(WIDTH * HEIGHT, _ => PX_UNS), false);
    DrawRowEffect(blank, 0xFF, 60, 0, 8);
    var r := DrawRow(blank, 0xFF, 60, 0, 8);
    forall p | 0 <= p < WIDTH
      ensures r.pixels[p] == (p < 4 || 60 <= p)
    {
      WrapCovers(p);
    }
  }

  /** The columns 0xFF lights on row 0 when drawn at x = 60. */
  lemma WrapCovers(p: nat)
    requires p < WIDTH
    ensures RowCovers(0xFF, 60, 0, 8, p) == (p < 4 || 60 <= p)
  {
    if p < 4 {
      WrapHit(p + 4, p);
    } else if 60 <= p {
      WrapHit(p - 60, p);
    } else {
      forall i: nat | i < 8 && BitSet(0xFF, i)
        ensures PixelAddr(0, 60 + i) != p
      {
        assert (60 + i) % 64 == if i < 4 then 60 + i else i - 4;
      }
    }
  }

  /** Column `i` of the byte drawn at x = 60 lands on cell `p` of row 0. */
  lemma WrapHit(i: nat, p: nat)
    requires i < 8 && p == (60 + i) % 64
    ensures RowCovers(0xFF, 60, 0, 8, p)
  {
    FullByte(i);
    assert PixelAddr(0, 60 + i) == p;
  }
}
