// The SSD1331 driver of stm32lib/ssd1331.c: a 96x64 colour OLED on SPI.
// There is no frame buffer: every drawpixel on the panel is sent at once
// as six command bytes and three data bytes. The bus is an appended trace
// of bytes, each tagged with the level of the D/C pin it was sent under;
// the shapes are the point lists of module Raster on a 96x64 panel.

module Ssd1331 {
  import opened Ints
  import opened Raster
  import opened Fonts
  import opened Hangul
  import opened Text

  const WIDTH: int := 96
  const HEIGHT: int := 64

  /** A 24-bit colour 0xRRGGBB in a uint32_t. */
  type Rgb = c: int | 0 <= c < 0x1_0000_0000

  /** One byte on the SPI bus, sent with D/C low (a command) or high (data). */
  datatype Spi = Cmd(b: int) | Dat(b: int)

  /** One 8-bit channel of the colour, shifted right by 2 for the panel's 6-bit format. */
  function Channel(color: Rgb, shift: nat): (r: int)
    requires shift == 0 || shift == 8 || shift == 16
    ensures 0 <= r < 64
  {
    ((color / Pow2(shift)) % 256) / 4
  }

  function Pow2(n: nat): (r: nat)
    ensures r > 0
  {
    if n == 0 then 1 else 2 * Pow2(n - 1)
  }

  /** The nine bytes of drawpixel at (x, y): column window x..0x5F, row window y..0x3F, then red, green, blue. */
  function PixelBytes(x: int, y: int, color: Rgb): seq<Spi>
  {
    seq(9, k requires 0 <= k < 9 => PixelByte(x, y, color, k))
  }

  function PixelByte(x: int, y: int, color: Rgb, k: nat): Spi
    requires k < 9
  {
    if k == 0 then Cmd(0x15) else if k == 1 then Cmd(x % 256) else if k == 2 then Cmd(0x5F)
    else if k == 3 then Cmd(0x75) else if k == 4 then Cmd(y % 256) else if k == 5 then Cmd(0x3F)
    else if k == 6 then Dat(Channel(color, 16)) else if k == 7 then Dat(Channel(color, 8)) else Dat(Channel(color, 0))
  }

  /**
   * The bytes sent while chip select is held low: drawpixel, on and off
   * each send one such frame, init one for its whole command stream.
   */
  datatype Frame = Frame(bytes: seq<Spi>)

  /** A byte as the controller takes it: the D/C pin level decides command or data. */
  function Tag(dc: bool, b: int): Spi
  {
    if dc then Dat(b) else Cmd(b)
  }

  /** drawpixel at p: one frame with its nine bytes on the panel, nothing off it. */
  function Pixel(p: Pt, color: Rgb): seq<Frame>
  {
    if InPanel(WIDTH, HEIGHT, p) then [Frame(PixelBytes(p.x, p.y, color))] else []
  }

  /** The frames of drawpixel called on each of ps in turn. */
  function Pixels(ps: seq<Pt>, color: Rgb): seq<Frame>
  {
    if ps == [] then [] else Pixels(ps[..|ps| - 1], color) + Pixel(ps[|ps| - 1], color)
  }

  lemma PixelsSnoc(ps: seq<Pt>, p: Pt, color: Rgb)
    ensures Pixels(ps + [p], color) == Pixels(ps, color) + Pixel(p, color)
  {
    assert (ps + [p])[..|ps + [p]| - 1] == ps;
  }

  /** Drawing ps then qs sends the frames of ps, then those of qs. */
  lemma {:induction false} PixelsAppend(ps: seq<Pt>, qs: seq<Pt>, color: Rgb)
    ensures Pixels(ps + qs, color) == Pixels(ps, color) + Pixels(qs, color)
    decreases |qs|
  {
    if qs == [] {
      assert ps + qs == ps;
    } else {
      var qs', q := qs[..|qs| - 1], qs[|qs| - 1];
      assert ps + qs == (ps + qs') + [q];
      PixelsSnoc(ps + qs', q, color);
      PixelsAppend(ps, qs', color);
      PixelsSnoc(qs', q, color);
      assert qs == qs' + [q];
    }
  }

  /**
   * The bus and the D/C level after drawing done and then next are those of
   * drawing done + next (D/C ends high once any frame was sent).
   */
  lemma Extend(f0: seq<Frame>, dc0: bool, done: seq<Pt>, next: seq<Pt>, color: Rgb)
    ensures f0 + Pixels(done, color) + Pixels(next, color) == f0 + Pixels(done + next, color)
    ensures ((dc0 || Pixels(done, color) != []) || Pixels(next, color) != []) == (dc0 || Pixels(done + next, color) != [])
  {
    PixelsAppend(done, next, color);
  }

  /** The same for one more drawpixel call. */
  lemma ExtendOne(f0: seq<Frame>, dc0: bool, done: seq<Pt>, p: Pt, color: Rgb)
    ensures f0 + Pixels(done, color) + Pixel(p, color) == f0 + Pixels(done + [p], color)
    ensures ((dc0 || Pixels(done, color) != []) || Pixel(p, color) != []) == (dc0 || Pixels(done + [p], color) != [])
  {
    PixelsSnoc(done, p, color);
  }

  /**
   * An on-panel drawpixel sends the column window x..0x5F and the row window
   * y..0x3F as commands, then red, green and blue as data, each below 64.
   */
  lemma PixelBytesShape(x: int, y: int, color: Rgb)
    ensures PixelBytes(x, y, color)
         == [Cmd(0x15), Cmd(x % 256), Cmd(0x5F), Cmd(0x75), Cmd(y % 256), Cmd(0x3F),
             Dat(Channel(color, 16)), Dat(Channel(color, 8)), Dat(Channel(color, 0))]
    ensures forall j :: 6 <= j < 9 ==> PixelBytes(x, y, color)[j].Dat? && PixelBytes(x, y, color)[j].b < 64
  {
  }

  /** Points on the panel send one frame each, in order; points off it send nothing. */
  lemma {:induction false} PixelsFrames(ps: seq<Pt>, color: Rgb)
    ensures (forall i :: 0 <= i < |ps| ==> InPanel(WIDTH, HEIGHT, ps[i])) ==>
      |Pixels(ps, color)| == |ps| &&
      forall k :: 0 <= k < |ps| ==> Pixels(ps, color)[k] == Frame(PixelBytes(ps[k].x, ps[k].y, color))
    ensures (forall i :: 0 <= i < |ps| ==> !InPanel(WIDTH, HEIGHT, ps[i])) ==> Pixels(ps, color) == []
    decreases |ps|
  {
    if ps != [] {
      var ps' := ps[..|ps| - 1];
      PixelsFrames(ps', color);
      assert forall i :: 0 <= i < |ps'| ==> ps'[i] == ps[i];
    }
  }

  // ---------------------------------------------------------------------
  // fill
  // ---------------------------------------------------------------------

  /** Rows 0..n-1 of the panel, each left to right: the drawpixel calls of fill. */
  function ScreenRows(n: nat): (r: seq<Pt>)
    ensures |r| == WIDTH * n
  {
    if n == 0 then [] else ScreenRows(n - 1) + Row(0, WIDTH - 1, n - 1)
  }

  /** fill visits the panel in row-major order: call y*WIDTH + x is the point (x, y). */
  lemma {:induction false} ScreenRowMajor(n: nat, x: nat, y: nat)
    requires x < WIDTH && y < n
    ensures ScreenRows(n)[y * WIDTH + x] == Pt(x, y)
  {
    if y < n - 1 {
      ScreenRowMajor(n - 1, x, y);
      assert y * WIDTH + x < WIDTH * (n - 1) by {
        MulMono(y + 1, n - 1, WIDTH);
      }
    } else {
      assert y * WIDTH == WIDTH * (n - 1);
    }
  }

  /**
   * fill sends exactly WIDTH * HEIGHT frames, frame y*WIDTH + x drawing
   * (x, y) in the one colour.
   */
  lemma ScreenFrames(color: Rgb, x: nat, y: nat)
    requires x < WIDTH && y < HEIGHT
    ensures |Pixels(ScreenRows(HEIGHT), color)| == WIDTH * HEIGHT
    ensures Pixels(ScreenRows(HEIGHT), color)[y * WIDTH + x] == Frame(PixelBytes(x, y, color))
  {
    var all := ScreenRows(HEIGHT);
    forall i | 0 <= i < |all|
      ensures InPanel(WIDTH, HEIGHT, all[i])
    {
      var x, y := i % WIDTH, i / WIDTH;
      assert i == y * WIDTH + x;
      ScreenRowMajor(HEIGHT, x, y);
    }
    PixelsFrames(all, color);
    ScreenRowMajor(HEIGHT, x, y);
  }

  /** The display state and the SPI trace of one SSD1331. */
  class Oled {
    /** Every chip-select frame sent so far, in order. */
    var frames: seq<Frame>
    /** The level of the D/C pin: high means the next bytes are data. */
    var dc: bool
    var cursorX: Uint16
    var cursorY: Uint16
    var initialized: bool
    /** The static glyph scratch of the Hangul compositor. */
    var scratch: GlyphScratch

    ghost predicate Valid()
      reads this, scratch
    {
      scratch.Valid()
    }

    /** The bus and the D/C pin are those of drawing ps after bus f0 with D/C at dc0. */
    ghost predicate Sent(f0: seq<Frame>, dc0: bool, ps: seq<Pt>, color: Rgb)
      reads this`frames, this`dc
    {
      frames == f0 + Pixels(ps, color) && dc == (dc0 || Pixels(ps, color) != [])
    }

    constructor ()
      ensures Valid() && fresh(scratch) && fresh(scratch.glyph)
      ensures frames == [] && !dc && cursorX == 0 && cursorY == 0 && !initialized
    {
      frames, dc := [], false;
      cursorX, cursorY := 0, 0;
      initialized := false;
      scratch := new GlyphScratch();
    }

    /**
     * ssd1331_init: one frame holding the controller set-up stream (D/C
     * low), then fill in black, which leaves D/C high; the cursor is homed
     * and the flag set. Returns 1 although the header declares void.
     */
    method Init() returns (r: int)
      modifies this`frames, this`dc, this`cursorX, this`cursorY, this`initialized
      ensures r == 1 && cursorX == 0 && cursorY == 0 && initialized && dc
      ensures frames == old(frames) + [Frame(Cmds(INIT_COMMANDS))] + Pixels(ScreenRows(HEIGHT), 0)
    {
      dc := true;
      dc := false;
      var bytes: seq<Spi> := [];
      var k := 0;
      while k < |INIT_COMMANDS|
        invariant 0 <= k <= |INIT_COMMANDS| && !dc
        invariant bytes == Cmds(INIT_COMMANDS[..k])
      {
        bytes := bytes + [Tag(dc, INIT_COMMANDS[k])];
        k := k + 1;
      }
      assert INIT_COMMANDS[..k] == INIT_COMMANDS;
      frames := frames + [Frame(bytes)];
      Fill(0);
      ScreenFrames(0, 0, 0);
      cursorX, cursorY := 0, 0;
      initialized := true;
      r := 1;
    }

    /** ssd1331_fill: drawpixel over every row top to bottom, every column left to right. */
    method Fill(color: Rgb)
      modifies this`frames, this`dc
      ensures Sent(old(frames), old(dc), ScreenRows(HEIGHT), color)
    {
      var y := 0;
      while y < HEIGHT
        invariant 0 <= y <= HEIGHT
        invariant Sent(old(frames), old(dc), ScreenRows(y), color)
      {
        FillRow(old(frames), old(dc), y, color);
        y := y + 1;
      }
    }

    /** One pass of fill's outer loop: row y appended to the rows before it. */
    method FillRow(ghost f0: seq<Frame>, ghost dc0: bool, y: nat, color: Rgb)
      requires y < HEIGHT && Sent(f0, dc0, ScreenRows(y), color)
      modifies this`frames, this`dc
      ensures Sent(f0, dc0, ScreenRows(y + 1), color)
    {
      ghost var row := Row(0, WIDTH - 1, y);
      ghost var f1, d1 := frames, dc;
      var x := 0;
      while x < WIDTH
        invariant 0 <= x <= WIDTH
        invariant Sent(f1, d1, row[..x], color)
      {
        DrawPixel(x, y, color);
        ExtendOne(f1, d1, row[..x], Pt(x, y), color);
        assert row[..x + 1] == row[..x] + [Pt(x, y)];
        x := x + 1;
      }
      assert row[..x] == row;
      Extend(f0, dc0, ScreenRows(y), row, color);
    }

    /**
     * ssd1331_drawpixel: nothing off the panel; else one frame with the
     * window commands under D/C low and the colour under D/C high.
     */
    method DrawPixel(x: Uint16, y: Uint16, color: Rgb)
      modifies this`frames, this`dc
      ensures frames == old(frames) + Pixel(Pt(x, y), color)
      ensures dc == (old(dc) || Pixel(Pt(x, y), color) != [])
    {
      if x >= WIDTH || y >= HEIGHT {
        return;
      }
      dc := false;
      var bytes := [Tag(dc, 0x15), Tag(dc, x % 256), Tag(dc, 0x5F), Tag(dc, 0x75), Tag(dc, y % 256), Tag(dc, 0x3F)];
      dc := true;
      var r, g, b := ((color / 0x10000) % 256) / 4, ((color / 0x100) % 256) / 4, (color % 256) / 4;
      assert Pow2(16) == 0x10000 && Pow2(8) == 0x100 && Pow2(0) == 1;
      bytes := bytes + [Tag(dc, r), Tag(dc, g), Tag(dc, b)];
      PixelBytesShape(x, y, color);
      assert bytes == PixelBytes(x, y, color);
      frames := frames + [Frame(bytes)];
    }

    /** A drawpixel after the points already sent extends them by that pixel. */
    method PixelAfter(ghost f0: seq<Frame>, ghost dc0: bool, ghost done: seq<Pt>, ghost after: seq<Pt>,
                      x: Uint16, y: Uint16, color: Rgb)
      requires Sent(f0, dc0, done, color) && after == done + [Pt(x, y)]
      modifies this`frames, this`dc
      ensures Sent(f0, dc0, after, color)
    {
      DrawPixel(x, y, color);
      ExtendOne(f0, dc0, done, Pt(x, y), color);
    }

    /** Two drawpixel calls after the points already sent extend them by both pixels. */
    method PixelPair(ghost f0: seq<Frame>, ghost dc0: bool, ghost done: seq<Pt>, ghost after: seq<Pt>,
                     xa: Uint16, ya: Uint16, xb: Uint16, yb: Uint16, color: Rgb)
      requires Sent(f0, dc0, done, color) && after == done + [Pt(xa, ya), Pt(xb, yb)]
      modifies this`frames, this`dc
      ensures Sent(f0, dc0, after, color)
    {
      PixelAfter(f0, dc0, done, done + [Pt(xa, ya)], xa, ya, color);
      PixelAfter(f0, dc0, done + [Pt(xa, ya)], after, xb, yb, color);
    }

    /** A drawline after the points already sent extends them by the line's points. */
    method LineAfter(ghost f0: seq<Frame>, ghost dc0: bool, ghost done: seq<Pt>, ghost after: seq<Pt>,
                     x0: Uint16, y0: Uint16, x1: Uint16, y1: Uint16, color: Rgb)
      requires Sent(f0, dc0, done, color) && after == done + LinePts(WIDTH, HEIGHT, x0, y0, x1, y1)
      modifies this`frames, this`dc
      ensures Sent(f0, dc0, after, color)
    {
      DrawLine(x0, y0, x1, y1, color);
      Extend(f0, dc0, done, LinePts(WIDTH, HEIGHT, x0, y0, x1, y1), color);
    }

    /** ssd1331_gotoxy. */
    method GotoXY(x: Uint16, y: Uint16)
      modifies this`cursorX, this`cursorY
      ensures cursorX == x && cursorY == y
    {
      cursorX, cursorY := x, y;
    }

    /**
     * ssd1331_on as written: one frame with 0xA4 (normal display) and 0xAF
     * (display on), sent at whatever level D/C was left.
     */
    method TurnOn()
      modifies this`frames
      ensures frames == old(frames) + [Frame([Tag(dc, 0xA4), Tag(dc, 0xAF)])]
    {
      frames := frames + [Frame([Tag(dc, 0xA4), Tag(dc, 0xAF)])];
    }

    /** ssd1331_on as intended: D/C driven low first, so both bytes are commands. */
    method TurnOnAsCommands()
      modifies this`frames, this`dc
      ensures !dc && frames == old(frames) + [Frame([Cmd(0xA4), Cmd(0xAF)])]
    {
      dc := false;
      frames := frames + [Frame([Tag(dc, 0xA4), Tag(dc, 0xAF)])];
    }

    /**
     * ssd1331_off as written: one frame with 0xA6 (all pixels off) and 0xAE
     * (display off), sent at whatever level D/C was left.
     */
    method TurnOff()
      modifies this`frames
      ensures frames == old(frames) + [Frame([Tag(dc, 0xA6), Tag(dc, 0xAE)])]
    {
      frames := frames + [Frame([Tag(dc, 0xA6), Tag(dc, 0xAE)])];
    }

    /** ssd1331_off as intended: D/C driven low first, so both bytes are commands. */
    method TurnOffAsCommands()
      modifies this`frames, this`dc
      ensures !dc && frames == old(frames) + [Frame([Cmd(0xA6), Cmd(0xAE)])]
    {
      dc := false;
      frames := frames + [Frame([Tag(dc, 0xA6), Tag(dc, 0xAE)])];
    }

    // -------------------------------------------------------------------
    // Lines
    // -------------------------------------------------------------------

    /** ssd1331_drawline: clamp, then a column, a row or the error walk. */
    method DrawLine(x0: Uint16, y0: Uint16, x1: Uint16, y1: Uint16, color: Rgb)
      modifies this`frames, this`dc
      ensures Sent(old(frames), old(dc), LinePts(WIDTH, HEIGHT, x0, y0, x1, y1), color)
    {
      var a0, b0, a1, b1 := x0, y0, x1, y1;
      if a0 >= WIDTH { a0 := WIDTH - 1; }
      if a1 >= WIDTH { a1 := WIDTH - 1; }
      if b0 >= HEIGHT { b0 := HEIGHT - 1; }
      if b1 >= HEIGHT { b1 := HEIGHT - 1; }
      var dx := if a0 < a1 then a1 - a0 else a0 - a1;
      var dy := if b0 < b1 then b1 - b0 else b0 - b1;
      if dx == 0 {
        var lo, hi := if b1 < b0 then b1 else b0, if b1 < b0 then b0 else b1;
        VerticalRun(a0, lo, hi, color);
        return;
      }
      if dy == 0 {
        var lo, hi := if a1 < a0 then a1 else a0, if a1 < a0 then a0 else a1;
        HorizontalRun(lo, hi, b0, color);
        return;
      }
      StartKeeps(a0, b0, a1, b1);
      ErrorWalk(StartWalker(a0, b0, a1, b1), a0, b0, color);
    }

    /** The vertical branch: pixels (x, lo) .. (x, hi) top to bottom. */
    method VerticalRun(x: Uint16, lo: Uint16, hi: Uint16, color: Rgb)
      requires lo <= hi
      modifies this`frames, this`dc
      ensures Sent(old(frames), old(dc), Column(x, lo, hi), color)
    {
      ghost var col := Column(x, lo, hi);
      var i := lo;
      while i <= hi
        invariant lo <= i <= hi + 1
        invariant Sent(old(frames), old(dc), col[..i - lo], color)
      {
        DrawPixel(x, i, color);
        ExtendOne(old(frames), old(dc), col[..i - lo], Pt(x, i), color);
        assert col[..i + 1 - lo] == col[..i - lo] + [Pt(x, i)];
        i := i + 1;
      }
      assert col[..i - lo] == col;
    }

    /** The horizontal branch: pixels (lo, y) .. (hi, y) left to right. */
    method HorizontalRun(lo: Uint16, hi: Uint16, y: Uint16, color: Rgb)
      requires lo <= hi
      modifies this`frames, this`dc
      ensures Sent(old(frames), old(dc), Row(lo, hi, y), color)
    {
      ghost var row := Row(lo, hi, y);
      var i := lo;
      while i <= hi
        invariant lo <= i <= hi + 1
        invariant Sent(old(frames), old(dc), row[..i - lo], color)
      {
        DrawPixel(i, y, color);
        ExtendOne(old(frames), old(dc), row[..i - lo], Pt(i, y), color);
        assert row[..i + 1 - lo] == row[..i - lo] + [Pt(i, y)];
        i := i + 1;
      }
      assert row[..i - lo] == row;
    }

    /** The diagonal branch: draw, stop at the target, else step by the error term. */
    method ErrorWalk(s: Walker, x: Uint16, y: Uint16, color: Rgb)
      requires WalkInv(s, Cursor(x, y, s.e0)) && IsU16(s.x1) && IsU16(s.y1)
      requires Toward(x, s.x1, s.sx) == s.dx && Toward(y, s.y1, s.sy) == s.dy
      modifies this`frames, this`dc
      ensures Sent(old(frames), old(dc), Walk(s, Cursor(x, y, s.e0)), color)
    {
      var cur := Cursor(x, y, s.e0);
      ghost var done: seq<Pt> := [];
      while true
        invariant WalkInv(s, cur)
        invariant done + Walk(s, cur) == Walk(s, Cursor(x, y, s.e0))
        invariant Sent(old(frames), old(dc), done, color)
        decreases Remaining(s, cur)
      {
        WalkBetween(s, cur, x, y);
        ghost var done' := done + [Pt(cur.x, cur.y)];
        PixelAfter(old(frames), old(dc), done, done', cur.x, cur.y, color);
        if cur.x == s.x1 && cur.y == s.y1 {
          assert Walk(s, cur) == [Pt(cur.x, cur.y)];
          assert done' == Walk(s, Cursor(x, y, s.e0));
          return;
        }
        StepKeeps(s, cur);
        var next := Step(s, cur);
        assert Walk(s, cur) == [Pt(cur.x, cur.y)] + Walk(s, next);
        done := done';
        cur := next;
      }
    }

    // -------------------------------------------------------------------
    // Rectangles and triangles
    // -------------------------------------------------------------------

    /** ssd1331_drawrectangle: origin check, width and height cut at the edge, then four lines. */
    method DrawRectangle(x: Uint16, y: Uint16, w: Uint16, h: Uint16, color: Rgb)
      modifies this`frames, this`dc
      ensures Sent(old(frames), old(dc), RectPts(WIDTH, HEIGHT, x, y, w, h), color)
    {
      if x >= WIDTH || y >= HEIGHT {
        return;
      }
      var ew, eh := w, h;
      if x + ew >= WIDTH { ew := WIDTH - x; }
      if y + eh >= HEIGHT { eh := HEIGHT - y; }
      assert ew == Extent(x, w, WIDTH) && eh == Extent(y, h, HEIGHT);
      DrawSides(x, y, x + ew, y + eh, color);
    }

    /** The four drawline calls of drawrectangle: top, bottom, left, right. */
    method DrawSides(x: Uint16, y: Uint16, x1: Uint16, y1: Uint16, color: Rgb)
      modifies this`frames, this`dc
      ensures Sent(old(frames), old(dc), Sides(WIDTH, HEIGHT, x, y, x1, y1), color)
    {
      ghost var top, bottom := LinePts(WIDTH, HEIGHT, x, y, x1, y), LinePts(WIDTH, HEIGHT, x, y1, x1, y1);
      ghost var left, right := LinePts(WIDTH, HEIGHT, x, y, x, y1), LinePts(WIDTH, HEIGHT, x1, y, x1, y1);
      DrawLine(x, y, x1, y, color);
      DrawLine(x, y1, x1, y1, color);
      Extend(old(frames), old(dc), top, bottom, color);
      DrawLine(x, y, x, y1, color);
      Extend(old(frames), old(dc), top + bottom, left, color);
      DrawLine(x1, y, x1, y1, color);
      Extend(old(frames), old(dc), top + bottom + left, right, color);
    }

    /** ssd1331_fillrectangle: origin check, cut at the edge, then one line per row 0..h. */
    method FillRectangle(x: Uint16, y: Uint16, w: Uint16, h: Uint16, color: Rgb)
      modifies this`frames, this`dc
      ensures Sent(old(frames), old(dc), FillRectPts(WIDTH, HEIGHT, x, y, w, h), color)
    {
      if x >= WIDTH || y >= HEIGHT {
        return;
      }
      var ew, eh := w, h;
      if x + ew >= WIDTH { ew := WIDTH - x; }
      if y + eh >= HEIGHT { eh := HEIGHT - y; }
      assert ew == Extent(x, w, WIDTH) && eh == Extent(y, h, HEIGHT);
      FillLines(x, y, ew, eh, color);
    }

    /** The loop of fillrectangle: rows y .. y + eh, each a line from x to x + ew. */
    method FillLines(x: Uint16, y: Uint16, ew: Uint16, eh: Uint16, color: Rgb)
      requires x + ew < U16_LIMIT && y + eh < U16_LIMIT
      modifies this`frames, this`dc
      ensures Sent(old(frames), old(dc), FillRows(WIDTH, HEIGHT, x, y, ew, eh + 1), color)
    {
      ghost var f0, dc0 := frames, dc;
      assert f0 + Pixels([], color) == f0;
      var i := 0;
      while i <= eh
        invariant 0 <= i <= eh + 1
        invariant Sent(f0, dc0, FillRows(WIDTH, HEIGHT, x, y, ew, i), color)
      {
        FillLine(f0, dc0, x, y, ew, i, color);
        i := i + 1;
      }
    }

    /** One pass of fillrectangle's loop: the line of row y + i appended to the rows before it. */
    method FillLine(ghost f0: seq<Frame>, ghost dc0: bool, x: Uint16, y: Uint16, ew: Uint16, i: nat, color: Rgb)
      requires x + ew < U16_LIMIT && y + i < U16_LIMIT
      requires Sent(f0, dc0, FillRows(WIDTH, HEIGHT, x, y, ew, i), color)
      modifies this`frames, this`dc
      ensures Sent(f0, dc0, FillRows(WIDTH, HEIGHT, x, y, ew, i + 1), color)
    {
      FillRowsSnoc(WIDTH, HEIGHT, x, y, ew, i);
      LineAfter(f0, dc0, FillRows(WIDTH, HEIGHT, x, y, ew, i), FillRows(WIDTH, HEIGHT, x, y, ew, i + 1), x, y + i, x + ew, y + i, color);
    }

    /** ssd1331_drawtriangle: the three sides 1-2, 2-3, 3-1. */
    method DrawTriangle(x1: Uint16, y1: Uint16, x2: Uint16, y2: Uint16, x3: Uint16, y3: Uint16, color: Rgb)
      modifies this`frames, this`dc
      ensures Sent(old(frames), old(dc), TrianglePts(WIDTH, HEIGHT, x1, y1, x2, y2, x3, y3), color)
    {
      ghost var s1, s2 := LinePts(WIDTH, HEIGHT, x1, y1, x2, y2), LinePts(WIDTH, HEIGHT, x2, y2, x3, y3);
      DrawLine(x1, y1, x2, y2, color);
      DrawLine(x2, y2, x3, y3, color);
      Extend(old(frames), old(dc), s1, s2, color);
      DrawLine(x3, y3, x1, y1, color);
      Extend(old(frames), old(dc), s1 + s2, LinePts(WIDTH, HEIGHT, x3, y3, x1, y1), color);
    }

    /**
     * ssd1331_filltriangle: a DDA walk from corner 1 to corner 2 with one
     * line to corner 3 from every point of the walk (int16 accumulators;
     * sides 1-2 shorter than 16384 in both directions keep them in range).
     */
    method FillTriangle(x1: Uint16, y1: Uint16, x2: Uint16, y2: Uint16, x3: Uint16, y3: Uint16, color: Rgb)
      requires Abs(x2 - x1) < 16384 && Abs(y2 - y1) < 16384
      modifies this`frames, this`dc
      ensures Sent(old(frames), old(dc), FillTrianglePts(WIDTH, HEIGHT, x1, y1, x2, y2, x3, y3), color)
    {
      var deltax, deltay := Abs(x2 - x1), Abs(y2 - y1);
      var xinc1, xinc2 := if x2 >= x1 then 1 else -1, if x2 >= x1 then 1 else -1;
      var yinc1, yinc2 := if y2 >= y1 then 1 else -1, if y2 >= y1 then 1 else -1;
      var den, num, numadd, numpixels;
      if deltax >= deltay {
        xinc1, yinc2 := 0, 0;
        den, num, numadd, numpixels := deltax, deltax / 2, deltay, deltax;
      } else {
        xinc2, yinc1 := 0, 0;
        den, num, numadd, numpixels := deltay, deltay / 2, deltax, deltay;
      }
      var d := Dda(xinc1, yinc1, xinc2, yinc2, den, numadd);
      assert (d, num, numpixels) == DdaSetup(x1, y1, x2, y2);
      FanSweep(d, x1, y1, num, numpixels, x3, y3, color);
    }

    /** The loop of filltriangle: numpixels + 1 passes, one chord to corner 3 per pass. */
    method FanSweep(d: Dda, x1: Uint16, y1: Uint16, num0: int, numpixels: nat, x3: Uint16, y3: Uint16, color: Rgb)
      requires 0 <= num0 && (num0 < d.den || num0 == 0) && 0 <= d.numadd <= d.den < 16384
      modifies this`frames, this`dc
      ensures Sent(old(frames), old(dc), Fan(WIDTH, HEIGHT, ChordStarts(d, x1, y1, num0, numpixels + 1), x3, y3), color)
    {
      var x, y, num := x1 as int, y1 as int, num0;
      ghost var all := ChordStarts(d, x1, y1, num0, numpixels + 1);
      var curpixel := 0;
      while curpixel <= numpixels
        invariant 0 <= curpixel <= numpixels + 1
        invariant 0 <= num && (num < d.den || num == 0)
        invariant ChordStarts(d, x, y, num, numpixels + 1 - curpixel) == all[curpixel..]
        invariant Sent(old(frames), old(dc), Fan(WIDTH, HEIGHT, all[..curpixel], x3, y3), color)
      {
        ChordSlice(d, x, y, num, numpixels + 1 - curpixel, all, curpixel);
        FanLine(old(frames), old(dc), all[..curpixel], x, y, x3, y3, color);
        x, y, num := DdaPass(d, x, y, num, all, curpixel, numpixels);
        curpixel := curpixel + 1;
      }
      assert all[..curpixel] == all;
    }

    /** The cursor update at the end of one pass of filltriangle's loop. */
    static method DdaPass(d: Dda, x: int, y: int, num: int, ghost all: seq<Pt>, ghost curpixel: nat, ghost numpixels: nat)
      returns (x': int, y': int, num': int)
      requires curpixel <= numpixels && |all| == numpixels + 1
      requires 0 <= num && (num < d.den || num == 0) && 0 <= d.numadd <= d.den < 16384
      requires ChordStarts(d, x, y, num, numpixels + 1 - curpixel) == all[curpixel..]
      ensures 0 <= num' && (num' < d.den || num' == 0)
      ensures ChordStarts(d, x', y', num', numpixels + 1 - (curpixel + 1)) == all[curpixel + 1..]
    {
      assert IsI16(num + d.numadd);
      x', y', num' := x, y, num + d.numadd;
      if num' >= d.den {
        num' := num' - d.den;
        x', y' := x' + d.xinc1, y' + d.yinc1;
      }
      x', y' := x' + d.xinc2, y' + d.yinc2;
      ChordSliceNext(d, x, y, num, x', y', num', numpixels + 1 - curpixel, numpixels + 1 - (curpixel + 1), all, curpixel);
    }

    /** One pass of filltriangle's loop: the chord from (x, y) to corner 3. */
    method FanLine(ghost f0: seq<Frame>, ghost dc0: bool, ghost done: seq<Pt>, x: int, y: int, x3: Uint16, y3: Uint16, color: Rgb)
      requires Sent(f0, dc0, Fan(WIDTH, HEIGHT, done, x3, y3), color)
      modifies this`frames, this`dc
      ensures Sent(f0, dc0, Fan(WIDTH, HEIGHT, done + [Pt(x, y)], x3, y3), color)
    {
      FanSnoc(WIDTH, HEIGHT, done, Pt(x, y), x3, y3);
      LineAfter(f0, dc0, Fan(WIDTH, HEIGHT, done, x3, y3), Fan(WIDTH, HEIGHT, done + [Pt(x, y)], x3, y3), U16(x), U16(y), x3, y3, color);
    }

    // -------------------------------------------------------------------
    // Circles
    // -------------------------------------------------------------------

    /** The eight drawpixel calls of one pass of drawcircle. */
    method PlotOctants(x0: int, y0: int, x: int, y: int, color: Rgb)
      modifies this`frames, this`dc
      ensures Sent(old(frames), old(dc), Octants(x0, y0, x, y), color)
    {
      PlotReflections(x0, y0, x, y, color);
      PlotReflections(x0, y0, y, x, color);
      Extend(old(frames), old(dc), Reflections(x0, y0, x, y), Reflections(x0, y0, y, x), color);
      OctantsHalves(x0, y0, x, y);
    }

    /** Four of those calls: (a, b) reflected through both axes. */
    method PlotReflections(x0: int, y0: int, a: int, b: int, color: Rgb)
      modifies this`frames, this`dc
      ensures Sent(old(frames), old(dc), Reflections(x0, y0, a, b), color)
    {
      ghost var upper := [P16(x0 + a, y0 + b), P16(x0 - a, y0 + b)];
      assert Pixels([], color) == [];
      PixelPair(old(frames), old(dc), [], upper, U16(x0 + a), U16(y0 + b), U16(x0 - a), U16(y0 + b), color);
      PixelPair(old(frames), old(dc), upper, Reflections(x0, y0, a, b), U16(x0 + a), U16(y0 - b), U16(x0 - a), U16(y0 - b), color);
    }

    /** One pass of drawcircle's loop: the reflections of (x, y) appended to those before. */
    method CirclePass(ghost f0: seq<Frame>, ghost dc0: bool, ghost done: seq<Pt>, x0: int, y0: int, x: int, y: int, color: Rgb)
      requires Sent(f0, dc0, StrokeOf(x0, y0, done), color)
      modifies this`frames, this`dc
      ensures Sent(f0, dc0, StrokeOf(x0, y0, done + [Pt(x, y)]), color)
    {
      PlotOctants(x0, y0, x, y, color);
      Extend(f0, dc0, StrokeOf(x0, y0, done), Octants(x0, y0, x, y), color);
      StrokeSnoc(x0, y0, done, Pt(x, y));
    }

    /** ssd1331_drawcircle: the midpoint loop, eight reflections per pass. */
    method DrawCircle(x0: int, y0: int, r: int, color: Rgb)
      requires IsI16(x0) && IsI16(y0) && RadiusFits(r)
      modifies this`frames, this`dc
      ensures Sent(old(frames), old(dc), CirclePts(x0, y0, r), color)
    {
      var f, ddx, ddy, x, y := 1 - r, 1, -2 * r, 0, r;
      MidStartInv(r);
      ghost var done: seq<Pt> := [];
      while x <= y
        invariant MidInv(r, Mid(x, y, f, ddx, ddy))
        invariant done + MidSteps(r, Mid(x, y, f, ddx, ddy)) == MidSteps(r, MidStart(r))
        invariant Sent(old(frames), old(dc), StrokeOf(x0, y0, done), color)
        decreases if x <= y then y - x + 1 else 0
      {
        ghost var m := Mid(x, y, f, ddx, ddy);
        MidKeeps(r, m);
        MidAdvance(r, done, m);
        CirclePass(old(frames), old(dc), done, x0, y0, x, y, color);
        if f >= 0 {
          y := y - 1;
          ddy := ddy + 2;
          f := f + ddy;
        }
        x := x + 1;
        ddx := ddx + 2;
        f := f + ddx;
        assert Mid(x, y, f, ddx, ddy) == MidNext(m);
        done := done + [Pt(m.x, m.y)];
      }
      assert MidSteps(r, Mid(x, y, f, ddx, ddy)) == [];
      assert done == MidSteps(r, MidStart(r));
    }

    /** The four drawline calls of one pass of fillcircle. */
    method ChordLines(x0: int, y0: int, x: int, y: int, color: Rgb)
      modifies this`frames, this`dc
      ensures Sent(old(frames), old(dc), Chords(WIDTH, HEIGHT, x0, y0, x, y), color)
    {
      ghost var l1 := LinePts(WIDTH, HEIGHT, U16(x0 - x), U16(y0 + y), U16(x0 + x), U16(y0 + y));
      ghost var l2 := LinePts(WIDTH, HEIGHT, U16(x0 + x), U16(y0 - y), U16(x0 - x), U16(y0 - y));
      ghost var l3 := LinePts(WIDTH, HEIGHT, U16(x0 + y), U16(y0 + x), U16(x0 - y), U16(y0 + x));
      ghost var l4 := LinePts(WIDTH, HEIGHT, U16(x0 + y), U16(y0 - x), U16(x0 - y), U16(y0 - x));
      DrawLine(U16(x0 - x), U16(y0 + y), U16(x0 + x), U16(y0 + y), color);
      DrawLine(U16(x0 + x), U16(y0 - y), U16(x0 - x), U16(y0 - y), color);
      Extend(old(frames), old(dc), l1, l2, color);
      DrawLine(U16(x0 + y), U16(y0 + x), U16(x0 - y), U16(y0 + x), color);
      Extend(old(frames), old(dc), l1 + l2, l3, color);
      DrawLine(U16(x0 + y), U16(y0 - x), U16(x0 - y), U16(y0 - x), color);
      Extend(old(frames), old(dc), l1 + l2 + l3, l4, color);
    }

    /** One pass of fillcircle's loop: the chords of (x, y) appended to those before. */
    method DiscPass(ghost f0: seq<Frame>, ghost dc0: bool, ghost done: seq<Pt>, x0: int, y0: int, x: int, y: int, color: Rgb)
      requires Sent(f0, dc0, ChordsOf(WIDTH, HEIGHT, x0, y0, done), color)
      modifies this`frames, this`dc
      ensures Sent(f0, dc0, ChordsOf(WIDTH, HEIGHT, x0, y0, done + [Pt(x, y)]), color)
    {
      ChordLines(x0, y0, x, y, color);
      Extend(f0, dc0, ChordsOf(WIDTH, HEIGHT, x0, y0, done), Chords(WIDTH, HEIGHT, x0, y0, x, y), color);
      ChordsSnoc(WIDTH, HEIGHT, x0, y0, done, Pt(x, y));
    }

    /** ssd1331_fillcircle: the midpoint loop, four horizontal chords per pass. */
    method FillCircle(x0: int, y0: int, r: int, color: Rgb)
      requires IsI16(x0) && IsI16(y0) && RadiusFits(r)
      modifies this`frames, this`dc
      ensures Sent(old(frames), old(dc), DiscPts(WIDTH, HEIGHT, x0, y0, r), color)
    {
      var f, ddx, ddy, x, y := 1 - r, 1, -2 * r, 0, r;
      MidStartInv(r);
      ghost var done: seq<Pt> := [];
      while x <= y
        invariant MidInv(r, Mid(x, y, f, ddx, ddy))
        invariant done + MidSteps(r, Mid(x, y, f, ddx, ddy)) == MidSteps(r, MidStart(r))
        invariant Sent(old(frames), old(dc), ChordsOf(WIDTH, HEIGHT, x0, y0, done), color)
        decreases if x <= y then y - x + 1 else 0
      {
        ghost var m := Mid(x, y, f, ddx, ddy);
        MidKeeps(r, m);
        MidAdvance(r, done, m);
        DiscPass(old(frames), old(dc), done, x0, y0, x, y, color);
        if f >= 0 {
          y := y - 1;
          ddy := ddy + 2;
          f := f + ddy;
        }
        x := x + 1;
        ddx := ddx + 2;
        f := f + ddx;
        assert Mid(x, y, f, ddx, ddy) == MidNext(m);
        done := done + [Pt(m.x, m.y)];
      }
      assert MidSteps(r, Mid(x, y, f, ddx, ddy)) == [];
      assert done == MidSteps(r, MidStart(r));
    }

    // -------------------------------------------------------------------
    // Text
    // -------------------------------------------------------------------

    /** One ink bit of putc: a drawpixel at size 1, else a size x size fillrectangle. */
    method DrawCell(dx: int, dy: int, size: Uint8, color: Rgb)
      modifies this`frames, this`dc
      ensures Sent(old(frames), old(dc), Dot(WIDTH, HEIGHT, cursorX, cursorY, dx, dy, size), color)
    {
      ghost var pts := Dot(WIDTH, HEIGHT, cursorX, cursorY, dx, dy, size);
      if size == 1 {
        assert pts == [P16(cursorX + dx, cursorY + dy)];
        DrawPixel(U16(cursorX + dx), U16(cursorY + dy), color);
        PixelsSnoc([], P16(cursorX + dx, cursorY + dy), color);
        assert [] + [P16(cursorX + dx, cursorY + dy)] == pts;
      } else {
        assert pts == FillRectPts(WIDTH, HEIGHT, U16(cursorX + dx * size), U16(cursorY + dy * size), size, size);
        FillRectangle(U16(cursorX + dx * size), U16(cursorY + dy * size), size, size, color);
      }
    }

    /**
     * The two nested loops of putc over a glyph's ink, rows top to bottom
     * and columns left to right, one cell per set bit.
     */
    method DrawInk(ink: Ink, size: Uint8, color: Rgb)
      modifies this`frames, this`dc
      ensures Sent(old(frames), old(dc), InkRows(Brush(WIDTH, HEIGHT, cursorX, cursorY, size), ink, |ink.rows|), color)
    {
      for i := 0 to |ink.rows|
        invariant Sent(old(frames), old(dc), InkRows(Brush(WIDTH, HEIGHT, cursorX, cursorY, size), ink, i), color)
      {
        InkRowPass(old(frames), old(dc), ink, i, size, color);
      }
    }

    /** One pass of the outer loop of putc: row i appended to the rows before it. */
    method InkRowPass(ghost f0: seq<Frame>, ghost dc0: bool, ink: Ink, i: nat, size: Uint8, color: Rgb)
      requires i < |ink.rows|
      requires Sent(f0, dc0, InkRows(Brush(WIDTH, HEIGHT, cursorX, cursorY, size), ink, i), color)
      modifies this`frames, this`dc
      ensures Sent(f0, dc0, InkRows(Brush(WIDTH, HEIGHT, cursorX, cursorY, size), ink, i + 1), color)
    {
      ghost var b := Brush(WIDTH, HEIGHT, cursorX, cursorY, size);
      DrawInkRow(ink, i, size, color);
      Extend(f0, dc0, InkRows(b, ink, i), InkRow(b, ink, i, |ink.rows[i]|), color);
    }

    /** The inner loop of putc: the set bits of row i, left to right. */
    method DrawInkRow(ink: Ink, i: nat, size: Uint8, color: Rgb)
      requires i < |ink.rows|
      modifies this`frames, this`dc
      ensures Sent(old(frames), old(dc), InkRow(Brush(WIDTH, HEIGHT, cursorX, cursorY, size), ink, i, |ink.rows[i]|), color)
    {
      for j := 0 to |ink.rows[i]|
        invariant Sent(old(frames), old(dc), InkRow(Brush(WIDTH, HEIGHT, cursorX, cursorY, size), ink, i, j), color)
      {
        InkCellPass(old(frames), old(dc), ink, i, j, size, color);
      }
    }

    /** One pass of the inner loop of putc: the cell of column j when its bit is set. */
    method InkCellPass(ghost f0: seq<Frame>, ghost dc0: bool, ink: Ink, i: nat, j: nat, size: Uint8, color: Rgb)
      requires i < |ink.rows| && j < |ink.rows[i]|
      requires Sent(f0, dc0, InkRow(Brush(WIDTH, HEIGHT, cursorX, cursorY, size), ink, i, j), color)
      modifies this`frames, this`dc
      ensures Sent(f0, dc0, InkRow(Brush(WIDTH, HEIGHT, cursorX, cursorY, size), ink, i, j + 1), color)
    {
      ghost var b := Brush(WIDTH, HEIGHT, cursorX, cursorY, size);
      ghost var done := InkRow(b, ink, i, j);
      InkRowSnoc(b, ink, i, j);
      if ink.rows[i][j] {
        CellAfter(f0, dc0, done, InkRow(b, ink, i, j + 1), ink.dx + j, i, size, color);
      }
    }

    /** A cell drawn after the points already sent extends them by the cell's points. */
    method CellAfter(ghost f0: seq<Frame>, ghost dc0: bool, ghost done: seq<Pt>, ghost after: seq<Pt>,
                     dx: int, dy: int, size: Uint8, color: Rgb)
      requires after == done + Dot(WIDTH, HEIGHT, cursorX, cursorY, dx, dy, size)
      requires Sent(f0, dc0, done, color)
      modifies this`frames, this`dc
      ensures Sent(f0, dc0, after, color)
    {
      DrawCell(dx, dy, size, color);
      Extend(f0, dc0, done, Dot(WIDTH, HEIGHT, cursorX, cursorY, dx, dy, size), color);
    }

    /**
     * ssd1331_putc: without a font, or when the glyph would reach the right
     * or bottom edge, nothing is sent and 0 is returned; otherwise the glyph
     * is drawn at the cursor by the font's type and ch is returned as a char
     * (its low byte, so a drawn code point whose low byte is 0 reports 0).
     * The cursor does not move.
     */
    method Putc(ch: Uint16, font: Option<Font>, color: Rgb, size: Uint8) returns (r: int)
      requires Valid()
      requires font.Some? && !Overflows(WIDTH, HEIGHT, cursorX, cursorY, font.value, size) ==> Readable(font.value, ch)
      modifies this`frames, this`dc, scratch.glyph
      ensures Valid()
      ensures font.None? ==> r == 0 && frames == old(frames) && dc == old(dc)
      ensures font.Some? ==> r == (if Overflows(WIDTH, HEIGHT, cursorX, cursorY, font.value, size) then 0 else U8(ch))
      ensures font.Some? && Overflows(WIDTH, HEIGHT, cursorX, cursorY, font.value, size) ==> frames == old(frames) && dc == old(dc)
      ensures font.Some? && Readable(font.value, ch) ==>
                Sent(old(frames), old(dc), GlyphPts(WIDTH, HEIGHT, cursorX, cursorY, font.value, ch, size), color)
    {
      if font.None? {
        return 0;
      }
      var f := font.value;
      if WIDTH <= cursorX + size * f.width || HEIGHT <= cursorY + size * f.height {
        return 0;
      }
      match f.data {
        case AsciiData(_) =>
          DrawInk(AsciiInk(f, ch), size, color);
        case GfxData(_, _, _, _) =>
          var _ := PutcGfx(ch, f, color, size);
        case CombData(_) =>
          var _ := PutcHangul(ch, f, color, size);
      }
      r := U8(ch);
    }

    /**
     * ssd1331_putc_gfx: the glyph's own bit stream, in its own box, shifted
     * by its xOffset; returns the glyph index ch - first as a char.
     */
    method PutcGfx(ch: Uint16, font: Font, color: Rgb, size: Uint8) returns (r: int)
      requires font.data.GfxData? && Readable(font, ch)
      modifies this`frames, this`dc
      ensures r == U8(ch - font.data.gfxFirst)
      ensures Sent(old(frames), old(dc), InkPts(WIDTH, HEIGHT, cursorX, cursorY, font, ch, size), color)
    {
      var index := U16(ch - font.data.gfxFirst);
      var g := font.data.glyphs[index];
      DrawInk(GfxInk(font.data.bitmap, g), size, color);
      r := U8(index);
    }

    /** ssd1331_putc_hangul: compose the syllable into the scratch, then draw its rows of width/8 bytes; returns ch as a char. */
    method PutcHangul(ch: Uint16, font: Font, color: Rgb, size: Uint8) returns (r: int)
      requires Valid() && font.data.CombData? && Readable(font, ch)
      modifies this`frames, this`dc, scratch.glyph
      ensures Valid() && r == U8(ch)
      ensures Sent(old(frames), old(dc), InkPts(WIDTH, HEIGHT, cursorX, cursorY, font, ch, size), color)
    {
      var p := scratch.GetGlyph(ch, font);
      GlyphBytesFit(font, ch);
      DrawComposed(ch, font, p[..GlyphBytes(font)], size, color);
      r := U8(ch);
    }

    /** The loops of putc_hangul over a composed glyph: font.height rows of width/8 bytes. */
    method DrawComposed(ch: Uint16, font: Font, glyph: seq<bv8>, size: Uint8, color: Rgb)
      requires font.data.CombData? && Readable(font, ch)
      requires glyph == Compose(font.data.bitmap, GlyphBytes(font), ch - font.first)
      modifies this`frames, this`dc
      ensures Sent(old(frames), old(dc), InkPts(WIDTH, HEIGHT, cursorX, cursorY, font, ch, size), color)
    {
      HangulRowsInside(font);
      var ink := HangulInk(glyph, font.height, font.width / 8);
      assert ink == GlyphInk(font, ch);
      DrawInk(ink, size, color);
    }

    /**
     * ssd1331_puts: decodes s pass by pass; a newline returns to the column
     * where puts started, one line of the set lower, and any other code
     * point is drawn with the first font of the set covering it, after
     * which the cursor moves one cell right. Returns the terminating NUL, 0.
     */
    method Puts(s: seq<int>, fs: FontSet, color: Rgb, size: Uint8) returns (r: int)
      requires Valid() && WellFormed(s) && SetReadable(fs)
      modifies this`cursorX, this`cursorY, this`frames, this`dc, scratch.glyph
      ensures Valid() && r == 0
      ensures var run := Run(WIDTH, HEIGHT, fs, old(cursorX), size, Pen(old(cursorX), old(cursorY)), Units(s));
              Sent(old(frames), old(dc), run.0, color) && Pen(cursorX, cursorY) == run.1
    {
      ghost var us := Units(s);
      ghost var f0, dc0 := frames, dc;
      ghost var pen0 := Pen(cursorX, cursorY);
      var x0 := cursorX;
      var k := 0;
      ghost var n := 0;
      while k < |s|
        invariant 0 <= k <= |s| && 0 <= n <= |us|
        invariant WellFormed(s[k..]) && Units(s[k..]) == us[n..]
        invariant Valid()
        invariant Sent(f0, dc0, Run(WIDTH, HEIGHT, fs, x0, size, pen0, us[..n]).0, color)
        invariant Pen(cursorX, cursorY) == Run(WIDTH, HEIGHT, fs, x0, size, pen0, us[..n]).1
        decreases |s| - k
      {
        k := PutsNext(s, k, f0, dc0, pen0, us, n, fs, x0, size, color);
        n := n + 1;
      }
      assert us[..n] == us;
      r := 0;
    }

    /** One pass of the loop of puts: decode the code point at k and put it. */
    method PutsNext(s: seq<int>, k: nat, ghost f0: seq<Frame>, ghost dc0: bool, ghost pen0: Pen, ghost us: seq<Uint16>, ghost n: nat,
                    fs: FontSet, x0: Uint16, size: Uint8, color: Rgb) returns (k': nat)
      requires Valid() && SetReadable(fs) && n <= |us| && k < |s| && WellFormed(s[k..]) && Units(s[k..]) == us[n..]
      requires Sent(f0, dc0, Run(WIDTH, HEIGHT, fs, x0, size, pen0, us[..n]).0, color)
      requires Pen(cursorX, cursorY) == Run(WIDTH, HEIGHT, fs, x0, size, pen0, us[..n]).1
      modifies this`cursorX, this`cursorY, this`frames, this`dc, scratch.glyph
      ensures Valid() && k < k' <= |s| && WellFormed(s[k'..]) && n < |us| && Units(s[k'..]) == us[n + 1..]
      ensures Sent(f0, dc0, Run(WIDTH, HEIGHT, fs, x0, size, pen0, us[..n + 1]).0, color)
      ensures Pen(cursorX, cursorY) == Run(WIDTH, HEIGHT, fs, x0, size, pen0, us[..n + 1]).1
    {
      var u;
      u, k' := DecodeNext(s, k);
      assert us[n..] == [u] + Units(s[k'..]);
      assert us[n] == u && us[n + 1..] == Units(s[k'..]);
      PutsPass(f0, dc0, pen0, us, n, u, fs, x0, size, color);
    }

    /** One pass of puts over code point u = us[n]: the run over us[..n] extended to us[..n + 1]. */
    method PutsPass(ghost f0: seq<Frame>, ghost dc0: bool, ghost pen0: Pen, ghost us: seq<Uint16>, ghost n: nat, u: Uint16,
                    fs: FontSet, x0: Uint16, size: Uint8, color: Rgb)
      requires Valid() && SetReadable(fs) && n < |us| && us[n] == u
      requires Sent(f0, dc0, Run(WIDTH, HEIGHT, fs, x0, size, pen0, us[..n]).0, color)
      requires Pen(cursorX, cursorY) == Run(WIDTH, HEIGHT, fs, x0, size, pen0, us[..n]).1
      modifies this`cursorX, this`cursorY, this`frames, this`dc, scratch.glyph
      ensures Valid()
      ensures Sent(f0, dc0, Run(WIDTH, HEIGHT, fs, x0, size, pen0, us[..n + 1]).0, color)
      ensures Pen(cursorX, cursorY) == Run(WIDTH, HEIGHT, fs, x0, size, pen0, us[..n + 1]).1
    {
      ghost var before := Run(WIDTH, HEIGHT, fs, x0, size, pen0, us[..n]);
      ghost var step := UnitStep(WIDTH, HEIGHT, fs, x0, size, before.1, u);
      RunSnoc(WIDTH, HEIGHT, fs, x0, size, pen0, us, n);
      PutUnit(u, fs, x0, size, color);
      Extend(f0, dc0, before.0, step.0, color);
    }

    /** The body of the loop of puts for code point u: a newline, a glyph of the first covering font, or nothing. */
    method PutUnit(u: Uint16, fs: FontSet, x0: Uint16, size: Uint8, color: Rgb)
      requires Valid() && SetReadable(fs)
      modifies this`cursorX, this`cursorY, this`frames, this`dc, scratch.glyph
      ensures Valid()
      ensures var step := UnitStep(WIDTH, HEIGHT, fs, x0, size, Pen(old(cursorX), old(cursorY)), u);
              Sent(old(frames), old(dc), step.0, color) && Pen(cursorX, cursorY) == step.1
    {
      if u == NEWLINE {
        cursorX := x0;
        cursorY := U16(cursorY + size * fs.height);
        return;
      }
      var i := FindFont(fs.fonts, u);
      if i.Some? {
        var f := fs.fonts[i.value];
        SetFont(fs, i.value, u);
        UnitStepGlyph(WIDTH, HEIGHT, fs, x0, size, Pen(cursorX, cursorY), u, i.value);
        var _ := Putc(u, Some(f), color, size);
        cursorX := U16(cursorX + size * f.width);
      }
    }
  }

  /**
   * After init the D/C pin is left high by the last drawpixel of its fill,
   * so on, as written, sends display on as two data bytes.
   */
  method OnAfterInit() returns (last: Frame)
    ensures last == Frame([Dat(0xA4), Dat(0xAF)])
  {
    var oled := new Oled();
    var _ := oled.Init();
    oled.TurnOn();
    last := oled.frames[|oled.frames| - 1];
  }

  /** With D/C driven low first, on after init sends display on as two commands. */
  method OnAfterInitAsCommands() returns (last: Frame)
    ensures last == Frame([Cmd(0xA4), Cmd(0xAF)])
  {
    var oled := new Oled();
    var _ := oled.Init();
    oled.TurnOnAsCommands();
    last := oled.frames[|oled.frames| - 1];
  }

  /** The controller set-up stream of ssd1331_init, from display off to display on. */
  const INIT_COMMANDS: seq<int> :=
    [0xAE, 0xA0, 0xB2, 0xA1, 0x00, 0xA2, 0x00, 0xA8, 0x3F, 0xAD, 0x8E, 0xB0, 0x0B, 0xB1, 0x31,
     0xB3, 0xF0, 0x15, 0x00, 0x5F, 0x75, 0x00, 0x3F, 0x81, 0x80, 0x82, 0x80, 0x83, 0x80,
     0x87, 0x0F, 0x8A, 0x64, 0x8B, 0x78, 0x8C, 0x64, 0xBB, 0x3C, 0xBE, 0x3E, 0xB9, 0xA4, 0xAF]

  function Cmds(cs: seq<int>): (r: seq<Spi>)
    ensures |r| == |cs| && forall k :: 0 <= k < |cs| ==> r[k] == Cmd(cs[k])
  {
    seq(|cs|, k requires 0 <= k < |cs| => Cmd(cs[k]))
  }
}
