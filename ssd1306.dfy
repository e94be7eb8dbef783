// The SSD1306 driver of stm32lib/ssd1306.c: a 128x64 monochrome OLED on
// I2C, drawn into a 1024-byte frame buffer in RAM and sent to the panel
// page by page. The buffer is an array updated in place; the I2C bus is an
// appended trace of transfers.

module Ssd1306 {
  import opened Ints
  import opened Raster
  import opened Plane
  import opened Fonts
  import opened Hangul
  import opened Text

  /** SSD1306_Color_t. */
  datatype Color = Black | White

  /** ssd1306_init's result: SSD1306_RES_OK or SSD1306_RES_NOTCONNECT. */
  datatype Res = Ok | NotConnect

  /** One I2C write to the controller: a command byte (control byte 0x00) or a data block (control byte 0x40). */
  datatype Xfer = Command(cmd: int) | Data(bytes: seq<bv8>)

  /** The fixed command stream ssd1306_init sends before clearing the screen. */
  const INIT_COMMANDS: seq<int> :=
    [0xAE, 0x20, 0x10, 0xB0, 0xC8, 0x00, 0x10, 0x40, 0x81, 0xFF, 0xA1, 0xA6, 0xA8, 0x3F, 0xA4,
     0xD3, 0x00, 0xD5, 0xF0, 0xD9, 0x22, 0xDA, 0x12, 0xDB, 0x20, 0x8D, 0x14, 0xAF]

  function Commands(cs: seq<int>): (r: seq<Xfer>)
    ensures |r| == |cs| && forall k :: 0 <= k < |cs| ==> r[k] == Command(cs[k])
  {
    seq(|cs|, k requires 0 <= k < |cs| => Command(cs[k]))
  }

  /** Page m of the screen update: set page 0xB0+m, column 0, then the page's 128 bytes. */
  function PageXfers(buf: seq<bv8>, m: nat): seq<Xfer>
    requires |buf| == BYTES && m < 8
  {
    [Command(0xB0 + m), Command(0x00), Command(0x10), Data(buf[WIDTH * m .. WIDTH * m + WIDTH])]
  }

  /** The transfers of pages 0..n-1 in order. */
  function FlushXfers(buf: seq<bv8>, n: nat): (r: seq<Xfer>)
    requires |buf| == BYTES && n <= 8
    ensures |r| == 4 * n
  {
    if n == 0 then [] else FlushXfers(buf, n - 1) + PageXfers(buf, n - 1)
  }

  /** The data blocks of a trace, concatenated. */
  function Payload(xs: seq<Xfer>): seq<bv8>
  {
    if xs == [] then [] else Payload(xs[..|xs| - 1]) + (if xs[|xs| - 1].Data? then xs[|xs| - 1].bytes else [])
  }

  lemma {:induction false} PayloadAppend(xs: seq<Xfer>, ys: seq<Xfer>)
    ensures Payload(xs + ys) == Payload(xs) + Payload(ys)
    decreases |ys|
  {
    if ys == [] {
      assert xs + ys == xs;
    } else {
      var ys' := ys[..|ys| - 1];
      assert (xs + ys)[..|xs + ys| - 1] == xs + ys';
      assert (xs + ys)[|xs + ys| - 1] == ys[|ys| - 1];
      PayloadAppend(xs, ys');
    }
  }

  /**
   * The data the screen update sends for the first n pages is the first
   * n*128 bytes of the buffer: every page once, in order.
   */
  lemma {:induction false} FlushPayload(buf: seq<bv8>, n: nat)
    requires |buf| == BYTES && n <= 8
    ensures Payload(FlushXfers(buf, n)) == buf[..WIDTH * n]
  {
    if n > 0 {
      FlushPayload(buf, n - 1);
      var page := PageXfers(buf, n - 1);
      PayloadAppend(FlushXfers(buf, n - 1), page);
      PagePayload(buf, n - 1);
      assert buf[..WIDTH * n] == buf[..WIDTH * (n - 1)] + buf[WIDTH * (n - 1) .. WIDTH * n];
    }
  }

  lemma PayloadOne(x: Xfer)
    ensures Payload([x]) == if x.Data? then x.bytes else []
  {
    assert [x][..0] == [];
  }

  /** A page's data is its 128 bytes of the buffer. */
  lemma PagePayload(buf: seq<bv8>, m: nat)
    requires |buf| == BYTES && m < 8
    ensures Payload(PageXfers(buf, m)) == buf[WIDTH * m .. WIDTH * m + WIDTH]
  {
    var a, b, c, d := Command(0xB0 + m), Command(0x00), Command(0x10), Data(buf[WIDTH * m .. WIDTH * m + WIDTH]);
    PayloadOne(a);
    PayloadOne(b);
    PayloadOne(c);
    PayloadOne(d);
    PayloadAppend([a], [b]);
    PayloadAppend([a, b], [c]);
    PayloadAppend([a, b, c], [d]);
    assert [a] + [b] == [a, b] && [a, b] + [c] == [a, b, c] && [a, b, c] + [d] == PageXfers(buf, m);
  }

  /** Page m of the update starts with the command 0xB0 + m. */
  lemma {:induction false} FlushPages(buf: seq<bv8>, n: nat, m: nat)
    requires |buf| == BYTES && m < n <= 8
    ensures FlushXfers(buf, n)[4 * m] == Command(0xB0 + m)
    ensures FlushXfers(buf, n)[4 * m + 3] == Data(buf[WIDTH * m .. WIDTH * m + WIDTH])
  {
    if m < n - 1 {
      FlushPages(buf, n - 1, m);
    }
  }

  /** The frame buffer, the driver state and the bus of one SSD1306. */
  class Display {
    var buffer: array<bv8>
    var cursorX: Uint16
    var cursorY: Uint16
    var inverted: bool
    var initialized: bool
    var bus: seq<Xfer>
    /** The static glyph scratch of the Hangul compositor. */
    var scratch: GlyphScratch

    ghost predicate Valid()
      reads this, scratch
    {
      buffer.Length == BYTES && scratch.Valid() && buffer != scratch.glyph
    }

    /** The state before ssd1306_init: a zeroed buffer and struct. */
    constructor ()
      ensures Valid() && fresh(buffer) && fresh(scratch) && fresh(scratch.glyph)
      ensures buffer[..] == Filled(0) && cursorX == 0 && cursorY == 0
      ensures !inverted && !initialized && bus == []
    {
      buffer := new bv8[BYTES](_ => 0);
      cursorX, cursorY := 0, 0;
      inverted, initialized := false, false;
      bus := [];
      scratch := new GlyphScratch();
    }

    /** Whether drawpixel sets (rather than clears) a pixel drawn in color c. */
    ghost function On(c: Color): bool
      reads this
    {
      (c == White) != inverted
    }

    /**
     * ssd1306_init with the probe answer `ready`: without an answer nothing
     * is sent and NOTCONNECT is returned; otherwise the init stream, a
     * cleared screen and its update are sent and the cursor is homed.
     */
    method Init(ready: bool) returns (res: Res)
      requires Valid()
      modifies this, buffer
      ensures Valid() && scratch == old(scratch) && buffer == old(buffer)
      ensures !ready ==> res == NotConnect && buffer[..] == old(buffer[..]) && bus == old(bus)
      ensures !ready ==> cursorX == old(cursorX) && cursorY == old(cursorY) && initialized == old(initialized)
      ensures !ready ==> inverted == old(inverted)
      ensures ready ==> res == Ok && buffer[..] == Filled(0) && cursorX == 0 && cursorY == 0 && initialized
      ensures ready ==> bus == old(bus) + Commands(INIT_COMMANDS) + FlushXfers(buffer[..], 8)
      ensures ready ==> inverted == old(inverted)
    {
      if !ready {
        return NotConnect;
      }
      bus := bus + Commands(INIT_COMMANDS);
      Fill(Black);
      UpdateScreen();
      cursorX, cursorY := 0, 0;
      initialized := true;
      res := Ok;
    }

    /** ssd1306_on: charge pump enabled (0x8D, 0x14), then display on (0xAF); the buffer is not touched. */
    method TurnOn()
      modifies this`bus
      ensures bus == old(bus) + Commands([0x8D, 0x14, 0xAF])
    {
      bus := bus + [Command(0x8D)];
      bus := bus + [Command(0x14)];
      bus := bus + [Command(0xAF)];
    }

    /** ssd1306_off: charge pump disabled (0x8D, 0x10), then display off (0xAE). */
    method TurnOff()
      modifies this`bus
      ensures bus == old(bus) + Commands([0x8D, 0x10, 0xAE])
    {
      bus := bus + [Command(0x8D)];
      bus := bus + [Command(0x10)];
      bus := bus + [Command(0xAE)];
    }

    /** ssd1306_updatescreen: pages 0..7 in order, each addressed and then sent whole. */
    method UpdateScreen()
      requires Valid()
      modifies this`bus
      ensures bus == old(bus) + FlushXfers(buffer[..], 8)
    {
      var m := 0;
      while m < 8
        invariant 0 <= m <= 8
        invariant bus == old(bus) + FlushXfers(buffer[..], m)
      {
        bus := bus + [Command(0xB0 + m), Command(0x00), Command(0x10)];
        bus := bus + [Data(buffer[WIDTH * m .. WIDTH * m + WIDTH])];
        m := m + 1;
      }
    }

    /** ssd1306_invert: toggle the flag and complement every byte of the buffer. */
    method Invert()
      requires Valid()
      modifies this`inverted, buffer
      ensures inverted == !old(inverted)
      ensures buffer[..] == Complemented(old(buffer[..]))
    {
      inverted := !inverted;
      var i := 0;
      while i < BYTES
        invariant 0 <= i <= BYTES && inverted == !old(inverted)
        invariant forall k :: 0 <= k < i ==> buffer[k] == !old(buffer[k])
        invariant forall k :: i <= k < BYTES ==> buffer[k] == old(buffer[k])
      {
        buffer[i] := !buffer[i];
        i := i + 1;
      }
    }

    /** ssd1306_fill: every byte 0x00 for black and 0xFF for white, whatever the inversion flag. */
    method Fill(c: Color)
      requires Valid()
      modifies buffer
      ensures buffer[..] == Filled(if c == Black then 0x00 else 0xFF)
    {
      var v: bv8 := if c == Black then 0x00 else 0xFF;
      forall k | 0 <= k < BYTES {
        buffer[k] := v;
      }
    }

    /** ssd1306_drawpixel: set or clear one bit; a point off the panel changes nothing. */
    method DrawPixel(x: Uint16, y: Uint16, c: Color)
      requires Valid()
      modifies buffer
      ensures buffer[..] == Paint(old(buffer[..]), Pt(x, y), On(c))
    {
      if x >= WIDTH || y >= HEIGHT {
        return;
      }
      var p := Pt(x, y);
      IndexInRange(p);
      var i, m := Index(p), Bit(p);
      buffer[i] := PaintByte(buffer[i], m, (c == White) != inverted);
    }

    /** ssd1306_gotoxy. */
    method GotoXY(x: Uint16, y: Uint16)
      modifies this`cursorX, this`cursorY
      ensures cursorX == x && cursorY == y
    {
      cursorX, cursorY := x, y;
    }

    // -------------------------------------------------------------------
    // Lines
    // -------------------------------------------------------------------

    /** ssd1306_drawline: clamp, then a column, a row or the error walk. */
    method DrawLine(x0: Uint16, y0: Uint16, x1: Uint16, y1: Uint16, c: Color)
      requires Valid()
      modifies buffer
      ensures buffer[..] == PaintPts(old(buffer[..]), LinePts(WIDTH, HEIGHT, x0, y0, x1, y1), On(c))
    {
      var a0, b0, a1, b1 := x0, y0, x1, y1;
      if a0 >= WIDTH { a0 := WIDTH - 1; }
      if a1 >= WIDTH { a1 := WIDTH - 1; }
      if b0 >= HEIGHT { b0 := HEIGHT - 1; }
      if b1 >= HEIGHT { b1 := HEIGHT - 1; }
      var dx := if a0 < a1 then a1 - a0 else a0 - a1;
      var dy := if b0 < b1 then b1 - b0 else b0 - b1;
      if dx == 0 {
        var lo, hi := if b1 < b0 then b1 else b0, if b1 < b0 then b0 else b1;
        VerticalRun(a0, lo, hi, c);
        return;
      }
      if dy == 0 {
        var lo, hi := if a1 < a0 then a1 else a0, if a1 < a0 then a0 else a1;
        HorizontalRun(lo, hi, b0, c);
        return;
      }
      StartKeeps(a0, b0, a1, b1);
      ErrorWalk(StartWalker(a0, b0, a1, b1), a0, b0, c);
    }

    /** The vertical branch: pixels (x, lo) .. (x, hi) top to bottom. */
    method VerticalRun(x: Uint16, lo: Uint16, hi: Uint16, c: Color)
      requires Valid() && lo <= hi
      modifies buffer
      ensures buffer[..] == PaintPts(old(buffer[..]), Column(x, lo, hi), On(c))
    {
      var i := lo;
      while i <= hi
        invariant lo <= i <= hi + 1
        invariant buffer[..] == PaintUpTo(old(buffer[..]), Column(x, lo, hi), i - lo, On(c))
      {
        DrawPixel(x, i, c);
        i := i + 1;
      }
    }

    /** The horizontal branch: pixels (lo, y) .. (hi, y) left to right. */
    method HorizontalRun(lo: Uint16, hi: Uint16, y: Uint16, c: Color)
      requires Valid() && lo <= hi
      modifies buffer
      ensures buffer[..] == PaintPts(old(buffer[..]), Row(lo, hi, y), On(c))
    {
      var i := lo;
      while i <= hi
        invariant lo <= i <= hi + 1
        invariant buffer[..] == PaintUpTo(old(buffer[..]), Row(lo, hi, y), i - lo, On(c))
      {
        DrawPixel(i, y, c);
        i := i + 1;
      }
    }

    /** The diagonal branch: draw, stop at the target, else step by the error term. */
    method ErrorWalk(s: Walker, x: Uint16, y: Uint16, c: Color)
      requires Valid() && WalkInv(s, Cursor(x, y, s.e0)) && IsU16(s.x1) && IsU16(s.y1)
      requires Toward(x, s.x1, s.sx) == s.dx && Toward(y, s.y1, s.sy) == s.dy
      modifies buffer
      ensures buffer[..] == PaintPts(old(buffer[..]), Walk(s, Cursor(x, y, s.e0)), On(c))
    {
      var cur := Cursor(x, y, s.e0);
      ghost var done: seq<Pt> := [];
      while true
        invariant WalkInv(s, cur)
        invariant done + Walk(s, cur) == Walk(s, Cursor(x, y, s.e0))
        invariant buffer[..] == PaintPts(old(buffer[..]), done, On(c))
        decreases Remaining(s, cur)
      {
        WalkBetween(s, cur, x, y);
        DrawPixel(cur.x, cur.y, c);
        if cur.x == s.x1 && cur.y == s.y1 {
          assert Walk(s, cur) == [Pt(cur.x, cur.y)];
          assert done + [Pt(cur.x, cur.y)] == Walk(s, Cursor(x, y, s.e0));
          PaintPtsSnoc(old(buffer[..]), done, Pt(cur.x, cur.y), On(c));
          return;
        }
        StepKeeps(s, cur);
        var next := Step(s, cur);
        assert Walk(s, cur) == [Pt(cur.x, cur.y)] + Walk(s, next);
        PaintPtsSnoc(old(buffer[..]), done, Pt(cur.x, cur.y), On(c));
        done := done + [Pt(cur.x, cur.y)];
        cur := next;
      }
    }
  
    // -------------------------------------------------------------------
    // Rectangles and triangles
    // -------------------------------------------------------------------

    /** ssd1306_drawrectangle: origin check, width and height cut at the edge, then four lines. */
    method DrawRectangle(x: Uint16, y: Uint16, w: Uint16, h: Uint16, c: Color)
      requires Valid()
      modifies buffer
      ensures buffer[..] == PaintPts(old(buffer[..]), RectPts(WIDTH, HEIGHT, x, y, w, h), On(c))
    {
      if x >= WIDTH || y >= HEIGHT {
        return;
      }
      var ew, eh := w, h;
      if x + ew >= WIDTH { ew := WIDTH - x; }
      if y + eh >= HEIGHT { eh := HEIGHT - y; }
      assert ew == Extent(x, w, WIDTH) && eh == Extent(y, h, HEIGHT);
      DrawSides(x, y, x + ew, y + eh, c);
    }

    /** The four drawline calls of drawrectangle: top, bottom, left, right. */
    method DrawSides(x: Uint16, y: Uint16, x1: Uint16, y1: Uint16, c: Color)
      requires Valid()
      modifies buffer
      ensures buffer[..] == PaintPts(old(buffer[..]), Sides(WIDTH, HEIGHT, x, y, x1, y1), On(c))
    {
      ghost var b0 := buffer[..];
      ghost var top, bottom := LinePts(WIDTH, HEIGHT, x, y, x1, y), LinePts(WIDTH, HEIGHT, x, y1, x1, y1);
      ghost var left, right := LinePts(WIDTH, HEIGHT, x, y, x, y1), LinePts(WIDTH, HEIGHT, x1, y, x1, y1);
      DrawLine(x, y, x1, y, c);
      DrawLine(x, y1, x1, y1, c);
      PaintPtsAppend(b0, top, bottom, On(c));
      DrawLine(x, y, x, y1, c);
      PaintPtsAppend(b0, top + bottom, left, On(c));
      DrawLine(x1, y, x1, y1, c);
      PaintPtsAppend(b0, top + bottom + left, right, On(c));
    }

    /** ssd1306_fillrectangle: origin check, cut at the edge, then one line per row 0..h. */
    method FillRectangle(x: Uint16, y: Uint16, w: Uint16, h: Uint16, c: Color)
      requires Valid()
      modifies buffer
      ensures buffer[..] == PaintPts(old(buffer[..]), FillRectPts(WIDTH, HEIGHT, x, y, w, h), On(c))
    {
      if x >= WIDTH || y >= HEIGHT {
        return;
      }
      var ew, eh := w, h;
      if x + ew >= WIDTH { ew := WIDTH - x; }
      if y + eh >= HEIGHT { eh := HEIGHT - y; }
      assert ew == Extent(x, w, WIDTH) && eh == Extent(y, h, HEIGHT);
      FillLines(x, y, ew, eh, c);
    }

    /** The loop of fillrectangle: rows y .. y + eh, each a line from x to x + ew. */
    method FillLines(x: Uint16, y: Uint16, ew: Uint16, eh: Uint16, c: Color)
      requires Valid() && x + ew < U16_LIMIT && y + eh < U16_LIMIT
      modifies buffer
      ensures buffer[..] == PaintPts(old(buffer[..]), FillRows(WIDTH, HEIGHT, x, y, ew, eh + 1), On(c))
    {
      ghost var b0 := buffer[..];
      var i := 0;
      while i <= eh
        invariant 0 <= i <= eh + 1
        invariant buffer[..] == PaintPts(b0, FillRows(WIDTH, HEIGHT, x, y, ew, i), On(c))
      {
        FillRow(b0, x, y, ew, i, c);
        i := i + 1;
      }
    }

    /** One pass of fillrectangle's loop: the line of row y + i appended to the rows before it. */
    method FillRow(ghost b0: seq<bv8>, x: Uint16, y: Uint16, ew: Uint16, i: nat, c: Color)
      requires Valid() && |b0| == BYTES && x + ew < U16_LIMIT && y + i < U16_LIMIT
      requires buffer[..] == PaintPts(b0, FillRows(WIDTH, HEIGHT, x, y, ew, i), On(c))
      modifies buffer
      ensures buffer[..] == PaintPts(b0, FillRows(WIDTH, HEIGHT, x, y, ew, i + 1), On(c))
    {
      DrawLine(x, y + i, x + ew, y + i, c);
      PaintPtsAppend(b0, FillRows(WIDTH, HEIGHT, x, y, ew, i), LinePts(WIDTH, HEIGHT, x, y + i, x + ew, y + i), On(c));
      FillRowsSnoc(WIDTH, HEIGHT, x, y, ew, i);
    }

    /** ssd1306_drawtriangle: the three sides 1-2, 2-3, 3-1. */
    method DrawTriangle(x1: Uint16, y1: Uint16, x2: Uint16, y2: Uint16, x3: Uint16, y3: Uint16, c: Color)
      requires Valid()
      modifies buffer
      ensures buffer[..] == PaintPts(old(buffer[..]), TrianglePts(WIDTH, HEIGHT, x1, y1, x2, y2, x3, y3), On(c))
    {
      ghost var b0 := buffer[..];
      ghost var s1, s2 := LinePts(WIDTH, HEIGHT, x1, y1, x2, y2), LinePts(WIDTH, HEIGHT, x2, y2, x3, y3);
      DrawLine(x1, y1, x2, y2, c);
      DrawLine(x2, y2, x3, y3, c);
      PaintPtsAppend(b0, s1, s2, On(c));
      DrawLine(x3, y3, x1, y1, c);
      PaintPtsAppend(b0, s1 + s2, LinePts(WIDTH, HEIGHT, x3, y3, x1, y1), On(c));
    }

    /**
     * ssd1306_filltriangle: a DDA walk from corner 1 to corner 2 with one
     * line to corner 3 from every point of the walk. The int16 position is
     * handed to drawline as a uint16; the numerator stays in int16 range
     * for sides 1-2 shorter than 16384 in both directions.
     */
    method FillTriangle(x1: Uint16, y1: Uint16, x2: Uint16, y2: Uint16, x3: Uint16, y3: Uint16, c: Color)
      requires Valid() && Abs(x2 - x1) < 16384 && Abs(y2 - y1) < 16384
      modifies buffer
      ensures buffer[..] == PaintPts(old(buffer[..]), FillTrianglePts(WIDTH, HEIGHT, x1, y1, x2, y2, x3, y3), On(c))
    {
      var deltax, deltay := Abs(x2 - x1), Abs(y2 - y1);
      var x, y := x1 as int, y1 as int;
      var xinc1, xinc2 := if x2 >= x1 then 1 else -1, if x2 >= x1 then 1 else -1;
      var yinc1, yinc2 := if y2 >= y1 then 1 else -1, if y2 >= y1 then 1 else -1;
      var den, num, numadd, numpixels;
      if deltax >= deltay {
        xinc1, yinc2 := 0, 0;
        den, num, numadd, numpixels := deltax, deltax / 2, deltay, deltax;
      } else {
        xinc2, yinc1 := 0, 0;
        den, num, numadd, numpixels := deltay, deltay / 2, deltax, deltay;
      }
      var d := Dda(xinc1, yinc1, xinc2, yinc2, den, numadd);
      assert (d, num, numpixels) == DdaSetup(x1, y1, x2, y2);
      FanSweep(d, x1, y1, num, numpixels, x3, y3, c);
    }

    /** The loop of filltriangle: numpixels + 1 passes, one chord to corner 3 per pass. */
    method FanSweep(d: Dda, x1: Uint16, y1: Uint16, num0: int, numpixels: nat, x3: Uint16, y3: Uint16, c: Color)
      requires Valid() && 0 <= num0 && (num0 < d.den || num0 == 0) && 0 <= d.numadd <= d.den < 16384
      modifies buffer
      ensures buffer[..] == PaintPts(old(buffer[..]), Fan(WIDTH, HEIGHT, ChordStarts(d, x1, y1, num0, numpixels + 1), x3, y3), On(c))
    {
      var x, y, num := x1 as int, y1 as int, num0;
      ghost var all := ChordStarts(d, x1, y1, num0, numpixels + 1);
      ghost var b0 := buffer[..];
      var curpixel := 0;
      while curpixel <= numpixels
        invariant 0 <= curpixel <= numpixels + 1
        invariant 0 <= num && (num < d.den || num == 0)
        invariant ChordStarts(d, x, y, num, numpixels + 1 - curpixel) == all[curpixel..]
        invariant buffer[..] == PaintPts(b0, Fan(WIDTH, HEIGHT, all[..curpixel], x3, y3), On(c))
      {
        ChordSlice(d, x, y, num, numpixels + 1 - curpixel, all, curpixel);
        FanLine(b0, all[..curpixel], x, y, x3, y3, c);
        x, y, num := DdaPass(d, x, y, num, all, curpixel, numpixels);
        curpixel := curpixel + 1;
      }
      assert all[..curpixel] == all;
    }

    /** The cursor update at the end of one pass of filltriangle's loop. */
    static method DdaPass(d: Dda, x: int, y: int, num: int, ghost all: seq<Pt>, ghost curpixel: nat, ghost numpixels: nat)
      returns (x': int, y': int, num': int)
      requires curpixel <= numpixels && |all| == numpixels + 1
      requires 0 <= num && (num < d.den || num == 0) && 0 <= d.numadd <= d.den < 16384
      requires ChordStarts(d, x, y, num, numpixels + 1 - curpixel) == all[curpixel..]
      ensures 0 <= num' && (num' < d.den || num' == 0)
      ensures ChordStarts(d, x', y', num', numpixels + 1 - (curpixel + 1)) == all[curpixel + 1..]
    {
      assert IsI16(num + d.numadd);
      x', y', num' := x, y, num + d.numadd;
      if num' >= d.den {
        num' := num' - d.den;
        x', y' := x' + d.xinc1, y' + d.yinc1;
      }
      x', y' := x' + d.xinc2, y' + d.yinc2;
      ChordSliceNext(d, x, y, num, x', y', num', numpixels + 1 - curpixel, numpixels + 1 - (curpixel + 1), all, curpixel);
    }

    /** One pass of filltriangle's loop: the chord from (x, y) to corner 3. */
    method FanLine(ghost b0: seq<bv8>, ghost done: seq<Pt>, x: int, y: int, x3: Uint16, y3: Uint16, c: Color)
      requires Valid() && |b0| == BYTES
      requires buffer[..] == PaintPts(b0, Fan(WIDTH, HEIGHT, done, x3, y3), On(c))
      modifies buffer
      ensures buffer[..] == PaintPts(b0, Fan(WIDTH, HEIGHT, done + [Pt(x, y)], x3, y3), On(c))
    {
      DrawLine(U16(x), U16(y), x3, y3, c);
      PaintPtsAppend(b0, Fan(WIDTH, HEIGHT, done, x3, y3), LinePts(WIDTH, HEIGHT, U16(x), U16(y), x3, y3), On(c));
      FanSnoc(WIDTH, HEIGHT, done, Pt(x, y), x3, y3);
    }

    // -------------------------------------------------------------------
    // Circles
    // -------------------------------------------------------------------

    /** The eight drawpixel calls of one pass of drawcircle. */
    method PlotOctants(x0: int, y0: int, x: int, y: int, c: Color)
      requires Valid()
      modifies buffer
      ensures buffer[..] == PaintPts(old(buffer[..]), Octants(x0, y0, x, y), On(c))
    {
      ghost var b0 := buffer[..];
      PlotReflections(x0, y0, x, y, c);
      PlotReflections(x0, y0, y, x, c);
      PaintPtsAppend(b0, Reflections(x0, y0, x, y), Reflections(x0, y0, y, x), On(c));
      OctantsHalves(x0, y0, x, y);
    }

    /** Four of those calls: (a, b) reflected through both axes. */
    method PlotReflections(x0: int, y0: int, a: int, b: int, c: Color)
      requires Valid()
      modifies buffer
      ensures buffer[..] == PaintPts(old(buffer[..]), Reflections(x0, y0, a, b), On(c))
    {
      ghost var b0 := buffer[..];
      ghost var done: seq<Pt> := [];
      DrawPixel(U16(x0 + a), U16(y0 + b), c);
      PaintPtsSnoc(b0, done, P16(x0 + a, y0 + b), On(c));
      done := done + [P16(x0 + a, y0 + b)];
      DrawPixel(U16(x0 - a), U16(y0 + b), c);
      PaintPtsSnoc(b0, done, P16(x0 - a, y0 + b), On(c));
      done := done + [P16(x0 - a, y0 + b)];
      DrawPixel(U16(x0 + a), U16(y0 - b), c);
      PaintPtsSnoc(b0, done, P16(x0 + a, y0 - b), On(c));
      done := done + [P16(x0 + a, y0 - b)];
      DrawPixel(U16(x0 - a), U16(y0 - b), c);
      PaintPtsSnoc(b0, done, P16(x0 - a, y0 - b), On(c));
      done := done + [P16(x0 - a, y0 - b)];
      assert done == Reflections(x0, y0, a, b);
    }

    /** One pass of drawcircle's loop: the reflections of (x, y) appended to those before. */
    method CirclePass(ghost b0: seq<bv8>, ghost done: seq<Pt>, x0: int, y0: int, x: int, y: int, c: Color)
      requires Valid() && |b0| == BYTES
      requires buffer[..] == PaintPts(b0, StrokeOf(x0, y0, done), On(c))
      modifies buffer
      ensures buffer[..] == PaintPts(b0, StrokeOf(x0, y0, done + [Pt(x, y)]), On(c))
    {
      PlotOctants(x0, y0, x, y, c);
      PaintPtsAppend(b0, StrokeOf(x0, y0, done), Octants(x0, y0, x, y), On(c));
      StrokeSnoc(x0, y0, done, Pt(x, y));
    }

    /** ssd1306_drawcircle: the midpoint loop, eight reflections per pass. */
    method DrawCircle(x0: int, y0: int, r: int, c: Color)
      requires Valid() && IsI16(x0) && IsI16(y0) && RadiusFits(r)
      modifies buffer
      ensures buffer[..] == PaintPts(old(buffer[..]), CirclePts(x0, y0, r), On(c))
    {
      var f, ddx, ddy, x, y := 1 - r, 1, -2 * r, 0, r;
      MidStartInv(r);
      ghost var b0 := buffer[..];
      ghost var done: seq<Pt> := [];
      while x <= y
        invariant MidInv(r, Mid(x, y, f, ddx, ddy))
        invariant done + MidSteps(r, Mid(x, y, f, ddx, ddy)) == MidSteps(r, MidStart(r))
        invariant buffer[..] == PaintPts(b0, StrokeOf(x0, y0, done), On(c))
        decreases if x <= y then y - x + 1 else 0
      {
        ghost var m := Mid(x, y, f, ddx, ddy);
        MidKeeps(r, m);
        MidAdvance(r, done, m);
        CirclePass(b0, done, x0, y0, x, y, c);
        if f >= 0 {
          y := y - 1;
          ddy := ddy + 2;
          f := f + ddy;
        }
        x := x + 1;
        ddx := ddx + 2;
        f := f + ddx;
        assert Mid(x, y, f, ddx, ddy) == MidNext(m);
        done := done + [Pt(m.x, m.y)];
      }
      assert MidSteps(r, Mid(x, y, f, ddx, ddy)) == [];
      assert done == MidSteps(r, MidStart(r));
    }

    /** The four drawline calls of one pass of fillcircle. */
    method ChordLines(x0: int, y0: int, x: int, y: int, c: Color)
      requires Valid()
      modifies buffer
      ensures buffer[..] == PaintPts(old(buffer[..]), Chords(WIDTH, HEIGHT, x0, y0, x, y), On(c))
    {
      ghost var b0 := buffer[..];
      ghost var l1 := LinePts(WIDTH, HEIGHT, U16(x0 - x), U16(y0 + y), U16(x0 + x), U16(y0 + y));
      ghost var l2 := LinePts(WIDTH, HEIGHT, U16(x0 + x), U16(y0 - y), U16(x0 - x), U16(y0 - y));
      ghost var l3 := LinePts(WIDTH, HEIGHT, U16(x0 + y), U16(y0 + x), U16(x0 - y), U16(y0 + x));
      ghost var l4 := LinePts(WIDTH, HEIGHT, U16(x0 + y), U16(y0 - x), U16(x0 - y), U16(y0 - x));
      DrawLine(U16(x0 - x), U16(y0 + y), U16(x0 + x), U16(y0 + y), c);
      DrawLine(U16(x0 + x), U16(y0 - y), U16(x0 - x), U16(y0 - y), c);
      PaintPtsAppend(b0, l1, l2, On(c));
      DrawLine(U16(x0 + y), U16(y0 + x), U16(x0 - y), U16(y0 + x), c);
      PaintPtsAppend(b0, l1 + l2, l3, On(c));
      DrawLine(U16(x0 + y), U16(y0 - x), U16(x0 - y), U16(y0 - x), c);
      PaintPtsAppend(b0, l1 + l2 + l3, l4, On(c));
    }

    /** One pass of fillcircle's loop: the chords of (x, y) appended to those before. */
    method DiscPass(ghost b0: seq<bv8>, ghost done: seq<Pt>, x0: int, y0: int, x: int, y: int, c: Color)
      requires Valid() && |b0| == BYTES
      requires buffer[..] == PaintPts(b0, ChordsOf(WIDTH, HEIGHT, x0, y0, done), On(c))
      modifies buffer
      ensures buffer[..] == PaintPts(b0, ChordsOf(WIDTH, HEIGHT, x0, y0, done + [Pt(x, y)]), On(c))
    {
      ChordLines(x0, y0, x, y, c);
      PaintPtsAppend(b0, ChordsOf(WIDTH, HEIGHT, x0, y0, done), Chords(WIDTH, HEIGHT, x0, y0, x, y), On(c));
      ChordsSnoc(WIDTH, HEIGHT, x0, y0, done, Pt(x, y));
    }

    /** ssd1306_fillcircle: the midpoint loop, four horizontal chords per pass. */
    method FillCircle(x0: int, y0: int, r: int, c: Color)
      requires Valid() && IsI16(x0) && IsI16(y0) && RadiusFits(r)
      modifies buffer
      ensures buffer[..] == PaintPts(old(buffer[..]), DiscPts(WIDTH, HEIGHT, x0, y0, r), On(c))
    {
      var f, ddx, ddy, x, y := 1 - r, 1, -2 * r, 0, r;
      MidStartInv(r);
      ghost var b0 := buffer[..];
      ghost var done: seq<Pt> := [];
      while x <= y
        invariant MidInv(r, Mid(x, y, f, ddx, ddy))
        invariant done + MidSteps(r, Mid(x, y, f, ddx, ddy)) == MidSteps(r, MidStart(r))
        invariant buffer[..] == PaintPts(b0, ChordsOf(WIDTH, HEIGHT, x0, y0, done), On(c))
        decreases if x <= y then y - x + 1 else 0
      {
        ghost var m := Mid(x, y, f, ddx, ddy);
        MidKeeps(r, m);
        MidAdvance(r, done, m);
        DiscPass(b0, done, x0, y0, x, y, c);
        if f >= 0 {
          y := y - 1;
          ddy := ddy + 2;
          f := f + ddy;
        }
        x := x + 1;
        ddx := ddx + 2;
        f := f + ddx;
        assert Mid(x, y, f, ddx, ddy) == MidNext(m);
        done := done + [Pt(m.x, m.y)];
      }
      assert MidSteps(r, Mid(x, y, f, ddx, ddy)) == [];
      assert done == MidSteps(r, MidStart(r));
    }

    // -------------------------------------------------------------------
    // Text
    // -------------------------------------------------------------------

    /** One ink bit of putc: a drawpixel at size 1, else a size x size fillrectangle. */
    method DrawCell(dx: int, dy: int, size: Uint8, c: Color)
      requires Valid()
      modifies buffer
      ensures buffer[..] == PaintPts(old(buffer[..]), Dot(WIDTH, HEIGHT, cursorX, cursorY, dx, dy, size), On(c))
    {
      ghost var b0 := buffer[..];
      ghost var pts := Dot(WIDTH, HEIGHT, cursorX, cursorY, dx, dy, size);
      if size == 1 {
        assert pts == [P16(cursorX + dx, cursorY + dy)];
        DrawPoint(U16(cursorX + dx), U16(cursorY + dy), c);
      } else {
        assert pts == FillRectPts(WIDTH, HEIGHT, U16(cursorX + dx * size), U16(cursorY + dy * size), size, size);
        FillRectangle(U16(cursorX + dx * size), U16(cursorY + dy * size), size, size, c);
      }
      assert buffer[..] == PaintPts(b0, pts, On(c));
    }

    /** drawpixel seen as drawing a one-point list. */
    method DrawPoint(x: Uint16, y: Uint16, c: Color)
      requires Valid()
      modifies buffer
      ensures buffer[..] == PaintPts(old(buffer[..]), [Pt(x, y)], On(c))
    {
      DrawPixel(x, y, c);
      PaintPtsSnoc(old(buffer[..]), [], Pt(x, y), On(c));
      assert [] + [Pt(x, y)] == [Pt(x, y)];
    }

    /**
     * The two nested loops of putc over a glyph's ink, rows top to bottom
     * and columns left to right, one cell per set bit.
     */
    method DrawInk(ink: Ink, size: Uint8, c: Color)
      requires Valid()
      modifies buffer
      ensures buffer[..] == PaintPts(old(buffer[..]), InkRows(Brush(WIDTH, HEIGHT, cursorX, cursorY, size), ink, |ink.rows|), On(c))
    {
      for i := 0 to |ink.rows|
        invariant buffer[..] == PaintPts(old(buffer[..]), InkRows(Brush(WIDTH, HEIGHT, cursorX, cursorY, size), ink, i), On(c))
      {
        InkRowPass(old(buffer[..]), ink, i, size, c);
      }
    }

    /** One pass of the outer loop of putc: row i appended to the rows before it. */
    method InkRowPass(ghost b0: seq<bv8>, ink: Ink, i: nat, size: Uint8, c: Color)
      requires Valid() && |b0| == BYTES && i < |ink.rows|
      requires buffer[..] == PaintPts(b0, InkRows(Brush(WIDTH, HEIGHT, cursorX, cursorY, size), ink, i), On(c))
      modifies buffer
      ensures buffer[..] == PaintPts(b0, InkRows(Brush(WIDTH, HEIGHT, cursorX, cursorY, size), ink, i + 1), On(c))
    {
      ghost var b := Brush(WIDTH, HEIGHT, cursorX, cursorY, size);
      DrawInkRow(ink, i, size, c);
      PaintPtsAppend(b0, InkRows(b, ink, i), InkRow(b, ink, i, |ink.rows[i]|), On(c));
    }

    /** The inner loop of putc: the set bits of row i, left to right. */
    method DrawInkRow(ink: Ink, i: nat, size: Uint8, c: Color)
      requires Valid() && i < |ink.rows|
      modifies buffer
      ensures buffer[..] == PaintPts(old(buffer[..]), InkRow(Brush(WIDTH, HEIGHT, cursorX, cursorY, size), ink, i, |ink.rows[i]|), On(c))
    {
      for j := 0 to |ink.rows[i]|
        invariant buffer[..] == PaintPts(old(buffer[..]), InkRow(Brush(WIDTH, HEIGHT, cursorX, cursorY, size), ink, i, j), On(c))
      {
        InkCellPass(old(buffer[..]), ink, i, j, size, c);
      }
    }

    /** One pass of the inner loop of putc: the cell of column j when its bit is set. */
    method InkCellPass(ghost b0: seq<bv8>, ink: Ink, i: nat, j: nat, size: Uint8, c: Color)
      requires Valid() && |b0| == BYTES && i < |ink.rows| && j < |ink.rows[i]|
      requires buffer[..] == PaintPts(b0, InkRow(Brush(WIDTH, HEIGHT, cursorX, cursorY, size), ink, i, j), On(c))
      modifies buffer
      ensures buffer[..] == PaintPts(b0, InkRow(Brush(WIDTH, HEIGHT, cursorX, cursorY, size), ink, i, j + 1), On(c))
    {
      ghost var b := Brush(WIDTH, HEIGHT, cursorX, cursorY, size);
      InkRowSnoc(b, ink, i, j);
      if ink.rows[i][j] {
        CellAfter(b0, InkRow(b, ink, i, j), InkRow(b, ink, i, j + 1), ink.dx + j, i, size, c);
      }
    }

    /** A cell drawn after the points already painted extends them by the cell's points. */
    method CellAfter(ghost b0: seq<bv8>, ghost done: seq<Pt>, ghost after: seq<Pt>, dx: int, dy: int, size: Uint8, c: Color)
      requires Valid() && |b0| == BYTES && buffer[..] == PaintPts(b0, done, On(c))
      requires after == done + Dot(WIDTH, HEIGHT, cursorX, cursorY, dx, dy, size)
      modifies buffer
      ensures buffer[..] == PaintPts(b0, after, On(c))
    {
      DrawCell(dx, dy, size, c);
      PaintPtsAppend(b0, done, Dot(WIDTH, HEIGHT, cursorX, cursorY, dx, dy, size), On(c));
    }

    /**
     * ssd1306_putc: without a font, or when the glyph would reach the right
     * or bottom edge, nothing is drawn and 0 is returned; otherwise the
     * glyph is drawn at the cursor by the font's type and 1 is returned.
     * The cursor does not move.
     */
    method Putc(ch: Uint16, font: Option<Font>, c: Color, size: Uint8) returns (r: int)
      requires Valid()
      requires font.Some? && !Overflows(WIDTH, HEIGHT, cursorX, cursorY, font.value, size) ==> Readable(font.value, ch)
      modifies buffer, scratch.glyph
      ensures Valid()
      ensures font.None? ==> r == 0 && buffer[..] == old(buffer[..])
      ensures font.Some? ==> r == (if Overflows(WIDTH, HEIGHT, cursorX, cursorY, font.value, size) then 0 else 1)
      ensures font.Some? && Overflows(WIDTH, HEIGHT, cursorX, cursorY, font.value, size) ==> buffer[..] == old(buffer[..])
      ensures font.Some? && Readable(font.value, ch) ==>
                buffer[..] == PaintPts(old(buffer[..]), GlyphPts(WIDTH, HEIGHT, cursorX, cursorY, font.value, ch, size), On(c))
    {
      if font.None? {
        return 0;
      }
      var f := font.value;
      if WIDTH <= cursorX + size * f.width || HEIGHT <= cursorY + size * f.height {
        return 0;
      }
      match f.data {
        case AsciiData(_) =>
          DrawInk(AsciiInk(f, ch), size, c);
        case GfxData(_, _, _, _) =>
          var _ := PutcGfx(ch, f, c, size);
        case CombData(_) =>
          var _ := PutcHangul(ch, f, c, size);
      }
      r := 1;
    }

    /** ssd1306_putc_gfx: the glyph's own bit stream, in its own box, shifted by its xOffset. */
    method PutcGfx(ch: Uint16, font: Font, c: Color, size: Uint8) returns (r: int)
      requires Valid() && font.data.GfxData? && Readable(font, ch)
      modifies buffer
      ensures r == 1
      ensures buffer[..] == PaintPts(old(buffer[..]), InkPts(WIDTH, HEIGHT, cursorX, cursorY, font, ch, size), On(c))
    {
      var g := font.data.glyphs[ch - font.data.gfxFirst];
      DrawInk(GfxInk(font.data.bitmap, g), size, c);
      r := 1;
    }

    /** ssd1306_putc_hangul: compose the syllable into the scratch, then draw its rows of width/8 bytes. */
    method PutcHangul(ch: Uint16, font: Font, c: Color, size: Uint8) returns (r: int)
      requires Valid() && font.data.CombData? && Readable(font, ch)
      modifies buffer, scratch.glyph
      ensures Valid() && r == 1
      ensures buffer[..] == PaintPts(old(buffer[..]), InkPts(WIDTH, HEIGHT, cursorX, cursorY, font, ch, size), On(c))
    {
      ghost var b0 := buffer[..];
      var p := scratch.GetGlyph(ch, font);
      assert buffer[..] == b0;
      GlyphBytesFit(font, ch);
      DrawComposed(ch, font, p[..GlyphBytes(font)], size, c);
      r := 1;
    }

    /** The loops of putc_hangul over a composed glyph: font.height rows of width/8 bytes. */
    method DrawComposed(ch: Uint16, font: Font, glyph: seq<bv8>, size: Uint8, c: Color)
      requires Valid() && font.data.CombData? && Readable(font, ch)
      requires glyph == Compose(font.data.bitmap, GlyphBytes(font), ch - font.first)
      modifies buffer
      ensures buffer[..] == PaintPts(old(buffer[..]), InkPts(WIDTH, HEIGHT, cursorX, cursorY, font, ch, size), On(c))
    {
      HangulRowsInside(font);
      var ink := HangulInk(glyph, font.height, font.width / 8);
      assert ink == GlyphInk(font, ch);
      DrawInk(ink, size, c);
    }

    /**
     * ssd1306_puts: decodes s pass by pass; a newline returns to the column
     * where puts started, one line of the set lower, and any other code
     * point is drawn with the first font of the set covering it, after
     * which the cursor moves one cell right. Returns the number of code
     * points in a char.
     */
    method Puts(s: seq<int>, fs: FontSet, c: Color, size: Uint8) returns (count: int)
      requires Valid() && WellFormed(s) && SetReadable(fs)
      modifies this`cursorX, this`cursorY, buffer, scratch.glyph
      ensures Valid() && count == U8(|Units(s)|)
      ensures var run := Run(WIDTH, HEIGHT, fs, old(cursorX), size, Pen(old(cursorX), old(cursorY)), Units(s));
              buffer[..] == PaintPts(old(buffer[..]), run.0, On(c)) && Pen(cursorX, cursorY) == run.1
    {
      ghost var us := Units(s);
      ghost var b0 := buffer[..];
      ghost var pen0 := Pen(cursorX, cursorY);
      var x0 := cursorX;
      count := 0;
      var k := 0;
      ghost var n := 0;
      while k < |s|
        invariant 0 <= k <= |s| && 0 <= n <= |us|
        invariant WellFormed(s[k..]) && Units(s[k..]) == us[n..]
        invariant Valid() && count == U8(n)
        invariant buffer[..] == PaintPts(b0, Run(WIDTH, HEIGHT, fs, x0, size, pen0, us[..n]).0, On(c))
        invariant Pen(cursorX, cursorY) == Run(WIDTH, HEIGHT, fs, x0, size, pen0, us[..n]).1
        decreases |s| - k
      {
        var u;
        u, k := DecodeNext(s, k);
        U8Succ(n);
        count := U8(count + 1);
        PutsPass(b0, pen0, us, n, u, fs, x0, size, c);
        n := n + 1;
      }
      assert us[..n] == us;
    }

    /** One pass of puts over code point u = us[n]: the run over us[..n] extended to us[..n + 1]. */
    method PutsPass(ghost b0: seq<bv8>, ghost pen0: Pen, ghost us: seq<Uint16>, ghost n: nat, u: Uint16,
                    fs: FontSet, x0: Uint16, size: Uint8, c: Color)
      requires Valid() && |b0| == BYTES && SetReadable(fs) && n < |us| && us[n] == u
      requires buffer[..] == PaintPts(b0, Run(WIDTH, HEIGHT, fs, x0, size, pen0, us[..n]).0, On(c))
      requires Pen(cursorX, cursorY) == Run(WIDTH, HEIGHT, fs, x0, size, pen0, us[..n]).1
      modifies this`cursorX, this`cursorY, buffer, scratch.glyph
      ensures Valid()
      ensures buffer[..] == PaintPts(b0, Run(WIDTH, HEIGHT, fs, x0, size, pen0, us[..n + 1]).0, On(c))
      ensures Pen(cursorX, cursorY) == Run(WIDTH, HEIGHT, fs, x0, size, pen0, us[..n + 1]).1
    {
      ghost var before := Run(WIDTH, HEIGHT, fs, x0, size, pen0, us[..n]);
      ghost var step := UnitStep(WIDTH, HEIGHT, fs, x0, size, before.1, u);
      RunSnoc(WIDTH, HEIGHT, fs, x0, size, pen0, us, n);
      PutUnit(u, fs, x0, size, c);
      PaintPtsAppend(b0, before.0, step.0, On(c));
    }

    /** The body of the loop of puts for code point u: a newline, a glyph of the first covering font, or nothing. */
    method PutUnit(u: Uint16, fs: FontSet, x0: Uint16, size: Uint8, c: Color)
      requires Valid() && SetReadable(fs)
      modifies this`cursorX, this`cursorY, buffer, scratch.glyph
      ensures Valid()
      ensures var step := UnitStep(WIDTH, HEIGHT, fs, x0, size, Pen(old(cursorX), old(cursorY)), u);
              buffer[..] == PaintPts(old(buffer[..]), step.0, On(c)) && Pen(cursorX, cursorY) == step.1
    {
      if u == NEWLINE {
        cursorX := x0;
        cursorY := U16(cursorY + size * fs.height);
        return;
      }
      var i := FindFont(fs.fonts, u);
      if i.Some? {
        var f := fs.fonts[i.value];
        SetFont(fs, i.value, u);
        UnitStepGlyph(WIDTH, HEIGHT, fs, x0, size, Pen(cursorX, cursorY), u, i.value);
        var _ := Putc(u, Some(f), c, size);
        cursorX := U16(cursorX + size * f.width);
      }
    }
  }
}
