// Text rendering shared by both display drivers (stm32lib/ssd1306.c and
// stm32lib/ssd1331.c run the same putc/puts code on different panels).
// A glyph is first read out of its font as a matrix of ink bits; every set
// bit becomes one drawpixel call (size 1) or one fillrectangle call (larger
// sizes), in row-major order. puts decodes the 3-byte UTF-8 form and lays
// the decoded code points out with a pen that moves across the panel.

module Text {
  import opened Ints
  import opened Raster
  import opened Fonts
  import opened Hangul

  // ---------------------------------------------------------------------
  // Reading glyph bits
  // ---------------------------------------------------------------------

  /** A glyph as rows of ink bits; column j of a row is drawn at column offset dx + j. */
  datatype Ink = Ink(dx: int, rows: seq<seq<bool>>)

  /** Bit j, counted from the most significant end, of a byte: (b << j) & 0x80 on an 8-bit value. */
  function MsbBit(b: bv8, j: nat): bool
    requires j < 8
  {
    (b << j) & 0x80 != 0
  }

  /** Bit j of a 16-bit ASCII font row held in a 32-bit variable: (b << j) & 0x8000. */
  function AsciiBit(word: bv16, j: nat): bool
    requires j < 32
  {
    ((word as bv32) << j) & 0x8000 != 0
  }

  /** Column j of a byte is its bit 7 - j. */
  lemma MsbBitMeaning(b: bv8, j: nat)
    requires j < 8
    ensures MsbBit(b, j) == ((b >> (7 - j)) & 1 == 1)
  {
  }

  /** The row words of glyph ch of an ASCII font lie inside its table. */
  lemma AsciiRowInside(f: Font, ch: int, i: nat)
    requires Readable(f, ch) && f.data.AsciiData? && i < f.height
    ensures 0 <= (ch - f.first) * f.height + i < |f.data.words|
  {
    MulPred(ch - f.first + 1, f.height);
  }

  /** putc's ASCII branch: row i, column j is bit j of row word i of the glyph. */
  function AsciiInk(f: Font, ch: int): (r: Ink)
    requires Readable(f, ch) && f.data.AsciiData?
    ensures r.dx == 0 && |r.rows| == f.height
    ensures forall i :: 0 <= i < f.height ==> |r.rows[i]| == f.width
  {
    Ink(0, seq(f.height, i requires 0 <= i < f.height =>
      AsciiRowInside(f, ch, i);
      var word := f.data.words[(ch - f.first) * f.height + i];
      seq(f.width, j requires 0 <= j < f.width => AsciiBit(word, j))))
  }

  /** Bit k of a GFX glyph's bits lies in the bitmap. */
  lemma GfxBitInside(g: Glyph, bitmap: seq<bv8>, k: nat)
    requires GlyphFits(g, bitmap) && k < g.width * g.height
    ensures g.offset + k / 8 < |bitmap|
  {
  }

  /** The cell of row yy, column xx of a GFX glyph is bit yy*w + xx of its bit stream. */
  lemma GfxCellInside(g: Glyph, yy: nat, xx: nat)
    requires yy < g.height && xx < g.width
    ensures yy * g.width + xx < g.width * g.height
  {
    MulAtLeast(g.height - yy, g.width);
    assert (g.height - yy) * g.width == g.width * g.height - yy * g.width;
  }

  /** Bit k of a GFX glyph: the stream runs on across rows, eight bits per byte, MSB first. */
  function GfxBit(bitmap: seq<bv8>, g: Glyph, k: nat): bool
    requires GlyphFits(g, bitmap) && k < g.width * g.height
  {
    GfxBitInside(g, bitmap, k);
    MsbBit(bitmap[g.offset + k / 8], k % 8)
  }

  /** putc_gfx: the glyph's own box, shifted by its signed xOffset. */
  function GfxInk(bitmap: seq<bv8>, g: Glyph): (r: Ink)
    requires GlyphFits(g, bitmap)
    ensures r.dx == g.xOffset && |r.rows| == g.height
    ensures forall i :: 0 <= i < g.height ==> |r.rows[i]| == g.width
  {
    Ink(g.xOffset, seq(g.height, yy requires 0 <= yy < g.height =>
      seq(g.width, xx requires 0 <= xx < g.width =>
        GfxCellInside(g, yy, xx);
        GfxBit(bitmap, g, yy * g.width + xx))))
  }

  /** Byte w of row i of a composed Hangul glyph lies inside the glyph. */
  lemma HangulByteInside(height: nat, wb: nat, i: nat, w: nat)
    requires i < height && w < wb
    ensures i * wb + w < height * wb
  {
    MulAtLeast(height - i, wb);
    assert (height - i) * wb == height * wb - i * wb;
  }

  /** putc_hangul: wb bytes per row, eight columns per byte, MSB first. */
  function HangulInk(glyph: seq<bv8>, height: nat, wb: nat): (r: Ink)
    requires height * wb <= |glyph|
    ensures r.dx == 0 && |r.rows| == height
    ensures forall i :: 0 <= i < height ==> |r.rows[i]| == wb * 8
  {
    Ink(0, seq(height, i requires 0 <= i < height =>
      seq(wb * 8, c requires 0 <= c < wb * 8 =>
        HangulByteInside(height, wb, i, c / 8);
        MsbBit(glyph[i * wb + c / 8], c % 8))))
  }

  /** The rows of a Hangul glyph fill at most the glyphbyte bytes that were composed. */
  lemma HangulRowsInside(f: Font)
    requires Header(f)
    ensures f.height * (f.width / 8) <= (f.height * f.width) / 8
  {
    var wb := f.width / 8;
    assert 8 * wb <= f.width;
    MulMono(8 * wb, f.width, f.height);
    assert f.height * wb * 8 == (8 * wb) * f.height;
  }

  /** The ink of code point ch in font f, by the font's type tag. */
  function GlyphInk(f: Font, ch: int): (r: Ink)
    requires Readable(f, ch)
  {
    match f.data
    case AsciiData(_) => AsciiInk(f, ch)
    case GfxData(bitmap, glyphs, gfxFirst, _) => GfxInk(bitmap, glyphs[ch - gfxFirst])
    case CombData(bitmap) =>
      HangulRowsInside(f);
      HangulInk(Compose(bitmap, GlyphBytes(f), ch - f.first), f.height, f.width / 8)
  }

  // ---------------------------------------------------------------------
  // From ink to drawing calls
  // ---------------------------------------------------------------------

  /**
   * The pixels one ink bit at column offset dx, row dy turns into: a single
   * drawpixel at size 1, otherwise a fillrectangle of side `size` at the
   * scaled position (all coordinates are uint16 parameters).
   */
  function Dot(w: int, h: int, cx: int, cy: int, dx: int, dy: int, size: nat): seq<Pt>
    requires GoodPanel(w, h)
  {
    if size == 1 then [P16(cx + dx, cy + dy)]
    else FillRectPts(w, h, U16(cx + dx * size), U16(cy + dy * size), size, size)
  }

  /** Where putc paints its cells: the panel, the cursor (cx, cy) and the scale. */
  datatype Brush = Brush(w: int, h: int, cx: int, cy: int, size: nat)

  /** The Dot the brush paints for the ink bit at (dx, dy). */
  function Cell(b: Brush, dx: int, dy: int): seq<Pt>
    requires GoodPanel(b.w, b.h)
  {
    Dot(b.w, b.h, b.cx, b.cy, dx, dy, b.size)
  }

  /** The first n columns of row i, left to right, each set bit painted by the brush. */
  function InkRow(b: Brush, ink: Ink, i: nat, n: nat): seq<Pt>
    requires GoodPanel(b.w, b.h) && i < |ink.rows| && n <= |ink.rows[i]|
  {
    if n == 0 then []
    else if ink.rows[i][n - 1] then InkRow(b, ink, i, n - 1) + Cell(b, ink.dx + n - 1, i)
    else InkRow(b, ink, i, n - 1)
  }

  /** Column j extends the row by its cell when its bit is set, and not at all otherwise. */
  lemma InkRowSnoc(b: Brush, ink: Ink, i: nat, j: nat)
    requires GoodPanel(b.w, b.h) && i < |ink.rows| && j < |ink.rows[i]|
    ensures InkRow(b, ink, i, j + 1) ==
              if ink.rows[i][j] then InkRow(b, ink, i, j) + Cell(b, ink.dx + j, i) else InkRow(b, ink, i, j)
  {
    assert ink.dx + (j + 1) - 1 == ink.dx + j;
  }

  /** The first m rows, top to bottom. */
  function InkRows(b: Brush, ink: Ink, m: nat): seq<Pt>
    requires GoodPanel(b.w, b.h) && m <= |ink.rows|
  {
    if m == 0 then []
    else InkRows(b, ink, m - 1) + InkRow(b, ink, m - 1, |ink.rows[m - 1]|)
  }

  /** The glyph does not fit: putc's space check. */
  predicate Overflows(w: int, h: int, cx: int, cy: int, f: Font, size: nat)
  {
    w <= cx + size * f.width || h <= cy + size * f.height
  }

  /** The cells of every set bit of the glyph of ch, row by row, with the cursor at (cx, cy). */
  function InkPts(w: int, h: int, cx: int, cy: int, f: Font, ch: int, size: nat): seq<Pt>
    requires GoodPanel(w, h) && Readable(f, ch)
  {
    var ink := GlyphInk(f, ch);
    InkRows(Brush(w, h, cx, cy, size), ink, |ink.rows|)
  }

  /** Everything putc(ch, f, size) draws with the cursor at (cx, cy): all of the glyph or nothing. */
  function GlyphPts(w: int, h: int, cx: int, cy: int, f: Font, ch: int, size: nat): seq<Pt>
    requires GoodPanel(w, h) && Readable(f, ch)
  {
    if Overflows(w, h, cx, cy, f, size) then [] else InkPts(w, h, cx, cy, f, ch, size)
  }

  /** Column j of row i is set and p is one of the points painted for it. */
  predicate DrawnFor(b: Brush, ink: Ink, i: nat, j: nat, p: Pt)
    requires GoodPanel(b.w, b.h) && i < |ink.rows| && j < |ink.rows[i]|
  {
    ink.rows[i][j] && p in Cell(b, ink.dx + j, i)
  }

  /** The points of the first n columns of row i are the cells of their set bits (both directions). */
  lemma {:induction false} InkRowMember(b: Brush, ink: Ink, i: nat, n: nat, p: Pt)
    requires GoodPanel(b.w, b.h) && i < |ink.rows| && n <= |ink.rows[i]|
    ensures p in InkRow(b, ink, i, n) <==> exists j :: 0 <= j < n && DrawnFor(b, ink, i, j, p)
  {
    if n > 0 {
      InkRowMember(b, ink, i, n - 1, p);
      if ink.rows[i][n - 1] {
        assert p in Cell(b, ink.dx + n - 1, i) <==> DrawnFor(b, ink, i, n - 1, p);
      }
    }
  }

  /**
   * The points of the first m rows are exactly the cells of their set ink
   * bits: nothing is drawn for a clear bit and no set bit is skipped.
   */
  lemma {:induction false} InkRowsMember(b: Brush, ink: Ink, m: nat, p: Pt)
    requires GoodPanel(b.w, b.h) && m <= |ink.rows|
    ensures p in InkRows(b, ink, m) <==>
              exists i, j :: 0 <= i < m && 0 <= j < |ink.rows[i]| && DrawnFor(b, ink, i, j, p)
  {
    if m > 0 {
      InkRowsMember(b, ink, m - 1, p);
      InkRowMember(b, ink, m - 1, |ink.rows[m - 1]|, p);
      var row := InkRow(b, ink, m - 1, |ink.rows[m - 1]|);
      assert InkRows(b, ink, m) == InkRows(b, ink, m - 1) + row;
      if p in row {
        var j :| 0 <= j < |ink.rows[m - 1]| && DrawnFor(b, ink, m - 1, j, p);
      }
      if exists i, j :: 0 <= i < m && 0 <= j < |ink.rows[i]| && DrawnFor(b, ink, i, j, p) {
        var i, j :| 0 <= i < m && 0 <= j < |ink.rows[i]| && DrawnFor(b, ink, i, j, p);
        if i == m - 1 {
          assert p in row;
        }
      }
    }
  }

  /** The scaled cell j of a row of cols cells ends inside the row. */
  lemma CellEdge(j: nat, cols: nat, size: nat)
    requires j < cols
    ensures j * size + size <= size * cols
  {
    MulMono(j + 1, cols, size);
    assert (j + 1) * size == j * size + size;
  }

  /** One Dot of an unshifted glyph that fits stays inside the glyph's cell. */
  lemma DotInCell(w: int, h: int, cx: nat, cy: nat, j: nat, i: nat, size: nat, cols: nat, rows: nat, p: Pt)
    requires GoodPanel(w, h) && w <= U16_LIMIT && h <= U16_LIMIT
    requires j < cols && i < rows && cx + size * cols < w && cy + size * rows < h
    requires p in Cell(Brush(w, h, cx, cy, size), j, i)
    ensures cx <= p.x <= cx + size * cols && cy <= p.y <= cy + size * rows
  {
    assert p in Dot(w, h, cx, cy, j, i, size);
    CellEdge(j, cols, size);
    CellEdge(i, rows, size);
    DotBox(w, h, cx, cy, j, i, size, j * size, i * size, p);
  }

  /** A Dot lies in the size x size box at its scaled cell corner (cx + a, cy + b). */
  lemma DotBox(w: int, h: int, cx: nat, cy: nat, j: nat, i: nat, size: nat, a: nat, b: nat, p: Pt)
    requires GoodPanel(w, h) && w <= U16_LIMIT && h <= U16_LIMIT
    requires a == j * size && b == i * size && cx + a < w && cy + b < h
    requires p in Dot(w, h, cx, cy, j, i, size)
    ensures cx + a <= p.x <= cx + a + size && cy + b <= p.y <= cy + b + size
  {
    if size == 1 {
      assert a == j && b == i;
    } else {
      FillInBox(w, h, cx + a, cy + b, size, p);
    }
  }

  /** A fillrectangle of side s from an on-panel corner stays within s of the corner. */
  lemma FillInBox(w: int, h: int, x: nat, y: nat, s: nat, p: Pt)
    requires GoodPanel(w, h) && p in FillRectPts(w, h, x, y, s, s)
    ensures x <= p.x <= x + s && y <= p.y <= y + s
  {
    FillRectExact(w, h, x, y, s, s, p);
  }

  /**
   * A glyph whose ink is unshifted and no larger than cols x rows, drawn
   * where cols x rows cells fit, lands inside the box from the cursor to
   * (cx + size*cols, cy + size*rows), which lies on the panel.
   */
  lemma InkInCell(w: int, h: int, cx: nat, cy: nat, ink: Ink, size: nat, cols: nat, rows: nat, p: Pt)
    requires GoodPanel(w, h) && w <= U16_LIMIT && h <= U16_LIMIT
    requires ink.dx == 0 && |ink.rows| <= rows && forall i :: 0 <= i < |ink.rows| ==> |ink.rows[i]| <= cols
    requires cx + size * cols < w && cy + size * rows < h
    requires p in InkRows(Brush(w, h, cx, cy, size), ink, |ink.rows|)
    ensures cx <= p.x <= cx + size * cols && cy <= p.y <= cy + size * rows
    ensures InPanel(w, h, p)
  {
    var b := Brush(w, h, cx, cy, size);
    InkRowsMember(b, ink, |ink.rows|, p);
    var i, j :| 0 <= i < |ink.rows| && 0 <= j < |ink.rows[i]| && DrawnFor(b, ink, i, j, p);
    DotInCell(w, h, cx, cy, j, i, size, cols, rows, p);
  }

  /**
   * putc draws all of an ASCII or Hangul glyph or nothing: nothing when the
   * cell overflows the panel, and otherwise only pixels of the panel inside
   * the cell from the cursor to (cx + size*width, cy + size*height).
   */
  lemma GlyphPlacement(w: int, h: int, cx: nat, cy: nat, f: Font, ch: int, size: nat, p: Pt)
    requires GoodPanel(w, h) && w <= U16_LIMIT && h <= U16_LIMIT && Readable(f, ch) && !f.data.GfxData?
    ensures Overflows(w, h, cx, cy, f, size) ==> GlyphPts(w, h, cx, cy, f, ch, size) == []
    ensures p in GlyphPts(w, h, cx, cy, f, ch, size) ==>
              InPanel(w, h, p) && cx <= p.x <= cx + size * f.width && cy <= p.y <= cy + size * f.height
  {
    if !Overflows(w, h, cx, cy, f, size) && p in GlyphPts(w, h, cx, cy, f, ch, size) {
      var ink := GlyphInk(f, ch);
      if f.data.CombData? {
        assert 8 * (f.width / 8) <= f.width;
      }
      InkInCell(w, h, cx, cy, ink, size, f.width, f.height, p);
    }
  }

  // ---------------------------------------------------------------------
  // puts: decoding
  // ---------------------------------------------------------------------

  /**
   * The byte strings puts walks without reading past the terminator: every
   * byte is 1..255 and a byte above 0x7F is followed by two more.
   */
  predicate WellFormed(s: seq<int>)
    decreases |s|
  {
    s == [] ||
    (0 < s[0] < U8_LIMIT &&
     if s[0] <= 0x7F then WellFormed(s[1..])
     else |s| >= 3 && 0 < s[1] < U8_LIMIT && 0 < s[2] < U8_LIMIT && WellFormed(s[3..]))
  }

  /** The three-byte form: ((c & 0x0F) << 12) | ((c2 & 0x3F) << 6) | (c3 & 0x3F). */
  function Utf16(c: int, c2: int, c3: int): (u: int)
    requires IsU8(c) && IsU8(c2) && IsU8(c3)
    ensures IsU16(u)
  {
    (c % 16) * 4096 + (c2 % 64) * 64 + c3 % 64
  }

  /** The code points puts decodes from s, one per loop pass. */
  function Units(s: seq<int>): (r: seq<Uint16>)
    requires WellFormed(s)
    decreases |s|
  {
    if s == [] then []
    else if s[0] <= 0x7F then [s[0]] + Units(s[1..])
    else [Utf16(s[0], s[1], s[2])] + Units(s[3..])
  }

  /** The code points puts can be given: one-byte ones (but NUL) and the three-byte range. */
  predicate Encodable(u: int) { 0 < u <= 0x7F || 0x800 <= u <= 0xFFFF }

  /** The UTF-8 form of u, as RFC 3629 section 3 lays out one- and three-byte sequences. */
  function Encode(u: int): (r: seq<int>)
    requires Encodable(u)
  {
    if u <= 0x7F then [u]
    else [0xE0 + u / 4096, 0x80 + (u / 64) % 64, 0x80 + u % 64]
  }

  function EncodeAll(us: seq<Uint16>): seq<int>
    requires forall k :: 0 <= k < |us| ==> Encodable(us[k])
  {
    if us == [] then [] else Encode(us[0]) + EncodeAll(us[1..])
  }

  /** The three bytes of a code point from U+0800 on: a lead byte and two continuation bytes that decode to it. */
  lemma EncodeThree(u: int)
    requires 0x800 <= u <= 0xFFFF
    ensures var e := Encode(u);
            |e| == 3 && 0x80 <= e[0] < U8_LIMIT && 0 < e[1] < U8_LIMIT && 0 < e[2] < U8_LIMIT &&
            Utf16(e[0], e[1], e[2]) == u
  {
    var a, b, c := u / 4096, (u / 64) % 64, u % 64;
    assert u == a * 4096 + b * 64 + c;
    assert (0xE0 + a) % 16 == a;
    assert (0x80 + b) % 64 == b;
    assert (0x80 + c) % 64 == c;
  }

  /** puts decodes the UTF-8 encoding of any string of encodable code points back to it. */
  lemma {:induction false} DecodeEncoded(us: seq<Uint16>)
    requires forall k :: 0 <= k < |us| ==> Encodable(us[k])
    ensures WellFormed(EncodeAll(us)) && Units(EncodeAll(us)) == us
  {
    if us != [] {
      DecodeEncoded(us[1..]);
      var e, rest := Encode(us[0]), EncodeAll(us[1..]);
      var s := e + rest;
      assert EncodeAll(us) == s;
      if us[0] <= 0x7F {
        assert s[1..] == rest;
      } else {
        EncodeThree(us[0]);
        assert s[3..] == rest;
      }
      assert us == [us[0]] + us[1..];
    }
  }

  /**
   * puts has no two-byte form: the Latin-1 letter U+00E9 written as C3 A9
   * swallows the next byte and decodes as one unrelated code point. One
   * example that pins this quirk of the decoder, not a general property.
   */
  lemma TwoByteFormNotDecoded()
    ensures WellFormed([0xC3, 0xA9, 0x41])
    ensures Units([0xC3, 0xA9, 0x41]) == [0x3A41]
  {
    assert [0xC3, 0xA9, 0x41][3..] == [];
  }

  /**
   * One pass of the decoding in puts at byte k: a byte up to 0x7F is the
   * code point, a higher one takes the next two bytes with it.
   */
  method DecodeNext(s: seq<int>, k: nat) returns (u: Uint16, k': nat)
    requires k < |s| && WellFormed(s[k..])
    ensures k < k' <= |s| && WellFormed(s[k'..])
    ensures Units(s[k..]) == [u] + Units(s[k'..])
  {
    var c := s[k];
    if c <= 0x7F {
      u, k' := c, k + 1;
      assert s[k..][1..] == s[k'..];
    } else {
      u, k' := Utf16(c, s[k + 1], s[k + 2]), k + 3;
      assert s[k..][3..] == s[k'..];
    }
  }

  // ---------------------------------------------------------------------
  // puts: layout
  // ---------------------------------------------------------------------

  /** Font f covers code point u: first <= u <= last. */
  predicate Covers(f: Font, u: int) { f.first <= u <= f.last }

  /** The font search of puts from list index i on: the first font that covers u. */
  function PickFrom(fonts: seq<Font>, u: int, i: nat): (r: Option<nat>)
    requires i <= |fonts|
    ensures r.Some? ==> i <= r.value < |fonts| && Covers(fonts[r.value], u) &&
                        forall k :: i <= k < r.value ==> !Covers(fonts[k], u)
    ensures r.None? ==> forall k :: i <= k < |fonts| ==> !Covers(fonts[k], u)
    decreases |fonts| - i
  {
    if i == |fonts| then None
    else if Covers(fonts[i], u) then Some(i)
    else PickFrom(fonts, u, i + 1)
  }

  /** The font search of puts: fontlist[0], fontlist[1], ... until one covers u. */
  method FindFont(fonts: seq<Font>, u: int) returns (r: Option<nat>)
    ensures r == PickFrom(fonts, u, 0)
  {
    var i := 0;
    while i < |fonts|
      invariant 0 <= i <= |fonts|
      invariant PickFrom(fonts, u, i) == PickFrom(fonts, u, 0)
    {
      if u >= fonts[i].first && u <= fonts[i].last {
        return Some(i);
      }
      i := i + 1;
    }
    return None;
  }

  /**
   * The font puts picks for a code point of a readable set can draw that
   * code point, which is what putc relies on when it indexes the glyph.
   */
  lemma PickedFontReadable(fs: FontSet, u: Uint16)
    requires SetReadable(fs)
    ensures PickFrom(fs.fonts, u, 0).Some? ==> Readable(fs.fonts[PickFrom(fs.fonts, u, 0).value], u)
  {
    if PickFrom(fs.fonts, u, 0).Some? {
      SetFont(fs, PickFrom(fs.fonts, u, 0).value, u);
    }
  }

  /** The text cursor (cursor_x, cursor_y). */
  datatype Pen = Pen(x: Uint16, y: Uint16)

  const NEWLINE: int := 10

  /**
   * One pass of puts over code point u: a newline returns to column x0 and
   * moves down a line; a covered code point is drawn with the first font
   * that covers it and the cursor moves one cell right, drawn or not; any
   * other code point is skipped.
   */
  function UnitStep(w: int, h: int, fs: FontSet, x0: Uint16, size: nat, pen: Pen, u: Uint16): (r: (seq<Pt>, Pen))
    requires GoodPanel(w, h) && SetReadable(fs)
  {
    if u == NEWLINE then ([], Pen(x0, U16(pen.y + size * fs.height)))
    else
      match PickFrom(fs.fonts, u, 0)
      case None => ([], pen)
      case Some(i) =>
        SetFont(fs, i, u);
        (GlyphPts(w, h, pen.x, pen.y, fs.fonts[i], u, size), Pen(U16(pen.x + size * fs.fonts[i].width), pen.y))
  }

  /** The step of a code point some font of the set covers: that glyph at the pen, then one cell right. */
  lemma UnitStepGlyph(w: int, h: int, fs: FontSet, x0: Uint16, size: nat, pen: Pen, u: Uint16, i: nat)
    requires GoodPanel(w, h) && SetReadable(fs) && u != NEWLINE && PickFrom(fs.fonts, u, 0) == Some(i)
    ensures Readable(fs.fonts[i], u)
    ensures UnitStep(w, h, fs, x0, size, pen, u) ==
              (GlyphPts(w, h, pen.x, pen.y, fs.fonts[i], u, size), Pen(U16(pen.x + size * fs.fonts[i].width), pen.y))
  {
    SetFont(fs, i, u);
  }

  /** Steps a pen along us, collecting what each step draws. */
  function Fold(step: (Pen, Uint16) -> (seq<Pt>, Pen), pen: Pen, us: seq<Uint16>): (r: (seq<Pt>, Pen))
  {
    if us == [] then ([], pen)
    else
      var a := Fold(step, pen, us[..|us| - 1]);
      var c := step(a.1, us[|us| - 1]);
      (a.0 + c.0, c.1)
  }

  /** Folding over us then vs is folding over us + vs: the pen carries over and the drawings concatenate. */
  lemma {:induction false} FoldAppend(step: (Pen, Uint16) -> (seq<Pt>, Pen), pen: Pen, us: seq<Uint16>, vs: seq<Uint16>)
    ensures Fold(step, pen, us + vs) ==
              (Fold(step, pen, us).0 + Fold(step, Fold(step, pen, us).1, vs).0, Fold(step, Fold(step, pen, us).1, vs).1)
    decreases |vs|
  {
    var a := Fold(step, pen, us);
    if vs == [] {
      assert us + vs == us;
      assert a.0 + [] == a.0;
    } else {
      var vs', v := vs[..|vs| - 1], vs[|vs| - 1];
      var uv := us + vs;
      assert uv[..|uv| - 1] == us + vs';
      assert uv[|uv| - 1] == v;
      FoldAppend(step, pen, us, vs');
      var b := Fold(step, a.1, vs');
      var c := step(b.1, v);
      assert (a.0 + b.0) + c.0 == a.0 + (b.0 + c.0);
    }
  }

  /** The step of puts for one page layout. */
  function PutsStep(w: int, h: int, fs: FontSet, x0: Uint16, size: nat): (Pen, Uint16) -> (seq<Pt>, Pen)
    requires GoodPanel(w, h) && SetReadable(fs)
  {
    (pen: Pen, u: Uint16) => UnitStep(w, h, fs, x0, size, pen, u)
  }

  /** Everything puts draws for the code points us, and where the cursor ends. */
  function Run(w: int, h: int, fs: FontSet, x0: Uint16, size: nat, pen: Pen, us: seq<Uint16>): (r: (seq<Pt>, Pen))
    requires GoodPanel(w, h) && SetReadable(fs)
  {
    Fold(PutsStep(w, h, fs, x0, size), pen, us)
  }

  /** One more code point: its step runs from where the run so far left the pen. */
  lemma RunSnoc(w: int, h: int, fs: FontSet, x0: Uint16, size: nat, pen: Pen, us: seq<Uint16>, n: nat)
    requires GoodPanel(w, h) && SetReadable(fs) && n < |us|
    ensures var a := Run(w, h, fs, x0, size, pen, us[..n]);
            var c := UnitStep(w, h, fs, x0, size, a.1, us[n]);
            Run(w, h, fs, x0, size, pen, us[..n + 1]) == (a.0 + c.0, c.1)
  {
    assert us[..n + 1][..n] == us[..n];
  }

  /** The cell widths the cursor moves over for us: size * width of each covering font. */
  function Advance(fs: FontSet, size: nat, us: seq<Uint16>): nat
  {
    if us == [] then 0
    else
      Advance(fs, size, us[..|us| - 1]) +
      (if us[|us| - 1] != NEWLINE && PickFrom(fs.fonts, us[|us| - 1], 0).Some?
       then size * fs.fonts[PickFrom(fs.fonts, us[|us| - 1], 0).value].width else 0)
  }

  lemma U16Add(a: int, b: int)
    ensures U16(U16(a) + b) == U16(a + b)
  {
  }

  /**
   * On a line without newlines the cursor stays on its row and moves right
   * by size * width for every covered code point, whether or not it fit,
   * modulo the 16-bit cursor.
   */
  lemma {:induction false} LineAdvance(w: int, h: int, fs: FontSet, x0: Uint16, size: nat, pen: Pen, us: seq<Uint16>)
    requires GoodPanel(w, h) && SetReadable(fs)
    requires forall k :: 0 <= k < |us| ==> us[k] != NEWLINE
    ensures Run(w, h, fs, x0, size, pen, us).1 == Pen(U16(pen.x + Advance(fs, size, us)), pen.y)
  {
    if us != [] {
      LineAdvance(w, h, fs, x0, size, pen, us[..|us| - 1]);
      U16Add(pen.x + Advance(fs, size, us[..|us| - 1]), 0);
      var mid := Run(w, h, fs, x0, size, pen, us[..|us| - 1]).1;
      var u := us[|us| - 1];
      if PickFrom(fs.fonts, u, 0).Some? {
        U16Add(pen.x + Advance(fs, size, us[..|us| - 1]), size * fs.fonts[PickFrom(fs.fonts, u, 0).value].width);
      }
    }
  }

  /** After a newline the cursor is back at the column where puts started. */
  lemma NewlineReturns(w: int, h: int, fs: FontSet, x0: Uint16, size: nat, pen: Pen, us: seq<Uint16>)
    requires GoodPanel(w, h) && SetReadable(fs)
    requires us != [] && us[|us| - 1] == NEWLINE
    ensures Run(w, h, fs, x0, size, pen, us).1.x == x0
    ensures Run(w, h, fs, x0, size, pen, us).1.y ==
              U16(Run(w, h, fs, x0, size, pen, us[..|us| - 1]).1.y + size * fs.height)
  {
  }
}
