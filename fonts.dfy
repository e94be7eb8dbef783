// The tagged font model of stm32lib/font.h: a font is an ASCII bitmap
// font (one 16-bit word per glyph row), an Adafruit-GFX style proportional
// font, or a combining Hangul font whose glyphs are composed from parts.
// The glyph tables themselves are arbitrary data here; the predicates
// below say which reads of them a call makes and that they stay in bounds.

module Fonts {
  import opened Ints

  /** One GFX glyph: where its bits start and its box. */
  datatype Glyph = Glyph(offset: nat, width: nat, height: nat, xAdvance: nat, xOffset: int, yOffset: int)

  /** The union member selected by the font's type tag. */
  datatype FontData =
    | AsciiData(words: seq<bv16>)
    | GfxData(bitmap: seq<bv8>, glyphs: seq<Glyph>, gfxFirst: nat, gfxLast: nat)
    | CombData(bitmap: seq<bv8>)

  /** Font_t: cell size, the code range [first, last] and the tagged data. */
  datatype Font = Font(width: nat, height: nat, first: nat, last: nat, data: FontData)

  /** FontSet_t: line metrics and the list of fonts before the first null entry. */
  datatype FontSet = FontSet(width: nat, height: nat, fonts: seq<Font>)

  /** The number of composed Hangul syllables, U+AC00..U+D7A3. */
  const SYLLABLES: int := 11172

  /** The number of glyphs a combining font holds: 8x20 initials, 4x22 medials, 4x28 finals. */
  const COMB_GLYPHS: int := 360

  /** `glyphbyte`: the bytes of one Hangul glyph, stored in a char. */
  function GlyphBytes(f: Font): (r: int)
    ensures IsU8(r)
  {
    U8((f.height * f.width) / 8)
  }

  /** The header fields fit their C types. */
  predicate Header(f: Font)
  {
    IsU8(f.width) && IsU8(f.height) && IsU16(f.first) && IsU16(f.last)
  }

  /** The GFX glyph has byte-sized fields and its bits lie inside the bitmap. */
  predicate GlyphFits(g: Glyph, bitmap: seq<bv8>)
  {
    && IsU8(g.width) && IsU8(g.height) && -0x80 <= g.xOffset < 0x80
    && g.offset + (g.width * g.height + 7) / 8 <= |bitmap|
  }

  /** Drawing code point ch with font f reads only defined table entries. */
  predicate Readable(f: Font, ch: int)
  {
    && Header(f) && IsU16(ch)
    && match f.data
       case AsciiData(words) =>
         f.width <= 32 && f.first <= ch && (ch - f.first + 1) * f.height <= |words|
       case GfxData(bitmap, glyphs, gfxFirst, _) =>
         gfxFirst <= ch && ch - gfxFirst < |glyphs| && GlyphFits(glyphs[ch - gfxFirst], bitmap)
       case CombData(bitmap) =>
         f.first <= ch && ch - f.first < SYLLABLES
         && (f.height * f.width) / 8 <= 32 && COMB_GLYPHS * GlyphBytes(f) <= |bitmap|
  }

  /** A combining font's glyph fits the 32-byte scratch it is composed in. */
  lemma GlyphBytesFit(f: Font, ch: int)
    requires Readable(f, ch) && f.data.CombData?
    ensures GlyphBytes(f) == (f.height * f.width) / 8 <= 32
  {
  }

  /** Every font of the set can draw every code point of its range; at most five fonts. */
  predicate SetReadable(fs: FontSet)
  {
    && IsU16(fs.height) && |fs.fonts| <= 5
    && forall i, ch :: 0 <= i < |fs.fonts| && fs.fonts[i].first <= ch <= fs.fonts[i].last && IsU16(ch)
         ==> Readable(fs.fonts[i], ch)
  }

  /** A font of a readable set can draw every 16-bit code point of its range. */
  lemma SetFont(fs: FontSet, i: nat, ch: int)
    requires SetReadable(fs) && i < |fs.fonts| && fs.fonts[i].first <= ch <= fs.fonts[i].last && IsU16(ch)
    ensures Readable(fs.fonts[i], ch)
  {
  }
}
