// The combining Hangul glyph compositor and the UTF-8 to Latin-1 filter
// of stm32lib/hangulfont.c.
//
// A syllable's offset o from the font's first code point splits into an
// initial, a medial and a final jamo index as in section 3.12 of The
// Unicode Standard (Hangul Syllable Decomposition): o = (i*21 + m)*28 + f.
// The font stores eight variant groups of initials, four of medials and
// four of finals; the variant chosen for each part depends on the other
// parts, and the glyph is the OR of the three part bitmaps.

module Hangul {
  import opened Ints
  import opened Fonts

  /** Initial-consonant group for a syllable without a final, by medial. */
  const CHO: seq<int> := [0, 0, 0, 0, 0, 0, 0, 0, 0, 1, 3, 3, 3, 1, 2, 4, 4, 4, 2, 1, 3, 0]
  /** Initial-consonant group for a syllable with a final, by medial. */
  const CHO2: seq<int> := [0, 5, 5, 5, 5, 5, 5, 5, 5, 6, 7, 7, 7, 6, 6, 7, 7, 7, 6, 6, 7, 5]
  /** Final-consonant group, by medial. */
  const JONG: seq<int> := [0, 0, 2, 0, 2, 1, 2, 1, 2, 3, 0, 2, 1, 3, 3, 1, 2, 1, 3, 3, 1, 1]

  /** The jamo indices after the increments: initial and medial count from 1, final 0 means none. */
  datatype Jamo = Jamo(first: int, mid: int, last: int)

  /** The decomposition get_hangul_glyph performs on o = ch - font->first. */
  function Split(o: nat): Jamo
  {
    Jamo(o / 28 / 21 + 1, o / 28 % 21 + 1, o % 28)
  }

  /** The composition formula of the standard, on the incremented indices. */
  function Join(j: Jamo): int
  {
    ((j.first - 1) * 21 + (j.mid - 1)) * 28 + j.last
  }

  /**
   * Splitting gives back o through the composition formula; the medial is
   * in 1..21 and the final in 0..27, and for a syllable offset the
   * initial is in 1..19, so every table lookup by medial stays inside the
   * 22-entry tables.
   */
  lemma SplitJoin(o: nat)
    ensures Join(Split(o)) == o
    ensures 1 <= Split(o).mid <= 21 && 0 <= Split(o).last < 28 && 1 <= Split(o).first
    ensures o < SYLLABLES ==> Split(o).first <= 19
  {
  }

  /** Every initial/medial/final triple is the split of exactly one syllable offset. */
  lemma JoinSplit(j: Jamo)
    requires 1 <= j.first <= 19 && 1 <= j.mid <= 21 && 0 <= j.last < 28
    ensures 0 <= Join(j) < SYLLABLES
    ensures Split(Join(j)) == j
  {
    var q := (j.first - 1) * 21 + (j.mid - 1);
    DivExact(j.last, q, 28);
    DivExact(j.mid - 1, j.first - 1, 21);
    assert Join(j) / 28 == q;
  }

  /** The variant groups chosen for the three parts. */
  datatype Variants = Variants(firstType: int, midType: int, lastType: int)

  /**
   * The medial-group test as the code writes it: it compares the already
   * incremented initial index with 0 and 15, so it never holds for ㄱ
   * (index 1) and holds for ㅊ (index 15) instead of ㅋ (index 16).
   */
  predicate FirstIsKiyeokKhieukhAsWritten(first: int) { first == 0 || first == 15 }

  /** The test the variant groups call for: the initial is ㄱ or ㅋ. */
  predicate FirstIsKiyeokKhieukh(first: int) { first == 1 || first == 16 }

  /** The variant choice with the medial test as written (lastType is unset, 0, without a final). */
  function ChooseAsWritten(j: Jamo): Variants
    requires 1 <= j.mid <= 21
  {
    if j.last == 0 then Variants(CHO[j.mid], if FirstIsKiyeokKhieukhAsWritten(j.first) then 0 else 1, 0)
    else Variants(CHO2[j.mid], if FirstIsKiyeokKhieukhAsWritten(j.first) then 2 else 3, JONG[j.mid])
  }

  /** The variant choice with the corrected medial test. */
  function Choose(j: Jamo): Variants
    requires 1 <= j.mid <= 21
  {
    if j.last == 0 then Variants(CHO[j.mid], if FirstIsKiyeokKhieukh(j.first) then 0 else 1, 0)
    else Variants(CHO2[j.mid], if FirstIsKiyeokKhieukh(j.first) then 2 else 3, JONG[j.mid])
  }

  /**
   * Without a final the initial group is 0..4 and the medial group 0 or 1;
   * with a final the initial group is 5..7, the medial group 2 or 3 and the
   * final group 0..3.
   */
  lemma ChooseGroups(j: Jamo)
    requires 1 <= j.mid <= 21
    ensures j.last == 0 ==> 0 <= Choose(j).firstType <= 4 && Choose(j).midType in {0, 1}
    ensures j.last != 0 ==> 5 <= Choose(j).firstType <= 7 && Choose(j).midType in {2, 3}
                            && 0 <= Choose(j).lastType <= 3
    ensures ChooseAsWritten(j).firstType == Choose(j).firstType
    ensures ChooseAsWritten(j).lastType == Choose(j).lastType
    ensures ChooseAsWritten(j).midType in (if j.last == 0 then {0, 1} else {2, 3})
  {
  }

  /** The initial's index of the standard, o / 588, is the split's initial minus one. */
  lemma SplitInitial(o: nat)
    ensures Split(o).first == o / 588 + 1
  {
    var q := o / 28;
    DivUnique(o, 588, q / 21, 28 * (q % 21) + o % 28);
  }

  /**
   * With the corrected test the plain medial groups (0 and 2) go exactly
   * with the initials ㄱ and ㅋ (indices 0 and 15 of the standard).
   */
  lemma MedialGroupFollowsInitial(o: nat)
    ensures (Choose(Split(o)).midType % 2 == 0) <==> (o / 588 == 0 || o / 588 == 15)
  {
    SplitInitial(o);
  }

  /**
   * The medial test as written picks the wrong initial: 가 (offset 0,
   * initial ㄱ) gets medial group 1 instead of 0, and 차 (offset 8232,
   * initial ㅊ) gets group 0 instead of 1.
   */
  lemma MedialTestAsWrittenMisses()
    ensures Split(0) == Jamo(1, 1, 0)
    ensures ChooseAsWritten(Split(0)).midType == 1 && Choose(Split(0)).midType == 0
    ensures Split(8232) == Jamo(15, 1, 0)
    ensures ChooseAsWritten(Split(8232)).midType == 0 && Choose(Split(8232)).midType == 1
    ensures PartsOf(0).mg == 183 && PartsOfCorrected(0).mg == 161
    ensures PartsOf(8232).mg == 161 && PartsOfCorrected(8232).mg == 183
  {
  }

  /**
   * As written, the plain medial groups (0 and 2) go with the initial ㅊ
   * alone (index 14 of the standard), whatever the medial and final.
   */
  lemma MedialGroupAsWritten(o: nat)
    ensures (ChooseAsWritten(Split(o)).midType % 2 == 0) <==> o / 588 == 14
  {
    SplitInitial(o);
  }

  /** Glyph numbers of the three parts inside the font's bitmap. */
  function FirstGlyph(j: Jamo, v: Variants): int { v.firstType * 20 + j.first }
  function MidGlyph(j: Jamo, v: Variants): int { 8 * 20 + v.midType * 22 + j.mid }
  function LastGlyph(j: Jamo, v: Variants): int { 8 * 20 + 4 * 22 + v.lastType * 28 + j.last }

  /**
   * The three parts come from disjoint bands of the bitmap: initials from
   * [0, 160), medials from [160, 248), finals from [248, 360).
   */
  predicate InBands(j: Jamo, v: Variants)
  {
    && 0 <= FirstGlyph(j, v) < 160
    && 160 <= MidGlyph(j, v) < 248
    && (j.last != 0 ==> 248 <= LastGlyph(j, v) < COMB_GLYPHS)
  }

  /** For a syllable both variant choices keep every part in its band. */
  lemma GlyphBands(o: nat)
    requires o < SYLLABLES
    ensures InBands(Split(o), ChooseAsWritten(Split(o)))
    ensures InBands(Split(o), Choose(Split(o)))
  {
    SplitJoin(o);
    ChooseGroups(Split(o));
  }

  /** The glyph numbers of a syllable's parts: initial, medial and final (-1 for none). */
  datatype Layout = Layout(fg: nat, mg: nat, lg: int)

  /**
   * The parts get_hangul_glyph reads for syllable offset o, with the
   * medial test as written, in their bands.
   */
  function PartsOf(o: nat): (r: Layout)
    requires o < SYLLABLES
    ensures r.fg < 160 && 160 <= r.mg < 248
    ensures r.lg == -1 <==> Split(o).last == 0
    ensures r.lg != -1 ==> 248 <= r.lg < COMB_GLYPHS
  {
    var j := Split(o);
    var v := ChooseAsWritten(j);
    GlyphBands(o);
    Layout(FirstGlyph(j, v), MidGlyph(j, v), if j.last == 0 then -1 else LastGlyph(j, v))
  }

  /** The parts the corrected medial test would read, in their bands. */
  function PartsOfCorrected(o: nat): (r: Layout)
    requires o < SYLLABLES
    ensures r.fg < 160 && 160 <= r.mg < 248
    ensures r.lg == -1 <==> Split(o).last == 0
    ensures r.lg != -1 ==> 248 <= r.lg < COMB_GLYPHS
  {
    var j := Split(o);
    var v := Choose(j);
    GlyphBands(o);
    Layout(FirstGlyph(j, v), MidGlyph(j, v), if j.last == 0 then -1 else LastGlyph(j, v))
  }

  /**
   * The test as written and the corrected one read the same initial and
   * final parts; the medial parts differ exactly for the initials ㄱ, ㅊ
   * and ㅋ (indices 0, 14 and 15 of the standard).
   */
  lemma PartsDifferInMedial(o: nat)
    requires o < SYLLABLES
    ensures PartsOf(o).fg == PartsOfCorrected(o).fg && PartsOf(o).lg == PartsOfCorrected(o).lg
    ensures PartsOf(o).mg != PartsOfCorrected(o).mg <==> (o / 588 == 0 || o / 588 == 14 || o / 588 == 15)
  {
    MedialGroupAsWritten(o);
    MedialGroupFollowsInitial(o);
    ChooseGroups(Split(o));
  }

  predicate LayoutOk(p: Layout)
  {
    p.fg < COMB_GLYPHS && p.mg < COMB_GLYPHS && -1 <= p.lg < COMB_GLYPHS
  }

  /** Where glyph number n starts: n glyphs of gb bytes each. */
  function Base(n: nat, gb: nat): nat
  {
    if n == 0 then 0 else Base(n - 1, gb) + gb
  }

  lemma {:induction false} BaseIsProduct(n: nat, gb: nat)
    ensures Base(n, gb) == n * gb
  {
    if n > 0 {
      BaseIsProduct(n - 1, gb);
      MulPred(n, gb);
    }
  }

  lemma {:induction false} BaseMono(m: nat, n: nat, gb: nat)
    requires m <= n
    ensures Base(m, gb) <= Base(n, gb)
    decreases n
  {
    if m < n {
      BaseMono(m, n - 1, gb);
    }
  }

  /** The gb bytes of glyph number n. */
  function Part(bitmap: seq<bv8>, gb: nat, n: nat): (r: seq<bv8>)
    requires n < COMB_GLYPHS && COMB_GLYPHS * gb <= |bitmap|
    ensures |r| == gb
  {
    BaseIsProduct(COMB_GLYPHS, gb);
    BaseMono(n + 1, COMB_GLYPHS, gb);
    bitmap[Base(n, gb) .. Base(n, gb) + gb]
  }

  /** Part n is the gb bytes at byte offset n * gb. */
  function PartAt(bitmap: seq<bv8>, gb: nat, n: nat): (r: seq<bv8>)
    requires n < COMB_GLYPHS && COMB_GLYPHS * gb <= |bitmap|
    ensures n * gb + gb <= |bitmap|
    ensures r == Part(bitmap, gb, n) == bitmap[n * gb .. n * gb + gb]
  {
    BaseIsProduct(COMB_GLYPHS, gb);
    BaseIsProduct(n, gb);
    BaseMono(n + 1, COMB_GLYPHS, gb);
    Part(bitmap, gb, n)
  }

  /** Byte-wise OR of two parts. */
  function Or(a: seq<bv8>, b: seq<bv8>): (r: seq<bv8>)
    requires |a| == |b|
    ensures |r| == |a|
    ensures forall k :: 0 <= k < |r| ==> r[k] == a[k] | b[k]
  {
    seq(|a|, k requires 0 <= k < |a| => a[k] | b[k])
  }

  /** The OR of the parts of a layout: initial, medial, and the final if any. */
  function Overlay(bitmap: seq<bv8>, gb: nat, p: Layout): (r: seq<bv8>)
    requires LayoutOk(p) && COMB_GLYPHS * gb <= |bitmap|
    ensures |r| == gb
  {
    var both := Or(Part(bitmap, gb, p.fg), Part(bitmap, gb, p.mg));
    if p.lg == -1 then both else Or(both, Part(bitmap, gb, p.lg))
  }

  /** The glyph get_hangul_glyph builds for syllable offset o, medial test as written. */
  function Compose(bitmap: seq<bv8>, gb: nat, o: nat): (r: seq<bv8>)
    requires o < SYLLABLES && COMB_GLYPHS * gb <= |bitmap|
    ensures |r| == gb
  {
    Overlay(bitmap, gb, PartsOf(o))
  }

  /** Two byte strings that agree below m agree on every slice below m. */
  lemma SliceAgree(a: seq<bv8>, b: seq<bv8>, lo: int, hi: int, m: int)
    requires 0 <= lo <= hi <= m <= |a| && |a| == |b| && a[..m] == b[..m]
    ensures a[lo..hi] == b[lo..hi]
  {
    assert a[lo..hi] == a[..m][lo..hi];
    assert b[lo..hi] == b[..m][lo..hi];
  }

  /**
   * A glyph without a final part reads nothing from the finals' band: it
   * is the same whatever the bitmap holds from glyph 248 on.
   */
  lemma OpenSyllableIgnoresFinals(bitmap: seq<bv8>, bitmap': seq<bv8>, gb: nat, o: nat)
    requires o < SYLLABLES && COMB_GLYPHS * gb <= |bitmap| && |bitmap'| == |bitmap|
    requires Split(o).last == 0
    requires forall t :: 0 <= t < 248 * gb ==> bitmap[t] == bitmap'[t]
    ensures Compose(bitmap, gb, o) == Compose(bitmap', gb, o)
  {
    BaseIsProduct(248, gb);
    BaseIsProduct(COMB_GLYPHS, gb);
    MulMono(248, COMB_GLYPHS, gb);
    assert bitmap[..Base(248, gb)] == bitmap'[..Base(248, gb)];
    var p := PartsOf(o);
    BaseMono(p.fg + 1, 248, gb);
    BaseMono(p.mg + 1, 248, gb);
    BaseMono(248, COMB_GLYPHS, gb);
    SliceAgree(bitmap, bitmap', Base(p.fg, gb), Base(p.fg, gb) + gb, Base(248, gb));
    SliceAgree(bitmap, bitmap', Base(p.mg, gb), Base(p.mg, gb) + gb, Base(248, gb));
  }

  lemma MulMono(a: int, b: int, c: nat)
    requires a <= b
    ensures a * c <= b * c
  {
    assert b * c - a * c == (b - a) * c;
  }

  /**
   * The arithmetic of get_hangul_glyph: split the offset, pick the variant
   * groups and number the parts (lg is -1 when there is no final).
   */
  method GlyphNumbers(o: int) returns (fg: nat, mg: nat, lg: int)
    requires 0 <= o < SYLLABLES
    ensures Layout(fg, mg, lg) == PartsOf(o)
  {
    var last := o % 28;
    var rest := o / 28;
    var mid := rest % 21;
    var first := rest / 21;
    first := first + 1;
    mid := mid + 1;

    var firstType, midType, lastType := 0, 0, 0;
    if last == 0 {
      firstType := CHO[mid];
      midType := if FirstIsKiyeokKhieukhAsWritten(first) then 0 else 1;
    } else {
      firstType := CHO2[mid];
      midType := if FirstIsKiyeokKhieukhAsWritten(first) then 2 else 3;
      lastType := JONG[mid];
    }
    assert Jamo(first, mid, last) == Split(o);
    assert Variants(firstType, midType, lastType) == ChooseAsWritten(Split(o));
    fg := firstType * 20 + first;
    mg := 8 * 20 + midType * 22 + mid;
    lg := if last == 0 then -1 else 8 * 20 + 4 * 22 + lastType * 28 + last;
  }

  /**
   * The static 32-byte scratch buffer `hangul_glyph` that get_hangul_glyph
   * fills and returns.
   */
  class GlyphScratch {
    var glyph: array<bv8>

    ghost predicate Valid()
      reads this
    {
      glyph.Length == 32
    }

    constructor ()
      ensures Valid() && fresh(glyph)
      ensures forall k :: 0 <= k < 32 ==> glyph[k] == 0
    {
      glyph := new bv8[32](_ => 0);
    }

    /**
     * get_hangul_glyph: clears the first glyphbyte bytes of the scratch,
     * copies the initial's part, ORs in the medial's part and, with a
     * final, the final's part; the rest of the scratch is untouched and
     * the same buffer is returned every time.
     */
    method GetGlyph(ch: int, font: Font) returns (p: array<bv8>)
      requires Valid() && font.data.CombData? && Readable(font, ch)
      modifies glyph
      ensures p == glyph && Valid()
      ensures glyph[..GlyphBytes(font)] == Compose(font.data.bitmap, GlyphBytes(font), ch - font.first)
      ensures glyph[GlyphBytes(font)..] == old(glyph[GlyphBytes(font)..])
    {
      var bitmap := font.data.bitmap;
      var o := U16(ch - font.first);
      var fg, mg, lg := GlyphNumbers(o);
      var gb := GlyphBytes(font);
      Assemble(bitmap, gb, fg, mg, lg);
      assert o == ch - font.first;
      p := glyph;
    }

    /**
     * The copying half of get_hangul_glyph: clear glyphbyte bytes, copy
     * part fg, OR in part mg and, unless lg is -1, part lg.
     */
    method Assemble(bitmap: seq<bv8>, gb: nat, fg: nat, mg: nat, lg: int)
      requires Valid() && gb <= 32 && COMB_GLYPHS * gb <= |bitmap|
      requires LayoutOk(Layout(fg, mg, lg))
      modifies glyph
      ensures glyph[..gb] == Overlay(bitmap, gb, Layout(fg, mg, lg))
      ensures glyph[gb..] == old(glyph[gb..])
    {
      Clear(gb);

      ghost var initial := PartAt(bitmap, gb, fg);
      CopyPart(bitmap, fg * gb, gb);

      ghost var medial := PartAt(bitmap, gb, mg);
      OrPart(bitmap, mg * gb, gb);
      assert glyph[..gb] == Or(initial, medial);

      if lg != -1 {
        ghost var final := PartAt(bitmap, gb, lg);
        OrPart(bitmap, lg * gb, gb);
        assert glyph[..gb] == Or(Or(initial, medial), final);
      }
    }

    /** `memset(hangul_glyph, 0, glyphbyte)`. */
    method Clear(gb: nat)
      requires Valid() && gb <= 32
      modifies glyph
      ensures forall k :: 0 <= k < gb ==> glyph[k] == 0
      ensures glyph[gb..] == old(glyph[gb..])
    {
      forall k | 0 <= k < gb {
        glyph[k] := 0;
      }
    }

    /** `while(i--) *pB++ = *pF++;` over the first gb bytes. */
    method CopyPart(bitmap: seq<bv8>, src: nat, gb: nat)
      requires Valid() && gb <= 32 && src + gb <= |bitmap|
      modifies glyph
      ensures glyph[..gb] == bitmap[src..src + gb]
      ensures glyph[gb..] == old(glyph[gb..])
    {
      var i := 0;
      while i < gb
        invariant 0 <= i <= gb
        invariant glyph[..i] == bitmap[src..src + i]
        invariant glyph[gb..] == old(glyph[gb..])
      {
        glyph[i] := bitmap[src + i];
        i := i + 1;
      }
    }

    /** `while(i--) *pB++ |= *pF++;` over the first gb bytes. */
    method OrPart(bitmap: seq<bv8>, src: nat, gb: nat)
      requires Valid() && gb <= 32 && src + gb <= |bitmap|
      modifies glyph
      ensures glyph[..gb] == Or(old(glyph[..gb]), bitmap[src..src + gb])
      ensures glyph[gb..] == old(glyph[gb..])
    {
      var i := 0;
      while i < gb
        invariant 0 <= i <= gb
        invariant forall k :: 0 <= k < i ==> glyph[k] == old(glyph[k]) | bitmap[src + k]
        invariant forall k :: i <= k < gb ==> glyph[k] == old(glyph[k])
        invariant glyph[gb..] == old(glyph[gb..])
      {
        glyph[i] := glyph[i] | bitmap[src + i];
        i := i + 1;
      }
    }
  }

  // ---------------------------------------------------------------------
  // UTF-8 to Latin-1
  // ---------------------------------------------------------------------

  /**
   * utf8ascii on byte b with remembered byte c1: the output byte (0 for
   * "drop") and the new c1. An ASCII byte passes and clears c1; after 0xC2
   * a byte passes, after 0xC3 it gains the top two bits (b | 0xC0, written
   * 0xC0 + b % 64), 0x82 then 0xAC gives the euro sign 0x80, and any
   * other byte is dropped; every non-ASCII byte is remembered.
   */
  function Latin1Step(c1: int, b: int): (int, int)
  {
    if b < 128 then (b, 0)
    else if c1 == 0xC2 then (b, b)
    else if c1 == 0xC3 then (0xC0 + b % 64, b)
    else if c1 == 0x82 && b == 0xAC then (0x80, b)
    else (0, b)
  }

  /** The bytes the filter keeps from s, in order, and the remembered byte after s. */
  function Latin1Run(c1: int, s: seq<int>): (seq<int>, int)
    decreases |s|
  {
    if s == [] then ([], c1)
    else
      var (out, c) := Latin1Step(c1, s[0]);
      var (rest, c') := Latin1Run(c, s[1..]);
      (if out != 0 then [out] + rest else rest, c')
  }

  /** The cases of the filter on one byte. */
  lemma Latin1Cases(c1: int, b: int)
    requires IsU8(b)
    ensures b < 128 ==> Latin1Step(c1, b) == (b, 0)
    ensures b >= 128 ==> Latin1Step(c1, b).1 == b
    ensures b >= 128 && c1 == 0xC2 ==> Latin1Step(c1, b).0 == b
    ensures b >= 128 && c1 == 0xC3 ==> Latin1Step(c1, b).0 == 0xC0 + b % 64 && 0xC0 <= Latin1Step(c1, b).0 <= 0xFF
    ensures c1 == 0x82 && b == 0xAC ==> Latin1Step(c1, b).0 == 0x80
    ensures b >= 128 && c1 != 0xC2 && c1 != 0xC3 && !(c1 == 0x82 && b == 0xAC) ==> Latin1Step(c1, b).0 == 0
    ensures IsU8(Latin1Step(c1, b).0)
  {
  }

  /** The euro sign E2 82 AC comes out as the single byte 0x80. */
  lemma EuroSign(c1: int)
    requires c1 != 0xC2 && c1 != 0xC3
    ensures Latin1Run(c1, [0xE2, 0x82, 0xAC]) == ([0x80], 0xAC)
  {
    assert [0xE2, 0x82, 0xAC][1..] == [0x82, 0xAC];
    assert [0x82, 0xAC][1..] == [0xAC];
    assert [0xAC][1..] == [];
    assert Latin1Step(0x82, 0xAC) == (0x80, 0xAC);
    assert Latin1Run(0xAC, []) == ([], 0xAC);
    assert [0x80] + [] == [0x80];
    assert Latin1Run(0x82, [0xAC]) == ([0x80], 0xAC);
    assert Latin1Step(0xE2, 0x82) == (0, 0x82);
    assert Latin1Run(0xE2, [0x82, 0xAC]) == ([0x80], 0xAC);
  }

  /**
   * The output is never longer than the input, holds no zero byte, holds
   * bytes only, and an ASCII string without NUL comes out unchanged.
   */
  lemma {:induction false} Latin1RunShape(c1: int, s: seq<int>)
    requires forall k :: 0 <= k < |s| ==> IsU8(s[k])
    ensures |Latin1Run(c1, s).0| <= |s|
    ensures forall k :: 0 <= k < |Latin1Run(c1, s).0| ==> 0 < Latin1Run(c1, s).0[k] < 0x100
    ensures (forall k :: 0 <= k < |s| ==> 0 < s[k] < 128) ==> Latin1Run(c1, s).0 == s
    decreases |s|
  {
    if s != [] {
      var (out, c) := Latin1Step(c1, s[0]);
      Latin1Cases(c1, s[0]);
      Latin1RunShape(c, s[1..]);
      if forall k :: 0 <= k < |s| ==> 0 < s[k] < 128 {
        assert forall k :: 0 <= k < |s[1..]| ==> 0 < s[1..][k] < 128 by {
          forall k | 0 <= k < |s[1..]| ensures 0 < s[1..][k] < 128 {
            assert s[1..][k] == s[k + 1];
          }
        }
        assert [s[0]] + s[1..] == s;
      }
    }
  }

  /** Filtering one more byte appends that byte's output and moves on the remembered byte. */
  lemma {:induction false} Latin1RunAppend(c1: int, s: seq<int>, b: int)
    ensures var (out, c) := Latin1Run(c1, s);
            var (o, c') := Latin1Step(c, b);
            Latin1Run(c1, s + [b]) == (if o != 0 then out + [o] else out, c')
    decreases |s|
  {
    if s == [] {
      var (o, c') := Latin1Step(c1, b);
      assert s + [b] == [b] && [b][1..] == [];
      assert Latin1Run(c', []) == ([], c');
      assert [o] + [] == [] + [o];
    } else {
      var (o0, c) := Latin1Step(c1, s[0]);
      var (rest, cr) := Latin1Run(c, s[1..]);
      var (o, c') := Latin1Step(cr, b);
      assert (s + [b])[0] == s[0];
      assert (s + [b])[1..] == s[1..] + [b];
      Latin1RunAppend(c, s[1..], b);
      var rest' := if o != 0 then rest + [o] else rest;
      assert Latin1Run(c, s[1..] + [b]) == (rest', c');
      assert Latin1Run(c1, s + [b]) == (if o0 != 0 then [o0] + rest' else rest', c');
      assert Latin1Run(c1, s) == (if o0 != 0 then [o0] + rest else rest, cr);
      if o0 != 0 && o != 0 {
        assert [o0] + (rest + [o]) == ([o0] + rest) + [o];
      }
    }
  }

  /** The first NUL of a C string held in an array. */
  function StrLen(s: seq<int>): (n: nat)
    requires exists k :: 0 <= k < |s| && s[k] == 0
    ensures n < |s| && s[n] == 0 && forall k :: 0 <= k < n ==> s[k] != 0
  {
    if s[0] == 0 then 0
    else
      assert exists k :: 0 <= k < |s[1..]| && s[1..][k] == 0 by {
        var k :| 0 <= k < |s| && s[k] == 0;
        assert s[1..][k - 1] == 0;
      }
      1 + StrLen(s[1..])
  }

  /** The filter's remembered byte `c1`, shared by all calls. */
  class Latin1Filter {
    var c1: int

    constructor ()
      ensures c1 == 0
    {
      c1 := 0;
    }

    /** utf8ascii: converts one byte and updates the remembered byte. */
    method Convert(ascii: int) returns (r: int)
      modifies this
      ensures (r, c1) == Latin1Step(old(c1), ascii)
    {
      if ascii < 128 {
        c1 := 0;
        return ascii;
      }
      var last := c1;
      c1 := ascii;
      if last == 0xC2 {
        return ascii;
      } else if last == 0xC3 {
        return 0xC0 + ascii % 64;
      } else if last == 0x82 {
        if ascii == 0xAC {
          return 0x80;
        }
      }
      return 0;
    }

    /**
     * utf8strascii: rewrites the C string in s in place to the bytes the
     * filter keeps, terminated by a NUL written just after them; the
     * bytes past that NUL are left as they were.
     */
    method CompactString(s: array<int>) returns (ghost k: nat)
      requires exists t :: 0 <= t < s.Length && s[t] == 0
      requires forall t :: 0 <= t < s.Length ==> IsU8(s[t])
      modifies this, s
      ensures k <= old(StrLen(s[..])) && s[k] == 0
      ensures var (out, c) := Latin1Run(old(c1), old(s[..StrLen(s[..])]));
              k == |out| && s[..k] == out && c1 == c
      ensures s[k + 1..] == old(s[k + 1..])
    {
      ghost var s0 := s[..];
      ghost var n := StrLen(s0);
      ghost var c0 := c1;
      var w := 0;
      var i := 0;
      while i < StrLen(s[..])
        invariant Compacted(s[..], s0, n, w, i, c0, c1)
        invariant StrLen(s[..]) == n
        decreases n - i
      {
        ghost var a := s[..];
        ghost var before := c1;
        var c := Convert(s[i]);
        CompactStep(a, s0, n, w, i, c0, before);
        if c != 0 {
          s[w] := c;
          assert s[..] == a[w := c];
          w := w + 1;
        }
        i := i + 1;
        KeptLength(s[..], s0, w, n);
      }
      ghost var a := s[..];
      s[w] := 0;
      assert s[..] == a[w := 0];
      CompactDone(a, s0, n, w, c0, c1);
      k := w;
    }
  }

  /**
   * The state of utf8strascii after i input bytes: the first w bytes hold
   * what the filter kept of s0[..i], the rest still hold the original,
   * and c is the remembered byte.
   */
  ghost predicate Compacted(a: seq<int>, s0: seq<int>, n: nat, w: nat, i: nat, c0: int, c: int)
  {
    && |a| == |s0| && w <= i <= n < |a| && s0[n] == 0
    && (forall t :: 0 <= t < n ==> s0[t] != 0)
    && (forall t :: 0 <= t < |s0| ==> IsU8(s0[t]))
    && (forall t :: w <= t < |a| ==> a[t] == s0[t])
    && (forall t :: 0 <= t < w ==> 0 < a[t])
    && a[..w] == Latin1Run(c0, s0[..i]).0
    && c == Latin1Run(c0, s0[..i]).1
  }

  /** One more input byte: its output, if any, goes to index w. */
  lemma CompactStep(a: seq<int>, s0: seq<int>, n: nat, w: nat, i: nat, c0: int, c: int)
    requires Compacted(a, s0, n, w, i, c0, c) && i < n
    ensures var (out, c') := Latin1Step(c, s0[i]);
            && w < |a| && a[i] == s0[i]
            && (out != 0 ==> Compacted(a[w := out], s0, n, w + 1, i + 1, c0, c'))
            && (out == 0 ==> Compacted(a, s0, n, w, i + 1, c0, c'))
  {
    var (out, c') := Latin1Step(c, s0[i]);
    Latin1RunAppend(c0, s0[..i], s0[i]);
    assert s0[..i + 1] == s0[..i] + [s0[i]];
    Latin1Cases(c, s0[i]);
    if out != 0 {
      assert a[w := out][..w + 1] == a[..w] + [out];
    }
  }

  /** After the NUL is written at w, the string is the filtered input. */
  lemma CompactDone(a: seq<int>, s0: seq<int>, n: nat, w: nat, c0: int, c: int)
    requires Compacted(a, s0, n, w, n, c0, c)
    ensures var (out, c') := Latin1Run(c0, s0[..n]);
            && w == |out| && a[w := 0][..w] == out && c == c'
            && a[w := 0][w + 1..] == s0[w + 1..]
  {
    assert a[w := 0][..w] == a[..w];
    assert a[w := 0][w + 1..] == s0[w + 1..];
  }

  /**
   * While the filter runs, the bytes below the write index are non-zero
   * and the rest still hold the original string, so the first NUL stays
   * where it was.
   */
  lemma KeptLength(a: seq<int>, s0: seq<int>, w: nat, n: nat)
    requires w <= n < |a| == |s0| && a[n] == 0
    requires forall t :: 0 <= t < n ==> s0[t] != 0
    requires forall t :: w <= t < |a| ==> a[t] == s0[t]
    requires forall t :: 0 <= t < w ==> 0 < a[t]
    ensures StrLen(a) == n
  {
    StrLenSame(a, n);
  }

  lemma StrLenSame(a: seq<int>, n: nat)
    requires n < |a| && a[n] == 0
    requires forall t :: 0 <= t < n ==> a[t] != 0
    ensures StrLen(a) == n
  {
  }
}
