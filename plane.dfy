// The packed monochrome frame buffer of the SSD1306 driver
// (stm32lib/ssd1306.c:38): 128x64 pixels stored page by page, one byte per
// column of eight rows, bit y%8 of byte x + (y/8)*128 holding pixel (x, y).

module Plane {
  import opened Ints
  import opened Raster

  const WIDTH: int := 128
  const HEIGHT: int := 64
  const BYTES: int := 1024

  predicate OnPlane(p: Pt) { InPanel(WIDTH, HEIGHT, p) }

  /** The byte holding pixel p. */
  function Index(p: Pt): int
  {
    p.x + (p.y / 8) * WIDTH
  }

  /** The mask of pixel p inside its byte. */
  function Bit(p: Pt): bv8
    requires 0 <= p.y
  {
    (1 as bv8) << (p.y % 8)
  }

  lemma IndexInRange(p: Pt)
    requires OnPlane(p)
    ensures 0 <= Index(p) < BYTES
  {
  }

  /** Two pixels share a byte exactly when they share the column and the page. */
  lemma IndexShared(p: Pt, q: Pt)
    requires OnPlane(p) && OnPlane(q)
    ensures Index(p) == Index(q) <==> p.x == q.x && p.y / 8 == q.y / 8
  {
    var a, b := p.y / 8, q.y / 8;
    if a != b {
      if a < b {
        assert a * WIDTH + WIDTH <= b * WIDTH;
      } else {
        assert b * WIDTH + WIDTH <= a * WIDTH;
      }
    }
  }

  /** The pixel's state: its bit is set. */
  predicate PixelAt(buf: seq<bv8>, p: Pt)
    requires |buf| == BYTES && OnPlane(p)
  {
    buf[Index(p)] & Bit(p) != 0
  }

  /** One byte of drawpixel: the mask's bits set (`|=`) or cleared (`&= ~`). */
  function PaintByte(b: bv8, m: bv8, on: bool): bv8
  {
    if on then b | m else b & !m
  }

  /** drawpixel's update: set or clear the pixel's bit; off-plane points change nothing. */
  function Paint(buf: seq<bv8>, p: Pt, on: bool): (r: seq<bv8>)
    requires |buf| == BYTES
    ensures |r| == BYTES
  {
    if OnPlane(p) then
      IndexInRange(p);
      var i := Index(p);
      buf[i := PaintByte(buf[i], Bit(p), on)]
    else buf
  }

  /** The buffer after drawpixel has been called on ps[0], ..., ps[n-1] in turn. */
  function PaintUpTo(buf: seq<bv8>, ps: seq<Pt>, n: nat, on: bool): (r: seq<bv8>)
    requires |buf| == BYTES && n <= |ps|
    ensures |r| == BYTES
  {
    if n == 0 then buf else Paint(PaintUpTo(buf, ps, n - 1, on), ps[n - 1], on)
  }

  /** The buffer after drawpixel has been called on each of ps in turn. */
  function PaintPts(buf: seq<bv8>, ps: seq<Pt>, on: bool): (r: seq<bv8>)
    requires |buf| == BYTES
    ensures |r| == BYTES
  {
    PaintUpTo(buf, ps, |ps|, on)
  }

  /** Only the first n points matter to the first n calls. */
  lemma {:induction false} PaintUpToPrefix(buf: seq<bv8>, ps: seq<Pt>, qs: seq<Pt>, n: nat, on: bool)
    requires |buf| == BYTES && n <= |ps| && n <= |qs|
    requires forall i :: 0 <= i < n ==> ps[i] == qs[i]
    ensures PaintUpTo(buf, ps, n, on) == PaintUpTo(buf, qs, n, on)
  {
    if n > 0 {
      PaintUpToPrefix(buf, ps, qs, n - 1, on);
    }
  }

  /** Painting one more point is one more drawpixel. */
  lemma PaintPtsSnoc(buf: seq<bv8>, ps: seq<Pt>, p: Pt, on: bool)
    requires |buf| == BYTES
    ensures PaintPts(buf, ps + [p], on) == Paint(PaintPts(buf, ps, on), p, on)
  {
    PaintUpToPrefix(buf, ps + [p], ps, |ps|, on);
  }

  lemma BitsOfByte(b: bv8, i: nat, j: nat)
    requires i < 8 && j < 8
    ensures ((b | ((1 as bv8) << i)) & ((1 as bv8) << j) != 0) == (i == j || b & ((1 as bv8) << j) != 0)
    ensures ((b & !((1 as bv8) << i)) & ((1 as bv8) << j) != 0) == (i != j && b & ((1 as bv8) << j) != 0)
  {
  }

  /**
   * drawpixel at p decides pixel p (to `on`) and leaves every other pixel
   * of the plane as it was.
   */
  lemma PaintEffect(buf: seq<bv8>, p: Pt, on: bool, q: Pt)
    requires |buf| == BYTES && OnPlane(q)
    ensures PixelAt(Paint(buf, p, on), q) == if q == p then on else PixelAt(buf, q)
  {
    if OnPlane(p) {
      IndexShared(p, q);
      IndexInRange(p);
      IndexInRange(q);
      if Index(p) == Index(q) {
        SharedByte(buf, p, on, q);
      } else {
        assert Paint(buf, p, on)[Index(q)] == buf[Index(q)];
      }
    }
  }

  /** Two pixels of one byte are the same pixel exactly when their bits agree. */
  lemma SharedByte(buf: seq<bv8>, p: Pt, on: bool, q: Pt)
    requires |buf| == BYTES && OnPlane(p) && OnPlane(q)
    requires p.x == q.x && p.y / 8 == q.y / 8
    ensures PixelAt(Paint(buf, p, on), q) == if q == p then on else PixelAt(buf, q)
  {
    IndexInRange(p);
    SamePage(p.y, q.y);
    PaintBit(buf[Index(p)], p.y % 8, q.y % 8, on);
  }

  /** drawpixel on bit i of a byte decides bit i and keeps every other bit j. */
  lemma PaintBit(b: bv8, i: nat, j: nat, on: bool)
    requires i < 8 && j < 8
    ensures (PaintByte(b, (1 as bv8) << i, on) & ((1 as bv8) << j) != 0) == if i == j then on else b & ((1 as bv8) << j) != 0
  {
    BitsOfByte(b, i, j);
  }

  lemma SamePage(a: nat, b: nat)
    requires a / 8 == b / 8
    ensures a % 8 == b % 8 <==> a == b
  {
  }

  /**
   * After drawpixel on every point of ps, a plane pixel is `on` if it was
   * one of the points, and otherwise what it was before.
   */
  lemma PaintPtsEffect(buf: seq<bv8>, ps: seq<Pt>, on: bool, q: Pt)
    requires |buf| == BYTES && OnPlane(q)
    ensures PixelAt(PaintPts(buf, ps, on), q) == if q in ps then on else PixelAt(buf, q)
  {
    PaintUpToEffect(buf, ps, |ps|, on, q);
    assert ps[..|ps|] == ps;
  }

  lemma {:induction false} PaintUpToEffect(buf: seq<bv8>, ps: seq<Pt>, n: nat, on: bool, q: Pt)
    requires |buf| == BYTES && OnPlane(q) && n <= |ps|
    ensures PixelAt(PaintUpTo(buf, ps, n, on), q) == if q in ps[..n] then on else PixelAt(buf, q)
  {
    if n > 0 {
      PaintUpToEffect(buf, ps, n - 1, on, q);
      PaintEffect(PaintUpTo(buf, ps, n - 1, on), ps[n - 1], on, q);
      assert ps[..n] == ps[..n - 1] + [ps[n - 1]];
    }
  }

  /** Painting a concatenation is painting the parts one after the other. */
  lemma PaintPtsAppend(buf: seq<bv8>, ps: seq<Pt>, qs: seq<Pt>, on: bool)
    requires |buf| == BYTES
    ensures PaintPts(buf, ps + qs, on) == PaintPts(PaintPts(buf, ps, on), qs, on)
  {
    PaintUpToAppend(buf, ps, qs, |qs|, on);
  }

  lemma {:induction false} PaintUpToAppend(buf: seq<bv8>, ps: seq<Pt>, qs: seq<Pt>, k: nat, on: bool)
    requires |buf| == BYTES && k <= |qs|
    ensures PaintUpTo(buf, ps + qs, |ps| + k, on) == PaintUpTo(PaintPts(buf, ps, on), qs, k, on)
  {
    if k == 0 {
      PaintUpToPrefix(buf, ps + qs, ps, |ps|, on);
    } else {
      PaintUpToAppend(buf, ps, qs, k - 1, on);
      assert (ps + qs)[|ps| + k - 1] == qs[k - 1];
    }
  }

  /** A byte-level view of one drawpixel: only bit y%8 of byte Index(p) can change. */
  lemma PaintTouchesOneBit(buf: seq<bv8>, p: Pt, on: bool)
    requires |buf| == BYTES && OnPlane(p)
    ensures forall i :: 0 <= i < BYTES && i != Index(p) ==> Paint(buf, p, on)[i] == buf[i]
    ensures Paint(buf, p, on)[Index(p)] & !Bit(p) == buf[Index(p)] & !Bit(p)
    ensures (Paint(buf, p, on)[Index(p)] & Bit(p) != 0) == on
  {
    IndexInRange(p);
    var b, m := buf[Index(p)], Bit(p);
    assert (b | m) & !m == b & !m;
    assert (b & !m) & !m == b & !m;
    assert (b | m) & m != 0;
    assert (b & !m) & m == 0;
  }

  /** Every byte complemented (the memory toggle of invert). */
  function Complemented(buf: seq<bv8>): (r: seq<bv8>)
    ensures |r| == |buf|
  {
    seq(|buf|, i requires 0 <= i < |buf| => !buf[i])
  }

  /** Inverting the memory twice restores it, and flips every pixel. */
  lemma ComplementedInvolution(buf: seq<bv8>)
    requires |buf| == BYTES
    ensures Complemented(Complemented(buf)) == buf
    ensures forall p :: OnPlane(p) ==> PixelAt(Complemented(buf), p) == !PixelAt(buf, p)
  {
    forall i | 0 <= i < |buf| ensures Complemented(Complemented(buf))[i] == buf[i] {
      assert !!buf[i] == buf[i];
    }
    forall p | OnPlane(p) ensures PixelAt(Complemented(buf), p) == !PixelAt(buf, p) {
      IndexInRange(p);
      var b := buf[Index(p)];
      assert p.y % 8 < 8;
      BitComplement(b, p.y % 8);
    }
  }

  lemma BitComplement(b: bv8, i: nat)
    requires i < 8
    ensures (!b & ((1 as bv8) << i) != 0) == !(b & ((1 as bv8) << i) != 0)
  {
  }

  /** The memset of fill: every byte equal to v. */
  function Filled(v: bv8): (r: seq<bv8>)
    ensures |r| == BYTES
  {
    seq(BYTES, _ => v)
  }

  /** A black fill clears every pixel and a white fill sets every pixel. */
  lemma FilledPixels(p: Pt)
    requires OnPlane(p)
    ensures !PixelAt(Filled(0x00), p)
    ensures PixelAt(Filled(0xFF), p)
  {
    IndexInRange(p);
    assert p.y % 8 < 8;
    FullByte(p.y % 8);
  }

  lemma FullByte(i: nat)
    requires i < 8
    ensures (0xFF as bv8) & ((1 as bv8) << i) != 0
    ensures (0x00 as bv8) & ((1 as bv8) << i) == 0
  {
  }
}
