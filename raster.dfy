// The integer shape algorithms shared by both display drivers
// (stm32lib/ssd1306.c and stm32lib/ssd1331.c run the same code on a
// 128x64 and a 96x64 panel). Each algorithm is described here by the
// ordered list of points it hands to drawpixel; the drivers prove that
// their loops issue exactly these calls, and the geometric facts are
// proved once, on the lists.

module Raster {
  import opened Ints

  datatype Pt = Pt(x: int, y: int)

  predicate GoodPanel(w: int, h: int) { 0 < w && 0 < h }

  predicate InPanel(w: int, h: int, p: Pt) { 0 <= p.x < w && 0 <= p.y < h }

  /** drawline replaces a coordinate at or past the edge by the last column or row. */
  function Clamp(v: int, limit: int): (r: int)
    requires 0 < limit
    ensures v < limit ==> r == v
    ensures v >= limit ==> r == limit - 1
  {
    if v >= limit then limit - 1 else v
  }

  /** The points x..x'(inclusive) of one row, left to right. */
  function Row(lo: int, hi: int, y: int): (r: seq<Pt>)
    requires lo <= hi
    ensures |r| == hi - lo + 1
    ensures forall k :: 0 <= k < |r| ==> r[k] == Pt(lo + k, y)
  {
    seq(hi - lo + 1, k requires 0 <= k <= hi - lo => Pt(lo + k, y))
  }

  /** The points y..y' (inclusive) of one column, top to bottom. */
  function Column(x: int, lo: int, hi: int): (r: seq<Pt>)
    requires lo <= hi
    ensures |r| == hi - lo + 1
    ensures forall k :: 0 <= k < |r| ==> r[k] == Pt(x, lo + k)
  {
    seq(hi - lo + 1, k requires 0 <= k <= hi - lo => Pt(x, lo + k))
  }

  // ---------------------------------------------------------------------
  // The general (diagonal) branch of drawline: Bresenham's error walk.
  // ---------------------------------------------------------------------

  /** Fixed parameters of one walk: target, distances, steps, first error. */
  datatype Walker = Walker(x1: int, y1: int, dx: int, dy: int, sx: int, sy: int, e0: int)

  /** The loop state: the current point and the error accumulator `err`. */
  datatype Cursor = Cursor(x: int, y: int, e: int)

  /** Distance still to go from v to target when moving by step s. */
  function Toward(v: int, target: int, s: int): int
  {
    if s == 1 then target - v else v - target
  }

  function Remaining(s: Walker, c: Cursor): int
  {
    Toward(c.x, s.x1, s.sx) + Toward(c.y, s.y1, s.sy)
  }

  /**
   * The state invariant of the walk. Besides the usual equation between the
   * error and the distances already covered, the error stays strictly
   * between -dy and dx, and on the major axis it never drifts by a whole
   * step from its first value; together these rule out overshooting the
   * target on either axis.
   */
  ghost predicate WalkInv(s: Walker, c: Cursor)
  {
    && s.dx > 0 && s.dy > 0
    && (s.sx == 1 || s.sx == -1) && (s.sy == 1 || s.sy == -1)
    && s.e0 == (if s.dx > s.dy then s.dx / 2 else -(s.dy / 2))
    && 0 <= Toward(c.x, s.x1, s.sx) <= s.dx
    && 0 <= Toward(c.y, s.y1, s.sy) <= s.dy
    && c.e == s.e0 + Toward(c.x, s.x1, s.sx) * s.dy - Toward(c.y, s.y1, s.sy) * s.dx
    && -s.dy < c.e < s.dx
    && (s.dx > s.dy ==> c.e > s.e0 - s.dx)
    && (s.dx <= s.dy ==> c.e < s.e0 + s.dy)
  }

  /** One pass of the loop body after the pixel is drawn. */
  function Step(s: Walker, c: Cursor): (n: Cursor)
  {
    var e2 := c.e;
    var c1 := if e2 > -s.dx then Cursor(c.x + s.sx, c.y, c.e - s.dy) else c;
    if e2 < s.dy then Cursor(c1.x, c1.y + s.sy, c1.e + s.dx) else c1
  }

  /** With nothing left on one axis the error forbids a step on that axis. */
  lemma NoOvershoot(s: Walker, c: Cursor)
    requires WalkInv(s, c)
    requires !(c.x == s.x1 && c.y == s.y1)
    ensures c.e > -s.dx ==> Toward(c.x, s.x1, s.sx) > 0
    ensures c.e < s.dy ==> Toward(c.y, s.y1, s.sy) > 0
  {
    var ra, rb := Toward(c.x, s.x1, s.sx), Toward(c.y, s.y1, s.sy);
    if ra == 0 {
      MulAtLeast(rb, s.dx);
    }
    if rb == 0 {
      MulAtLeast(ra, s.dy);
    }
  }

  lemma StepKeeps(s: Walker, c: Cursor)
    requires WalkInv(s, c)
    requires !(c.x == s.x1 && c.y == s.y1)
    ensures WalkInv(s, Step(s, c))
    ensures 0 <= Remaining(s, Step(s, c)) < Remaining(s, c)
    ensures Abs(Step(s, c).x - c.x) <= 1 && Abs(Step(s, c).y - c.y) <= 1
  {
    NoOvershoot(s, c);
    var ra, rb := Toward(c.x, s.x1, s.sx), Toward(c.y, s.y1, s.sy);
    var n := Step(s, c);
    var ra' := if c.e > -s.dx then ra - 1 else ra;
    var rb' := if c.e < s.dy then rb - 1 else rb;
    assert Toward(n.x, s.x1, s.sx) == ra';
    assert Toward(n.y, s.y1, s.sy) == rb';
    MulPred(ra, s.dy);
    MulPred(rb, s.dx);
    assert n.e == s.e0 + ra' * s.dy - rb' * s.dx;
  }

  /** A cursor of the walk lies between the start and the target on both axes. */
  lemma WalkBetween(s: Walker, c: Cursor, x0: int, y0: int)
    requires WalkInv(s, c) && Toward(x0, s.x1, s.sx) == s.dx && Toward(y0, s.y1, s.sy) == s.dy
    ensures Min(x0, s.x1) <= c.x <= Max(x0, s.x1) && Min(y0, s.y1) <= c.y <= Max(y0, s.y1)
  {
  }

  /** The points the diagonal loop draws from cursor c on, the last one being the target. */
  function Walk(s: Walker, c: Cursor): (r: seq<Pt>)
    requires WalkInv(s, c)
    decreases Remaining(s, c)
  {
    if c.x == s.x1 && c.y == s.y1 then [Pt(c.x, c.y)]
    else
      StepKeeps(s, c);
      [Pt(c.x, c.y)] + Walk(s, Step(s, c))
  }

  function StartWalker(a0: int, b0: int, a1: int, b1: int): Walker
  {
    var dx := Abs(a1 - a0);
    var dy := Abs(b1 - b0);
    Walker(a1, b1, dx, dy, if a0 < a1 then 1 else -1, if b0 < b1 then 1 else -1,
           CDiv(if dx > dy then dx as int else -(dy as int), 2))
  }

  lemma StartKeeps(a0: int, b0: int, a1: int, b1: int)
    requires a0 != a1 && b0 != b1
    ensures WalkInv(StartWalker(a0, b0, a1, b1), Cursor(a0, b0, StartWalker(a0, b0, a1, b1).e0))
    ensures Toward(a0, a1, StartWalker(a0, b0, a1, b1).sx) == StartWalker(a0, b0, a1, b1).dx
    ensures Toward(b0, b1, StartWalker(a0, b0, a1, b1).sy) == StartWalker(a0, b0, a1, b1).dy
  {
    var s := StartWalker(a0, b0, a1, b1);
    assert Toward(a0, a1, s.sx) == s.dx;
    assert Toward(b0, b1, s.sy) == s.dy;
    assert s.dx * s.dy == s.dy * s.dx;
  }

  // ---------------------------------------------------------------------
  // drawline
  // ---------------------------------------------------------------------

  /**
   * The points drawline(x0, y0, x1, y1) draws, in order: the clamped
   * endpoints, then a column, a row, or the error walk.
   */
  function LinePts(w: int, h: int, x0: nat, y0: nat, x1: nat, y1: nat): seq<Pt>
    requires GoodPanel(w, h)
  {
    var a0, b0, a1, b1 := Clamp(x0, w), Clamp(y0, h), Clamp(x1, w), Clamp(y1, h);
    if a0 == a1 then Column(a0, Min(b0, b1), Max(b0, b1))
    else if b0 == b1 then Row(Min(a0, a1), Max(a0, a1), b0)
    else
      StartKeeps(a0, b0, a1, b1);
      Walk(StartWalker(a0, b0, a1, b1), Cursor(a0, b0, StartWalker(a0, b0, a1, b1).e0))
  }

  /** The walk starts at the cursor and ends exactly on the target. */
  lemma {:induction false} WalkEnds(s: Walker, c: Cursor)
    requires WalkInv(s, c)
    ensures |Walk(s, c)| >= 1
    ensures Walk(s, c)[0] == Pt(c.x, c.y)
    ensures Walk(s, c)[|Walk(s, c)| - 1] == Pt(s.x1, s.y1)
    decreases Remaining(s, c)
  {
    if !(c.x == s.x1 && c.y == s.y1) {
      StepKeeps(s, c);
      WalkEnds(s, Step(s, c));
    }
  }

  /** Every point from cursor c on lies between c and the target. */
  lemma {:induction false} WalkBox(s: Walker, c: Cursor)
    requires WalkInv(s, c)
    ensures forall p :: p in Walk(s, c) ==>
              0 <= Toward(p.x, s.x1, s.sx) <= Toward(c.x, s.x1, s.sx) &&
              0 <= Toward(p.y, s.y1, s.sy) <= Toward(c.y, s.y1, s.sy)
    decreases Remaining(s, c)
  {
    if !(c.x == s.x1 && c.y == s.y1) {
      StepKeeps(s, c);
      WalkBox(s, Step(s, c));
    }
  }

  /** Consecutive points of the walk are 8-neighbours. */
  lemma {:induction false} WalkConnected(s: Walker, c: Cursor)
    requires WalkInv(s, c)
    ensures forall k :: 0 <= k < |Walk(s, c)| - 1 ==>
              Abs(Walk(s, c)[k + 1].x - Walk(s, c)[k].x) <= 1 &&
              Abs(Walk(s, c)[k + 1].y - Walk(s, c)[k].y) <= 1
    decreases Remaining(s, c)
  {
    if !(c.x == s.x1 && c.y == s.y1) {
      StepKeeps(s, c);
      var n := Step(s, c);
      WalkConnected(s, n);
      WalkEnds(s, n);
      var r := Walk(s, c);
      var t := Walk(s, n);
      assert r == [Pt(c.x, c.y)] + t;
      forall k | 0 <= k < |r| - 1
        ensures Abs(r[k + 1].x - r[k].x) <= 1 && Abs(r[k + 1].y - r[k].y) <= 1
      {
        if k > 0 {
          assert r[k] == t[k - 1] && r[k + 1] == t[k];
        }
      }
    }
  }

  /** Both clamped endpoints are always drawn. */
  lemma LineEndpoints(w: int, h: int, x0: nat, y0: nat, x1: nat, y1: nat)
    requires GoodPanel(w, h)
    ensures Pt(Clamp(x0, w), Clamp(y0, h)) in LinePts(w, h, x0, y0, x1, y1)
    ensures Pt(Clamp(x1, w), Clamp(y1, h)) in LinePts(w, h, x0, y0, x1, y1)
  {
    var a0, b0, a1, b1 := Clamp(x0, w), Clamp(y0, h), Clamp(x1, w), Clamp(y1, h);
    var r := LinePts(w, h, x0, y0, x1, y1);
    if a0 == a1 {
      var lo, hi := Min(b0, b1), Max(b0, b1);
      assert r[b0 - lo] == Pt(a0, b0);
      assert r[b1 - lo] == Pt(a1, b1);
    } else if b0 == b1 {
      var lo, hi := Min(a0, a1), Max(a0, a1);
      assert r[a0 - lo] == Pt(a0, b0);
      assert r[a1 - lo] == Pt(a1, b1);
    } else {
      StartKeeps(a0, b0, a1, b1);
      WalkEnds(StartWalker(a0, b0, a1, b1), Cursor(a0, b0, StartWalker(a0, b0, a1, b1).e0));
      assert r[0] == Pt(a0, b0);
      assert r[|r| - 1] == Pt(a1, b1);
    }
  }

  /**
   * Every drawn point lies in the bounding box of the clamped endpoints,
   * hence on the panel.
   */
  lemma LineInBox(w: int, h: int, x0: nat, y0: nat, x1: nat, y1: nat)
    requires GoodPanel(w, h)
    ensures forall p :: p in LinePts(w, h, x0, y0, x1, y1) ==>
              Min(Clamp(x0, w), Clamp(x1, w)) <= p.x <= Max(Clamp(x0, w), Clamp(x1, w)) &&
              Min(Clamp(y0, h), Clamp(y1, h)) <= p.y <= Max(Clamp(y0, h), Clamp(y1, h)) &&
              InPanel(w, h, p)
  {
    var a0, b0, a1, b1 := Clamp(x0, w), Clamp(y0, h), Clamp(x1, w), Clamp(y1, h);
    if a0 != a1 && b0 != b1 {
      StartKeeps(a0, b0, a1, b1);
      WalkBox(StartWalker(a0, b0, a1, b1), Cursor(a0, b0, StartWalker(a0, b0, a1, b1).e0));
    }
  }

  /**
   * For an axis-aligned segment the drawn set is exactly the inclusive span
   * between the clamped endpoints, whichever endpoint comes first.
   */
  lemma LineAxisSpan(w: int, h: int, x0: nat, y0: nat, x1: nat, y1: nat, p: Pt)
    requires GoodPanel(w, h)
    requires Clamp(x0, w) == Clamp(x1, w) || Clamp(y0, h) == Clamp(y1, h)
    ensures p in LinePts(w, h, x0, y0, x1, y1) <==>
              Min(Clamp(x0, w), Clamp(x1, w)) <= p.x <= Max(Clamp(x0, w), Clamp(x1, w)) &&
              Min(Clamp(y0, h), Clamp(y1, h)) <= p.y <= Max(Clamp(y0, h), Clamp(y1, h))
  {
    var a0, b0, a1, b1 := Clamp(x0, w), Clamp(y0, h), Clamp(x1, w), Clamp(y1, h);
    var r := LinePts(w, h, x0, y0, x1, y1);
    if a0 == a1 {
      var lo := Min(b0, b1);
      if Min(a0, a1) <= p.x <= Max(a0, a1) && lo <= p.y <= Max(b0, b1) {
        assert r[p.y - lo] == p;
      }
    } else {
      var lo := Min(a0, a1);
      if lo <= p.x <= Max(a0, a1) && Min(b0, b1) <= p.y <= Max(b0, b1) {
        assert r[p.x - lo] == p;
      }
    }
  }

  /**
   * drawline is not symmetric in its endpoints: from (0,0) to (2,1) the
   * middle pixel is (1,0), from (2,1) back to (0,0) it is (1,1). One
   * example that pins this quirk of the walk, not a general property.
   */
  lemma LineDependsOnDirection()
    ensures LinePts(128, 64, 0, 0, 2, 1) == [Pt(0, 0), Pt(1, 0), Pt(2, 1)]
    ensures LinePts(128, 64, 2, 1, 0, 0) == [Pt(2, 1), Pt(1, 1), Pt(0, 0)]
  {
  }

  // ---------------------------------------------------------------------
  // drawrectangle / fillrectangle
  // ---------------------------------------------------------------------

  /** The width or height after the edge check: cut back so that pos + len == limit. */
  function Extent(pos: nat, len: nat, limit: int): (r: nat)
    requires pos < limit
    ensures r <= len
  {
    if pos + len >= limit then limit - pos else len
  }

  /** The last column (or row) a rectangle reaches once drawline has clamped it. */
  lemma ExtentClamp(pos: nat, len: nat, limit: int)
    requires pos < limit
    ensures 0 <= Extent(pos, len, limit) <= len
    ensures Clamp(pos + Extent(pos, len, limit), limit) == Min(pos + len, limit - 1)
  {
  }

  /** The four sides drawrectangle draws: top, bottom, left, right. */
  function RectPts(w: int, h: int, x: nat, y: nat, rw: nat, rh: nat): seq<Pt>
    requires GoodPanel(w, h)
  {
    if x >= w || y >= h then []
    else Sides(w, h, x, y, x + Extent(x, rw, w), y + Extent(y, rh, h))
  }

  /** The four drawline calls from corner (x, y) to corner (x1, y1). */
  function Sides(w: int, h: int, x: nat, y: nat, x1: nat, y1: nat): seq<Pt>
    requires GoodPanel(w, h)
  {
    LinePts(w, h, x, y, x1, y) + LinePts(w, h, x, y1, x1, y1)
    + LinePts(w, h, x, y, x, y1) + LinePts(w, h, x1, y, x1, y1)
  }

  /** The four sides cover exactly the border of the clamped box. */
  lemma SidesOutline(w: int, h: int, x: nat, y: nat, x1: nat, y1: nat, p: Pt)
    requires GoodPanel(w, h) && x < w && y < h && x <= x1 && y <= y1
    ensures p in Sides(w, h, x, y, x1, y1) <==>
              x <= p.x <= Clamp(x1, w) && y <= p.y <= Clamp(y1, h) &&
              (p.x == x || p.x == Clamp(x1, w) || p.y == y || p.y == Clamp(y1, h))
  {
    RowSide(w, h, x, y, x1, p);
    RowSide(w, h, x, y1, x1, p);
    ColumnSide(w, h, x, y, y1, p);
    ColumnSide(w, h, x1, y, y1, p);
  }

  /**
   * drawrectangle sets exactly the border of the box from (x,y) to the
   * clamped far corner, and nothing when the origin is off the panel.
   */
  lemma RectOutline(w: int, h: int, x: nat, y: nat, rw: nat, rh: nat, p: Pt)
    requires GoodPanel(w, h)
    ensures x >= w || y >= h ==> RectPts(w, h, x, y, rw, rh) == []
    ensures x < w && y < h ==>
              (p in RectPts(w, h, x, y, rw, rh) <==>
                 x <= p.x <= Min(x + rw, w - 1) && y <= p.y <= Min(y + rh, h - 1) &&
                 (p.x == x || p.x == Min(x + rw, w - 1) || p.y == y || p.y == Min(y + rh, h - 1)))
  {
    if x < w && y < h {
      var x1, y1 := x + Extent(x, rw, w), y + Extent(y, rh, h);
      ExtentClamp(x, rw, w);
      ExtentClamp(y, rh, h);
      assert RectPts(w, h, x, y, rw, rh) == Sides(w, h, x, y, x1, y1);
      SidesOutline(w, h, x, y, x1, y1, p);
    }
  }

  /** A left-to-right horizontal drawline covers its clamped span of the clamped row. */
  lemma RowSide(w: int, h: int, x0: nat, y: nat, x1: nat, p: Pt)
    requires GoodPanel(w, h) && x0 <= x1
    ensures p in LinePts(w, h, x0, y, x1, y) <==> Clamp(x0, w) <= p.x <= Clamp(x1, w) && p.y == Clamp(y, h)
  {
    LineAxisSpan(w, h, x0, y, x1, y, p);
  }

  /** A top-to-bottom vertical drawline covers its clamped span of the clamped column. */
  lemma ColumnSide(w: int, h: int, x: nat, y0: nat, y1: nat, p: Pt)
    requires GoodPanel(w, h) && y0 <= y1
    ensures p in LinePts(w, h, x, y0, x, y1) <==> p.x == Clamp(x, w) && Clamp(y0, h) <= p.y <= Clamp(y1, h)
  {
    LineAxisSpan(w, h, x, y0, x, y1, p);
  }

  /** Rows 0..n-1 of fillrectangle: one drawline per row, top to bottom. */
  function FillRows(w: int, h: int, x: nat, y: nat, ew: nat, n: nat): seq<Pt>
    requires GoodPanel(w, h)
  {
    if n == 0 then []
    else FillRows(w, h, x, y, ew, n - 1) + LinePts(w, h, x, y + n - 1, x + ew, y + n - 1)
  }

  lemma FillRowsSnoc(w: int, h: int, x: nat, y: nat, ew: nat, i: nat)
    requires GoodPanel(w, h)
    ensures FillRows(w, h, x, y, ew, i + 1) == FillRows(w, h, x, y, ew, i) + LinePts(w, h, x, y + i, x + ew, y + i)
  {
    assert y + (i + 1) - 1 == y + i;
  }

  /** The points fillrectangle draws. */
  function FillRectPts(w: int, h: int, x: nat, y: nat, rw: nat, rh: nat): seq<Pt>
    requires GoodPanel(w, h)
  {
    if x >= w || y >= h then []
    else FillRows(w, h, x, y, Extent(x, rw, w), Extent(y, rh, h) + 1)
  }

  lemma {:induction false} FillRowsSpan(w: int, h: int, x: nat, y: nat, ew: nat, n: nat, p: Pt)
    requires GoodPanel(w, h) && x < w && y < h
    ensures p in FillRows(w, h, x, y, ew, n) <==>
              n > 0 && x <= p.x <= Clamp(x + ew, w) && y <= p.y <= Clamp(y + n - 1, h)
  {
    if n > 0 {
      FillRowsSpan(w, h, x, y, ew, n - 1, p);
      LineAxisSpan(w, h, x, y + n - 1, x + ew, y + n - 1, p);
    }
  }

  /**
   * fillrectangle with its origin on the panel sets exactly the pixels of
   * the box from (x,y) to (min(x+rw, w-1), min(y+rh, h-1)); with the origin
   * off the panel it draws nothing.
   */
  lemma FillRectExact(w: int, h: int, x: nat, y: nat, rw: nat, rh: nat, p: Pt)
    requires GoodPanel(w, h)
    ensures x >= w || y >= h ==> FillRectPts(w, h, x, y, rw, rh) == []
    ensures x < w && y < h ==>
              (p in FillRectPts(w, h, x, y, rw, rh) <==>
                 x <= p.x <= Min(x + rw, w - 1) && y <= p.y <= Min(y + rh, h - 1))
  {
    if x < w && y < h {
      ExtentClamp(x, rw, w);
      ExtentClamp(y, rh, h);
      FillRowsSpan(w, h, x, y, Extent(x, rw, w), Extent(y, rh, h) + 1, p);
    }
  }

  // ---------------------------------------------------------------------
  // drawtriangle / filltriangle
  // ---------------------------------------------------------------------

  function TrianglePts(w: int, h: int, x1: nat, y1: nat, x2: nat, y2: nat, x3: nat, y3: nat): seq<Pt>
    requires GoodPanel(w, h)
  {
    LinePts(w, h, x1, y1, x2, y2) + LinePts(w, h, x2, y2, x3, y3) + LinePts(w, h, x3, y3, x1, y1)
  }

  /** drawtriangle draws all three (clamped) corners and stays on the panel. */
  lemma TriangleCorners(w: int, h: int, x1: nat, y1: nat, x2: nat, y2: nat, x3: nat, y3: nat)
    requires GoodPanel(w, h)
    ensures Pt(Clamp(x1, w), Clamp(y1, h)) in TrianglePts(w, h, x1, y1, x2, y2, x3, y3)
    ensures Pt(Clamp(x2, w), Clamp(y2, h)) in TrianglePts(w, h, x1, y1, x2, y2, x3, y3)
    ensures Pt(Clamp(x3, w), Clamp(y3, h)) in TrianglePts(w, h, x1, y1, x2, y2, x3, y3)
    ensures forall p :: p in TrianglePts(w, h, x1, y1, x2, y2, x3, y3) ==> InPanel(w, h, p)
  {
    LineEndpoints(w, h, x1, y1, x2, y2);
    LineEndpoints(w, h, x2, y2, x3, y3);
    LineInBox(w, h, x1, y1, x2, y2);
    LineInBox(w, h, x2, y2, x3, y3);
    LineInBox(w, h, x3, y3, x1, y1);
  }

  /**
   * The sweep of filltriangle: the increments taken every pass (inc2) and
   * on each overflow of the numerator (inc1), the denominator and the
   * amount added to the numerator per pass.
   */
  datatype Dda = Dda(xinc1: int, yinc1: int, xinc2: int, yinc2: int, den: int, numadd: int)

  /** The increments, starting numerator and pass count filltriangle sets up. */
  function DdaSetup(x1: int, y1: int, x2: int, y2: int): (Dda, int, int)
  {
    var deltax, deltay := Abs(x2 - x1), Abs(y2 - y1);
    var sx := if x2 >= x1 then 1 else -1;
    var sy := if y2 >= y1 then 1 else -1;
    if deltax >= deltay then (Dda(0, sy, sx, 0, deltax, deltay), deltax / 2, deltax)
    else (Dda(sx, 0, 0, sy, deltay, deltax), deltay / 2, deltay)
  }

  /** The chord start points of k more passes from (x, y) with numerator num. */
  function ChordStarts(d: Dda, x: int, y: int, num: int, k: nat): (r: seq<Pt>)
    ensures |r| == k
    decreases k
  {
    if k == 0 then []
    else
      var num1 := num + d.numadd;
      var over := num1 >= d.den;
      var num2 := if over then num1 - d.den else num1;
      var x' := (if over then x + d.xinc1 else x) + d.xinc2;
      var y' := (if over then y + d.yinc1 else y) + d.yinc2;
      [Pt(x, y)] + ChordStarts(d, x', y', num2, k - 1)
  }

  /** One pass of the sweep: the current start, then the starts after the numerator update. */
  lemma ChordStartsNext(d: Dda, x: int, y: int, num: int, k: nat)
    requires k > 0
    ensures var num1 := num + d.numadd;
            var over := num1 >= d.den;
            ChordStarts(d, x, y, num, k) ==
              [Pt(x, y)] + ChordStarts(d, (if over then x + d.xinc1 else x) + d.xinc2,
                                       (if over then y + d.yinc1 else y) + d.yinc2,
                                       if over then num1 - d.den else num1, k - 1)
  {
  }

  /** After a pass, the starts drawn so far are one longer and the rest follow the update. */
  /** One pass of the filltriangle sweep seen on the whole list of starts: the cursor is start i. */
  lemma ChordSlice(d: Dda, x: int, y: int, num: int, k: nat, all: seq<Pt>, i: nat)
    requires k > 0 && i < |all| && ChordStarts(d, x, y, num, k) == all[i..]
    ensures all[i] == Pt(x, y) && all[..i + 1] == all[..i] + [Pt(x, y)]
  {
    assert all[i..][0] == all[i];
  }

  /** After the pass, the cursor (x', y', num') has the remaining starts ahead of it. */
  lemma ChordSliceNext(d: Dda, x: int, y: int, num: int, x': int, y': int, num': int, k: nat, rest: nat, all: seq<Pt>, i: nat)
    requires k == rest + 1 && i < |all| && ChordStarts(d, x, y, num, k) == all[i..]
    requires var over := num + d.numadd >= d.den;
             x' == (if over then x + d.xinc1 else x) + d.xinc2 &&
             y' == (if over then y + d.yinc1 else y) + d.yinc2 &&
             num' == (if over then num + d.numadd - d.den else num + d.numadd)
    ensures ChordStarts(d, x', y', num', rest) == all[i + 1..]
  {
    ChordStartsNext(d, x, y, num, k);
    assert all[i + 1..] == all[i..][1..];
  }

  /** The chord start points of filltriangle: max(|x2-x1|, |y2-y1|) + 1 of them. */
  function TriangleStarts(x1: int, y1: int, x2: int, y2: int): seq<Pt>
  {
    var (d, num0, numpixels) := DdaSetup(x1, y1, x2, y2);
    ChordStarts(d, x1, y1, num0, numpixels + 1)
  }

  /**
   * Independent description of the i-th chord start: i steps along the
   * major axis and floor((num0 + i*numadd) / den) steps along the minor one.
   */
  function ChordPoint(d: Dda, x: int, y: int, num: int, i: nat): Pt
    requires d.den > 0
  {
    var q := (num + i * d.numadd) / d.den;
    Pt(x + i * d.xinc2 + q * d.xinc1, y + i * d.yinc2 + q * d.yinc1)
  }

  /** The quotient of the closed form drops by one exactly when the pass overflows. */
  lemma QuotientShift(num: int, numadd: int, den: int, i: nat)
    requires den > 0 && 0 <= numadd <= den && 0 <= num < den && i > 0
    ensures var num1 := num + numadd;
            var num2 := if num1 >= den then num1 - den else num1;
            (num + i * numadd) / den == (num2 + (i - 1) * numadd) / den + (if num1 >= den then 1 else 0)
  {
    var num1 := num + numadd;
    var num2 := if num1 >= den then num1 - den else num1;
    var a := num2 + (i - 1) * numadd;
    MulPred(i, numadd);
    assert a >= 0;
    if num1 >= den {
      assert num + i * numadd == a + den;
      DivStep(a, den);
    } else {
      assert num + i * numadd == a;
    }
  }

  /** One coordinate of the closed form after moving the origin by one pass. */
  lemma AffineShift(x: int, i: int, q: int, o: int, inc1: int, inc2: int)
    ensures x + i * inc2 + q * inc1 == (x + o * inc1 + inc2) + (i - 1) * inc2 + (q - o) * inc1
  {
    MulPred(i, inc2);
    assert (q - o) * inc1 == q * inc1 - o * inc1;
  }

  /** The closed form seen from the next pass: start i is start i-1 of the remaining sweep. */
  lemma ChordPointShift(d: Dda, x: int, y: int, num: int, i: nat)
    requires d.den > 0 && 0 <= d.numadd <= d.den && 0 <= num < d.den && i > 0
    ensures var num1 := num + d.numadd;
            var over := num1 >= d.den;
            ChordPoint(d, x, y, num, i) ==
              ChordPoint(d, (if over then x + d.xinc1 else x) + d.xinc2,
                            (if over then y + d.yinc1 else y) + d.yinc2,
                            if over then num1 - d.den else num1, i - 1)
  {
    var num1 := num + d.numadd;
    var o := if num1 >= d.den then 1 else 0;
    var num2 := if num1 >= d.den then num1 - d.den else num1;
    QuotientShift(num, d.numadd, d.den, i);
    var q := (num + i * d.numadd) / d.den;
    assert (num2 + (i - 1) * d.numadd) / d.den == q - o;
    AffineShift(x, i, q, o, d.xinc1, d.xinc2);
    AffineShift(y, i, q, o, d.yinc1, d.yinc2);
  }

  /** Start 0 of the closed form is the current position. */
  lemma ChordPointFirst(d: Dda, x: int, y: int, num: int)
    requires d.den > 0 && 0 <= num < d.den
    ensures ChordPoint(d, x, y, num, 0) == Pt(x, y)
  {
    DivUnique(num + 0 * d.numadd, d.den, 0, num);
  }

  lemma {:induction false} ChordStartsAt(d: Dda, x: int, y: int, num: int, k: nat, i: nat)
    requires d.den > 0 && 0 <= d.numadd <= d.den && 0 <= num < d.den
    requires i < k
    ensures ChordStarts(d, x, y, num, k)[i] == ChordPoint(d, x, y, num, i)
    decreases k
  {
    ChordStartsNext(d, x, y, num, k);
    if i == 0 {
      ChordPointFirst(d, x, y, num);
    } else {
      var num1 := num + d.numadd;
      var over := num1 >= d.den;
      var num2 := if over then num1 - d.den else num1;
      var x' := (if over then x + d.xinc1 else x) + d.xinc2;
      var y' := (if over then y + d.yinc1 else y) + d.yinc2;
      ChordStartsAt(d, x', y', num2, k - 1, i - 1);
      ChordPointShift(d, x, y, num, i);
    }
  }

  /**
   * filltriangle draws max(|x2-x1|, |y2-y1|) + 1 chords, the first from
   * (x1,y1) and the last from (x2,y2), and the chord starts follow the
   * closed form ChordPoint.
   */
  lemma TriangleSweep(x1: int, y1: int, x2: int, y2: int)
    ensures |TriangleStarts(x1, y1, x2, y2)| == Max(Abs(x2 - x1), Abs(y2 - y1)) + 1
    ensures TriangleStarts(x1, y1, x2, y2)[0] == Pt(x1, y1)
    ensures TriangleStarts(x1, y1, x2, y2)[|TriangleStarts(x1, y1, x2, y2)| - 1] == Pt(x2, y2)
    ensures var (d, num0, n) := DdaSetup(x1, y1, x2, y2);
            d.den > 0 ==> forall i :: 0 <= i <= n ==> TriangleStarts(x1, y1, x2, y2)[i] == ChordPoint(d, x1, y1, num0, i)
  {
    var (d, num0, n) := DdaSetup(x1, y1, x2, y2);
    var r := TriangleStarts(x1, y1, x2, y2);
    assert r == ChordStarts(d, x1, y1, num0, n + 1);
    if d.den > 0 {
      forall i | 0 <= i <= n
        ensures r[i] == ChordPoint(d, x1, y1, num0, i)
      {
        ChordStartsAt(d, x1, y1, num0, n + 1, i);
      }
      LastChord(x1, y1, x2, y2);
    }
  }

  lemma LastChord(x1: int, y1: int, x2: int, y2: int)
    requires DdaSetup(x1, y1, x2, y2).0.den > 0
    ensures var (d, num0, n) := DdaSetup(x1, y1, x2, y2);
            ChordPoint(d, x1, y1, num0, n) == Pt(x2, y2)
  {
    var (d, num0, n) := DdaSetup(x1, y1, x2, y2);
    DivExact(num0, d.numadd, d.den);
    assert n == d.den;
    assert (num0 + n * d.numadd) / d.den == d.numadd;
    var deltax, deltay := Abs(x2 - x1), Abs(y2 - y1);
    if deltax >= deltay {
      assert n * d.xinc2 == x2 - x1;
      assert d.numadd * d.yinc1 == y2 - y1;
    } else {
      assert n * d.yinc2 == y2 - y1;
      assert d.numadd * d.xinc1 == x2 - x1;
    }
  }

  /** The chords from each start to (x3, y3); an int16 start is passed to drawline as a uint16. */
  function Fan(w: int, h: int, starts: seq<Pt>, x3: nat, y3: nat): seq<Pt>
    requires GoodPanel(w, h)
  {
    if starts == [] then []
    else LinePts(w, h, U16(starts[0].x), U16(starts[0].y), x3, y3) + Fan(w, h, starts[1..], x3, y3)
  }

  /** The points filltriangle draws: one chord to (x3, y3) per start of the sweep. */
  function FillTrianglePts(w: int, h: int, x1: nat, y1: nat, x2: nat, y2: nat, x3: nat, y3: nat): seq<Pt>
    requires GoodPanel(w, h)
  {
    Fan(w, h, TriangleStarts(x1, y1, x2, y2), x3, y3)
  }

  /** One more start adds its chord at the end of the fan. */
  lemma {:induction false} FanSnoc(w: int, h: int, starts: seq<Pt>, p: Pt, x3: nat, y3: nat)
    requires GoodPanel(w, h)
    ensures Fan(w, h, starts + [p], x3, y3) == Fan(w, h, starts, x3, y3) + LinePts(w, h, U16(p.x), U16(p.y), x3, y3)
  {
    if starts == [] {
      assert starts + [p] == [p];
      assert [p][1..] == [];
    } else {
      assert (starts + [p])[1..] == starts[1..] + [p];
      FanSnoc(w, h, starts[1..], p, x3, y3);
    }
  }

  /** Both clamped ends of every chord of the fan are drawn. */
  lemma {:induction false} FanEnds(w: int, h: int, starts: seq<Pt>, x3: nat, y3: nat, k: nat)
    requires GoodPanel(w, h) && k < |starts|
    ensures Pt(Clamp(U16(starts[k].x), w), Clamp(U16(starts[k].y), h)) in Fan(w, h, starts, x3, y3)
    ensures Pt(Clamp(x3, w), Clamp(y3, h)) in Fan(w, h, starts, x3, y3)
  {
    if k == 0 {
      LineEndpoints(w, h, U16(starts[0].x), U16(starts[0].y), x3, y3);
    } else {
      FanEnds(w, h, starts[1..], x3, y3, k - 1);
    }
  }

  /** The fan stays on the panel. */
  lemma {:induction false} FanInPanel(w: int, h: int, starts: seq<Pt>, x3: nat, y3: nat)
    requires GoodPanel(w, h)
    ensures forall p :: p in Fan(w, h, starts, x3, y3) ==> InPanel(w, h, p)
  {
    if starts != [] {
      LineInBox(w, h, U16(starts[0].x), U16(starts[0].y), x3, y3);
      FanInPanel(w, h, starts[1..], x3, y3);
    }
  }

  /**
   * filltriangle draws all three clamped corners and nothing off the
   * panel: the first chord starts at corner 1, the last at corner 2, and
   * every chord ends at corner 3.
   */
  lemma FillTriangleCorners(w: int, h: int, x1: nat, y1: nat, x2: nat, y2: nat, x3: nat, y3: nat)
    requires GoodPanel(w, h) && IsU16(x1) && IsU16(y1) && IsU16(x2) && IsU16(y2)
    ensures Pt(Clamp(x1, w), Clamp(y1, h)) in FillTrianglePts(w, h, x1, y1, x2, y2, x3, y3)
    ensures Pt(Clamp(x2, w), Clamp(y2, h)) in FillTrianglePts(w, h, x1, y1, x2, y2, x3, y3)
    ensures Pt(Clamp(x3, w), Clamp(y3, h)) in FillTrianglePts(w, h, x1, y1, x2, y2, x3, y3)
    ensures forall p :: p in FillTrianglePts(w, h, x1, y1, x2, y2, x3, y3) ==> InPanel(w, h, p)
  {
    var starts := TriangleStarts(x1, y1, x2, y2);
    TriangleSweep(x1, y1, x2, y2);
    FanEnds(w, h, starts, x3, y3, 0);
    FanEnds(w, h, starts, x3, y3, |starts| - 1);
    FanInPanel(w, h, starts, x3, y3);
  }

  // ---------------------------------------------------------------------
  // drawcircle / fillcircle: the midpoint circle
  // ---------------------------------------------------------------------

  /** The loop state of the midpoint circle: x, y, f, ddF_x and ddF_y. */
  datatype Mid = Mid(x: int, y: int, f: int, ddx: int, ddy: int)

  function MidStart(r: int): Mid
  {
    Mid(0, r, 1 - r, 1, -2 * r)
  }

  /** The tail of one pass: possibly step y down, then step x right. */
  function MidNext(m: Mid): Mid
  {
    var m1 := if m.f >= 0 then Mid(m.x, m.y - 1, m.f + (m.ddy + 2), m.ddx, m.ddy + 2) else m;
    Mid(m1.x + 1, m1.y, m1.f + (m1.ddx + 2), m1.ddx + 2, m1.ddy)
  }

  /** The radii for which every int16 accumulator of the loop stays in range. */
  predicate RadiusFits(r: int) { -16383 <= r <= 16380 }

  /**
   * The loop invariant: the step accumulators track 2x+1 and -2y, and while
   * the loop runs the decision variable stays between -2y and 2x+1.
   */
  ghost predicate MidInv(r: int, m: Mid)
  {
    && 0 <= m.x && m.y <= Max(r, 0)
    && m.ddx == 2 * m.x + 1 && m.ddy == -2 * m.y
    && (m.x <= m.y ==> -2 * m.y <= m.f <= 2 * m.x + 1)
  }

  lemma MidStartInv(r: int)
    requires RadiusFits(r)
    ensures MidInv(r, MidStart(r))
    ensures IsI16(MidStart(r).f) && IsI16(MidStart(r).ddy)
  {
  }

  /**
   * One pass keeps the invariant, moves x right by one and y down by at most
   * one, and every value the pass stores in an int16 fits.
   */
  lemma MidKeeps(r: int, m: Mid)
    requires RadiusFits(r) && MidInv(r, m) && m.x <= m.y
    ensures MidInv(r, MidNext(m))
    ensures MidNext(m).x == m.x + 1
    ensures MidNext(m).y == m.y || MidNext(m).y == m.y - 1
    ensures MidNext(m).y == m.y - 1 <==> m.f >= 0
    ensures IsI16(MidNext(m).x) && IsI16(MidNext(m).y) && IsI16(MidNext(m).f)
    ensures IsI16(MidNext(m).ddx) && IsI16(MidNext(m).ddy)
    ensures m.f >= 0 ==> IsI16(m.f + (m.ddy + 2))
  {
  }

  /** The points (x, y) at the head of every pass, in order. */
  function MidSteps(r: int, m: Mid): seq<Pt>
    requires RadiusFits(r) && MidInv(r, m)
    decreases if m.x <= m.y then m.y - m.x + 1 else 0
  {
    if m.x > m.y then []
    else
      MidKeeps(r, m);
      [Pt(m.x, m.y)] + MidSteps(r, MidNext(m))
  }

  /** A pass that runs computes (x, y) and continues from MidNext. */
  lemma MidStepsNext(r: int, m: Mid)
    requires RadiusFits(r) && MidInv(r, m) && m.x <= m.y
    ensures MidInv(r, MidNext(m))
    ensures MidSteps(r, m) == [Pt(m.x, m.y)] + MidSteps(r, MidNext(m))
  {
    MidKeeps(r, m);
  }

  /** After a pass, the computed points so far are one longer and the rest follow MidNext. */
  lemma MidAdvance(r: int, done: seq<Pt>, m: Mid)
    requires RadiusFits(r) && MidInv(r, m) && m.x <= m.y && MidInv(r, MidStart(r))
    requires done + MidSteps(r, m) == MidSteps(r, MidStart(r))
    ensures MidInv(r, MidNext(m))
    ensures (done + [Pt(m.x, m.y)]) + MidSteps(r, MidNext(m)) == MidSteps(r, MidStart(r))
  {
    MidStepsNext(r, m);
    assert (done + [Pt(m.x, m.y)]) + MidSteps(r, MidNext(m)) == done + ([Pt(m.x, m.y)] + MidSteps(r, MidNext(m)));
  }

  /** A panel point from a signed sum passed to a uint16 parameter. */
  function P16(x: int, y: int): Pt
  {
    Pt(U16(x), U16(y))
  }

  /** The eight reflections drawcircle plots for one computed (x, y). */
  function Octants(x0: int, y0: int, x: int, y: int): seq<Pt>
  {
    [P16(x0 + x, y0 + y), P16(x0 - x, y0 + y), P16(x0 + x, y0 - y), P16(x0 - x, y0 - y),
     P16(x0 + y, y0 + x), P16(x0 - y, y0 + x), P16(x0 + y, y0 - x), P16(x0 - y, y0 - x)]
  }

  /** Four of them: (x, y) reflected through both axes about the centre. */
  function Reflections(x0: int, y0: int, a: int, b: int): seq<Pt>
  {
    [P16(x0 + a, y0 + b), P16(x0 - a, y0 + b), P16(x0 + a, y0 - b), P16(x0 - a, y0 - b)]
  }

  /** The octants are the axis reflections of (x, y), then those of (y, x). */
  lemma OctantsHalves(x0: int, y0: int, x: int, y: int)
    ensures Octants(x0, y0, x, y) == Reflections(x0, y0, x, y) + Reflections(x0, y0, y, x)
  {
  }

  /** The four horizontal chords fillcircle draws for one computed (x, y). */
  function Chords(w: int, h: int, x0: int, y0: int, x: int, y: int): seq<Pt>
    requires GoodPanel(w, h)
  {
    LinePts(w, h, U16(x0 - x), U16(y0 + y), U16(x0 + x), U16(y0 + y))
    + LinePts(w, h, U16(x0 + x), U16(y0 - y), U16(x0 - x), U16(y0 - y))
    + LinePts(w, h, U16(x0 + y), U16(y0 + x), U16(x0 - y), U16(y0 + x))
    + LinePts(w, h, U16(x0 + y), U16(y0 - x), U16(x0 - y), U16(y0 - x))
  }

  function StrokeOf(x0: int, y0: int, qs: seq<Pt>): seq<Pt>
  {
    if qs == [] then [] else Octants(x0, y0, qs[0].x, qs[0].y) + StrokeOf(x0, y0, qs[1..])
  }

  function ChordsOf(w: int, h: int, x0: int, y0: int, qs: seq<Pt>): seq<Pt>
    requires GoodPanel(w, h)
  {
    if qs == [] then [] else Chords(w, h, x0, y0, qs[0].x, qs[0].y) + ChordsOf(w, h, x0, y0, qs[1..])
  }

  lemma {:induction false} StrokeSnoc(x0: int, y0: int, qs: seq<Pt>, q: Pt)
    ensures StrokeOf(x0, y0, qs + [q]) == StrokeOf(x0, y0, qs) + Octants(x0, y0, q.x, q.y)
  {
    if qs == [] {
      assert qs + [q] == [q];
      assert [q][1..] == [];
    } else {
      assert (qs + [q])[1..] == qs[1..] + [q];
      StrokeSnoc(x0, y0, qs[1..], q);
    }
  }

  lemma {:induction false} ChordsSnoc(w: int, h: int, x0: int, y0: int, qs: seq<Pt>, q: Pt)
    requires GoodPanel(w, h)
    ensures ChordsOf(w, h, x0, y0, qs + [q]) == ChordsOf(w, h, x0, y0, qs) + Chords(w, h, x0, y0, q.x, q.y)
  {
    if qs == [] {
      assert qs + [q] == [q];
      assert [q][1..] == [];
    } else {
      assert (qs + [q])[1..] == qs[1..] + [q];
      ChordsSnoc(w, h, x0, y0, qs[1..], q);
    }
  }

  /** The points drawcircle(x0, y0, r) hands to drawpixel. */
  function CirclePts(x0: int, y0: int, r: int): seq<Pt>
    requires RadiusFits(r)
  {
    MidStartInv(r);
    StrokeOf(x0, y0, MidSteps(r, MidStart(r)))
  }

  /** The points fillcircle(x0, y0, r) draws through its chords. */
  function DiscPts(w: int, h: int, x0: int, y0: int, r: int): seq<Pt>
    requires GoodPanel(w, h) && RadiusFits(r)
  {
    MidStartInv(r);
    ChordsOf(w, h, x0, y0, MidSteps(r, MidStart(r)))
  }

  /**
   * The computed points start at (0, r) and each next one is one column to
   * the right and at most one row lower; all of them satisfy 0 <= x <= y.
   */
  lemma {:induction false} MidStepsShape(r: int, m: Mid)
    requires RadiusFits(r) && MidInv(r, m)
    ensures m.x <= m.y ==> |MidSteps(r, m)| >= 1 && MidSteps(r, m)[0] == Pt(m.x, m.y)
    ensures forall q :: q in MidSteps(r, m) ==> m.x <= q.x <= q.y <= m.y
    ensures forall k :: 0 <= k < |MidSteps(r, m)| - 1 ==>
              MidSteps(r, m)[k + 1].x == MidSteps(r, m)[k].x + 1 &&
              MidSteps(r, m)[k].y - 1 <= MidSteps(r, m)[k + 1].y <= MidSteps(r, m)[k].y
    decreases if m.x <= m.y then m.y - m.x + 1 else 0
  {
    if m.x <= m.y {
      MidKeeps(r, m);
      var n := MidNext(m);
      MidStepsShape(r, n);
      var t := MidSteps(r, n);
      var s := MidSteps(r, m);
      assert s == [Pt(m.x, m.y)] + t;
      forall k | 0 <= k < |s| - 1
        ensures s[k + 1].x == s[k].x + 1 && s[k].y - 1 <= s[k + 1].y <= s[k].y
      {
        if k > 0 {
          assert s[k] == t[k - 1] && s[k + 1] == t[k];
        }
      }
    }
  }

  /** A circle of radius 0 plots only its centre (eight times). */
  lemma CircleOfRadiusZero(x0: int, y0: int)
    ensures |CirclePts(x0, y0, 0)| == 8
    ensures forall o :: o in CirclePts(x0, y0, 0) ==> o == P16(x0, y0)
  {
    var m := MidStart(0);
    var n := MidNext(m);
    assert n == Mid(1, -1, 6, 3, 2);
    assert MidSteps(0, n) == [];
    assert MidSteps(0, m) == [Pt(0, 0)];
    assert StrokeOf(x0, y0, [Pt(0, 0)]) == Octants(x0, y0, 0, 0) + StrokeOf(x0, y0, []);
  }

  /** All eight reflections of every computed point are plotted. */
  lemma {:induction false} StrokeHasReflections(x0: int, y0: int, qs: seq<Pt>, k: nat)
    requires k < |qs|
    ensures forall o :: o in Octants(x0, y0, qs[k].x, qs[k].y) ==> o in StrokeOf(x0, y0, qs)
  {
    if k > 0 {
      StrokeHasReflections(x0, y0, qs[1..], k - 1);
    }
  }

  /** An endpoint of a segment that is already on the panel is drawn unchanged. */
  lemma EndsDrawn(w: int, h: int, ax: nat, ay: nat, xb: nat, yb: nat)
    requires GoodPanel(w, h)
    ensures InPanel(w, h, Pt(ax, ay)) ==> Pt(ax, ay) in LinePts(w, h, ax, ay, xb, yb)
    ensures InPanel(w, h, Pt(xb, yb)) ==> Pt(xb, yb) in LinePts(w, h, ax, ay, xb, yb)
  {
    LineEndpoints(w, h, ax, ay, xb, yb);
  }

  lemma EndsOfFour(w: int, h: int, xm: nat, xp: nat, ym: nat, yp: nat, xm': nat, xp': nat, ym': nat, yp': nat)
    requires GoodPanel(w, h)
    ensures forall o :: o in [Pt(xp, yp), Pt(xm, yp), Pt(xp, ym), Pt(xm, ym),
                              Pt(xp', yp'), Pt(xm', yp'), Pt(xp', ym'), Pt(xm', ym')] && InPanel(w, h, o) ==>
              o in LinePts(w, h, xm, yp, xp, yp) + LinePts(w, h, xp, ym, xm, ym)
                   + LinePts(w, h, xp', yp', xm', yp') + LinePts(w, h, xp', ym', xm', ym')
  {
    EndsDrawn(w, h, xm, yp, xp, yp);
    EndsDrawn(w, h, xp, ym, xm, ym);
    EndsDrawn(w, h, xp', yp', xm', yp');
    EndsDrawn(w, h, xp', ym', xm', ym');
  }

  /** A point on the panel is the endpoint of a chord it lies on. */
  lemma ChordEnds(w: int, h: int, x0: int, y0: int, q: Pt)
    requires GoodPanel(w, h)
    ensures forall o :: o in Octants(x0, y0, q.x, q.y) && InPanel(w, h, o) ==> o in Chords(w, h, x0, y0, q.x, q.y)
  {
    var xm, xp, ym, yp := U16(x0 - q.x), U16(x0 + q.x), U16(y0 - q.y), U16(y0 + q.y);
    var xm', xp', ym', yp' := U16(x0 - q.y), U16(x0 + q.y), U16(y0 - q.x), U16(y0 + q.x);
    assert Octants(x0, y0, q.x, q.y) == [Pt(xp, yp), Pt(xm, yp), Pt(xp, ym), Pt(xm, ym),
                                  Pt(xp', yp'), Pt(xm', yp'), Pt(xp', ym'), Pt(xm', ym')];
    assert Chords(w, h, x0, y0, q.x, q.y) == LinePts(w, h, xm, yp, xp, yp) + LinePts(w, h, xp, ym, xm, ym)
                                      + LinePts(w, h, xp', yp', xm', yp') + LinePts(w, h, xp', ym', xm', ym');
    EndsOfFour(w, h, xm, xp, ym, yp, xm', xp', ym', yp');
  }

  lemma {:induction false} StrokeWithinChords(w: int, h: int, x0: int, y0: int, qs: seq<Pt>)
    requires GoodPanel(w, h)
    ensures forall o :: o in StrokeOf(x0, y0, qs) && InPanel(w, h, o) ==> o in ChordsOf(w, h, x0, y0, qs)
  {
    if qs != [] {
      ChordEnds(w, h, x0, y0, qs[0]);
      StrokeWithinChords(w, h, x0, y0, qs[1..]);
    }
  }

  /**
   * Every panel pixel drawcircle plots is also drawn by fillcircle with the
   * same arguments: each plotted point is an endpoint of one of the four
   * chords of its pass.
   */
  lemma CircleWithinDisc(w: int, h: int, x0: int, y0: int, r: int)
    requires GoodPanel(w, h) && RadiusFits(r)
    ensures forall o :: o in CirclePts(x0, y0, r) && InPanel(w, h, o) ==> o in DiscPts(w, h, x0, y0, r)
  {
    MidStartInv(r);
    StrokeWithinChords(w, h, x0, y0, MidSteps(r, MidStart(r)));
  }
}
