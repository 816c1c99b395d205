/**
 * The sushi "second hand": an animation value `progress` in [0, 4] is mapped
 * onto the border of the `W x H` box, one edge per unit, clockwise from the
 * top-left corner. Float arithmetic is modelled over `real`; the animation
 * that produces `progress` is an input.
 */
module SushiClock {

  /** The glyph is drawn 60 units large; its offset is shifted by half of that. */
  const ICON_SIZE: int := 60

  /** A position in pixels, the `Pair(x, y)` the `when` returns. */
  datatype Point = Point(x: real, y: real)

  /** Compose's `IntOffset`. */
  datatype IntOffset = IntOffset(x: int, y: int)

  /**
   * The formula of arm `k` of the source's `when` (0 top, 1 right, 2 bottom,
   * 3 left), each one edge of the box traversed as `progress` runs over
   * [k, k + 1].
   */
  function Edge(k: nat, progress: real, w: real, h: real): (p: Point)
    requires k < 4
  {
    if k == 0 then Point(w * progress, 0.0)
    else if k == 1 then Point(w, h * (progress - 1.0))
    else if k == 2 then Point(w * (1.0 - (progress - 2.0)), h)
    else Point(0.0, h * (1.0 - (progress - 3.0)))
  }

  /** The progress value at which edge `k` starts: the corner `k`. */
  function EdgeStart(k: nat): real
    requires k <= 4
  {
    if k == 0 then 0.0 else if k == 1 then 1.0 else if k == 2 then 2.0 else if k == 3 then 3.0 else 4.0
  }

  /**
   * The sushi position for a box of `w x h` pixels (the Int constraints,
   * widened to Float before the multiplication): the first arm whose bound
   * `progress <= 1, 2, 3` holds, else the last. Every arm keeps one
   * coordinate on an edge of the box, so the point is always on the boundary
   * lines; for progress in [0, 4] it also lies inside the box.
   */
  function SushiPosition(progress: real, w: real, h: real): (p: Point)
    ensures p.x == 0.0 || p.x == w || p.y == 0.0 || p.y == h
    ensures 0.0 <= progress <= 4.0 && 0.0 <= w && 0.0 <= h ==>
      0.0 <= p.x <= w && 0.0 <= p.y <= h
  {
    if progress <= 1.0 then EdgeInBox(0, progress, w, h); Edge(0, progress, w, h)
    else if progress <= 2.0 then EdgeInBox(1, progress, w, h); Edge(1, progress, w, h)
    else if progress <= 3.0 then EdgeInBox(2, progress, w, h); Edge(2, progress, w, h)
    else EdgeInBox(3, progress, w, h); Edge(3, progress, w, h)
  }

  /** Arm `k`, used on its own unit of progress, stays inside a box of non-negative size. */
  lemma EdgeInBox(k: nat, progress: real, w: real, h: real)
    requires k < 4
    ensures 0.0 <= w && 0.0 <= h && EdgeStart(k) <= progress <= EdgeStart(k + 1) ==>
      0.0 <= Edge(k, progress, w, h).x <= w && 0.0 <= Edge(k, progress, w, h).y <= h
  {
    if !(0.0 <= w && 0.0 <= h && EdgeStart(k) <= progress <= EdgeStart(k + 1)) {
      return;
    }
    var t := progress - EdgeStart(k);
    assert 0.0 <= t <= 1.0;
    assert 0.0 <= w * t <= w by { ScaleBetween(w, t); }
    assert 0.0 <= h * t <= h by { ScaleBetween(h, t); }
    assert 0.0 <= w * (1.0 - t) <= w by { ScaleBetween(w, 1.0 - t); }
    assert 0.0 <= h * (1.0 - t) <= h by { ScaleBetween(h, 1.0 - t); }
  }

  lemma ScaleBetween(a: real, t: real)
    requires 0.0 <= a && 0.0 <= t <= 1.0
    ensures 0.0 <= a * t <= a
  {
    assert a * t <= a * 1.0;
  }

  /** `x = a * s` and `y = a * t` keep the order of `s` and `t` when `a` is not negative. */
  lemma ScaledOrder(a: real, s: real, t: real, x: real, y: real)
    requires 0.0 <= a && s <= t && x == a * s && y == a * t
    ensures x <= y
  {
    assert a * t - a * s == a * (t - s);
  }

  /** `x = a * t` lies in [0, a] when `t` is in [0, 1] and `a` is not negative. */
  lemma ScaledBetween(a: real, t: real, x: real)
    requires 0.0 <= a && 0.0 <= t <= 1.0 && x == a * t
    ensures 0.0 <= x <= a
  {
    ScaleBetween(a, t);
  }

  /** The corners: 0 top-left, 1 top-right, 2 bottom-right, 3 bottom-left, 4 top-left again. */
  lemma Corners(w: real, h: real)
    ensures SushiPosition(0.0, w, h) == Point(0.0, 0.0)
    ensures SushiPosition(1.0, w, h) == Point(w, 0.0)
    ensures SushiPosition(2.0, w, h) == Point(w, h)
    ensures SushiPosition(3.0, w, h) == Point(0.0, h)
    ensures SushiPosition(4.0, w, h) == Point(0.0, 0.0)
  {
  }

  /** At 1, 2 and 3 the arm the `<=` picks and the next arm's formula agree. */
  lemma Continuity(k: nat, w: real, h: real)
    requires k < 3
    ensures Edge(k, EdgeStart(k + 1), w, h) == Edge(k + 1, EdgeStart(k + 1), w, h)
  {
    if k == 0 {
      assert Edge(1, 1.0, w, h) == Point(w, h * 0.0);
    } else if k == 1 {
      assert Edge(2, 2.0, w, h) == Point(w * 1.0, h);
    } else {
      assert Edge(3, 3.0, w, h) == Point(0.0, h * 1.0);
      assert Edge(2, 3.0, w, h) == Point(w * 0.0, h);
    }
  }

  // Clockwise travel, edge by edge.

  /** Along the top edge x grows. */
  lemma TopEdgeRightward(p: real, q: real, w: real, h: real)
    requires 0.0 <= w && 0.0 <= p <= q <= 1.0
    ensures SushiPosition(p, w, h).x <= SushiPosition(q, w, h).x
  {
    ScaledOrder(w, p, q, SushiPosition(p, w, h).x, SushiPosition(q, w, h).x);
  }

  /** Down the right edge y grows (progress 1.0 itself is still drawn by the top arm, at y = 0). */
  lemma RightEdgeDownward(p: real, q: real, w: real, h: real)
    requires 0.0 <= h && 1.0 <= p <= q <= 2.0
    ensures SushiPosition(p, w, h).y <= SushiPosition(q, w, h).y
  {
    if q == 1.0 {
      assert p == 1.0;
    } else if p == 1.0 {
      ScaledBetween(h, q - 1.0, SushiPosition(q, w, h).y);
    } else {
      ScaledOrder(h, p - 1.0, q - 1.0, SushiPosition(p, w, h).y, SushiPosition(q, w, h).y);
    }
  }

  /** Along the bottom edge x shrinks (progress 2.0 is drawn by the right arm, at x = w). */
  lemma BottomEdgeLeftward(p: real, q: real, w: real, h: real)
    requires 0.0 <= w && 2.0 <= p <= q <= 3.0
    ensures SushiPosition(p, w, h).x >= SushiPosition(q, w, h).x
  {
    if q == 2.0 {
      assert p == 2.0;
    } else if p == 2.0 {
      ScaledBetween(w, 1.0 - (q - 2.0), SushiPosition(q, w, h).x);
    } else {
      ScaledOrder(w, 1.0 - (q - 2.0), 1.0 - (p - 2.0), SushiPosition(q, w, h).x, SushiPosition(p, w, h).x);
    }
  }

  /** Up the left edge y shrinks (progress 3.0 is drawn by the bottom arm, at y = h). */
  lemma LeftEdgeUpward(p: real, q: real, w: real, h: real)
    requires 0.0 <= h && 3.0 <= p <= q <= 4.0
    ensures SushiPosition(p, w, h).y >= SushiPosition(q, w, h).y
  {
    if q == 3.0 {
      assert p == 3.0;
    } else if p == 3.0 {
      ScaledBetween(h, 1.0 - (q - 3.0), SushiPosition(q, w, h).y);
    } else {
      ScaledOrder(h, 1.0 - (q - 3.0), 1.0 - (p - 3.0), SushiPosition(q, w, h).y, SushiPosition(p, w, h).y);
    }
  }

  /** `Float.roundToInt()`: the nearest integer, halves rounded up. */
  function RoundToInt(x: real): (n: int)
    ensures x - 0.5 < n as real <= x + 0.5
  {
    (x + 0.5).Floor
  }

  /** The `IntOffset` of the glyph: the rounded position minus half the icon size. */
  function IconOffset(p: Point): (offset: IntOffset)
    ensures p.x - 0.5 < (offset.x + ICON_SIZE / 2) as real <= p.x + 0.5
    ensures p.y - 0.5 < (offset.y + ICON_SIZE / 2) as real <= p.y + 0.5
  {
    IntOffset(RoundToInt(p.x) - ICON_SIZE / 2, RoundToInt(p.y) - ICON_SIZE / 2)
  }
}
