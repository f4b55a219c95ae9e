/** The chart's coordinate maps: price scale, bar slots, time labels. */
module ChartGeometry {
  import opened Common
  import opened Viewport

  const MAIN_TOP := 8.0

  // --------------------------------------------------------------- price range

  predicate Accepted(level: Option<real>) { level.Some? && level.value > 0.0 }

  /** Everything that can pull the lower edge of the scale down. */
  ghost predicate LowSource(bars: seq<Bar>, lower: Series, levels: Series, v: real) {
    || (exists i :: 0 <= i < |bars| && bars[i].low == v)
    || Some(v) in lower
    || (Some(v) in levels && v > 0.0)
  }

  /** Everything that can push the upper edge of the scale up. */
  ghost predicate HighSource(bars: seq<Bar>, upper: Series, levels: Series, v: real) {
    || (exists i :: 0 <= i < |bars| && bars[i].high == v)
    || Some(v) in upper
    || (Some(v) in levels && v > 0.0)
  }

  ghost predicate IsRange(bars: seq<Bar>, lower: Series, upper: Series, levels: Series, lo: real, hi: real) {
    && LowSource(bars, lower, levels, lo) && (forall v :: LowSource(bars, lower, levels, v) ==> lo <= v)
    && HighSource(bars, upper, levels, hi) && (forall v :: HighSource(bars, upper, levels, v) ==> v <= hi)
  }

  /** `Infinity` and `-Infinity` before the first bar are None. */
  function Lower(edge: Option<real>, v: real): Option<real> {
    if edge == None || v < edge.value then Some(v) else edge
  }

  function Higher(edge: Option<real>, v: real): Option<real> {
    if edge == None || v > edge.value then Some(v) else edge
  }

  /** The three min/max scans: visible bars, shown bands, accepted levels. */
  method PriceRange(bars: seq<Bar>, lower: Series, upper: Series, levels: Series) returns (lo: real, hi: real)
    requires bars != []
    ensures IsRange(bars, lower, upper, levels, lo, hi)
  {
    var l: Option<real>, h: Option<real> := None, None;
    for i := 0 to |bars|
      invariant l.Some? <==> i > 0
      invariant h.Some? <==> i > 0
      invariant l.Some? ==> LowSource(bars, [], [], l.value) && forall k :: 0 <= k < i ==> l.value <= bars[k].low
      invariant h.Some? ==> HighSource(bars, [], [], h.value) && forall k :: 0 <= k < i ==> bars[k].high <= h.value
    {
      l := Lower(l, bars[i].low);
      h := Higher(h, bars[i].high);
    }
    lo, hi := l.value, h.value;
    for i := 0 to |lower|
      invariant LowSource(bars, lower, [], lo)
      invariant forall k :: 0 <= k < |bars| ==> lo <= bars[k].low
      invariant forall k :: 0 <= k < i && lower[k].Some? ==> lo <= lower[k].value
    {
      if lower[i].Some? && lower[i].value < lo {
        lo := lower[i].value;
      }
    }
    for i := 0 to |upper|
      invariant HighSource(bars, upper, [], hi)
      invariant forall k :: 0 <= k < |bars| ==> bars[k].high <= hi
      invariant forall k :: 0 <= k < i && upper[k].Some? ==> upper[k].value <= hi
    {
      if upper[i].Some? && upper[i].value > hi {
        hi := upper[i].value;
      }
    }
    for i := 0 to |levels|
      invariant LowSource(bars, lower, levels, lo) && HighSource(bars, upper, levels, hi)
      invariant forall k :: 0 <= k < |bars| ==> lo <= bars[k].low && bars[k].high <= hi
      invariant forall k :: 0 <= k < |lower| && lower[k].Some? ==> lo <= lower[k].value
      invariant forall k :: 0 <= k < |upper| && upper[k].Some? ==> upper[k].value <= hi
      invariant forall k :: 0 <= k < i && Accepted(levels[k]) ==> lo <= levels[k].value <= hi
    {
      if Accepted(levels[i]) {
        lo := if levels[i].value < lo then levels[i].value else lo;
        hi := if levels[i].value > hi then levels[i].value else hi;
      }
    }
  }

  // --------------------------------------------------------------- price scale

  /** `(hi - lo) * 0.04 || hi * 0.001 || 1`. */
  function Padding(lo: real, hi: real): real {
    if hi != lo then (hi - lo) * 0.04 else if hi != 0.0 then hi * 0.001 else 1.0
  }

  datatype Scale = Scale(lo: real, hi: real)

  function Padded(lo: real, hi: real): Scale { Scale(lo - Padding(lo, hi), hi + Padding(lo, hi)) }

  function YMain(s: Scale, mainH: real, v: real): real
    requires s.lo != s.hi
  {
    MAIN_TOP + (1.0 - (v - s.lo) / (s.hi - s.lo)) * mainH
  }

  lemma DivideBy(a: real, b: real, d: real)
    requires d > 0.0
    ensures a < b <==> a / d < b / d
    ensures a == d ==> a / d == 1.0
    ensures a == 0.0 ==> a / d == 0.0
  {
    var x, y := a / d, b / d;
    assert x * d == a && y * d == b;
    if x < y {
      assert (y - x) * d > 0.0;
    } else {
      assert (x - y) * d >= 0.0;
    }
  }

  /** On a proper scale, higher prices are drawn strictly higher. */
  lemma YMainReverses(s: Scale, mainH: real, v: real, w: real)
    requires s.lo < s.hi && mainH > 0.0
    ensures v < w <==> YMain(s, mainH, v) > YMain(s, mainH, w)
  {
    var d := s.hi - s.lo;
    DivideBy(v - s.lo, w - s.lo, d);
    ScaleBy(1.0 - (w - s.lo) / d, 1.0 - (v - s.lo) / d, mainH);
  }

  lemma YMainEdges(s: Scale, mainH: real)
    requires s.lo < s.hi
    ensures YMain(s, mainH, s.lo) == MAIN_TOP + mainH && YMain(s, mainH, s.hi) == MAIN_TOP
  {
    DivideBy(0.0, 0.0, s.hi - s.lo);
    DivideBy(s.hi - s.lo, 0.0, s.hi - s.lo);
  }

  predicate Inside(s: Scale, mainH: real, v: real)
    requires s.lo != s.hi
  {
    MAIN_TOP < YMain(s, mainH, v) < MAIN_TOP + mainH
  }

  /** The padded range is a proper scale exactly when prices differ or the one
      price is not negative; otherwise the padding turns the scale over. */
  lemma ProperScaleIff(lo: real, hi: real)
    requires lo <= hi
    ensures Padded(lo, hi).lo < Padded(lo, hi).hi <==> lo < hi || hi >= 0.0
    ensures Padded(lo, hi).lo != Padded(lo, hi).hi
    ensures lo < hi || hi >= 0.0 ==> Padded(lo, hi).lo < lo && hi < Padded(lo, hi).hi
  {
  }

  /** A value is drawn inside the panel exactly when it lies inside the scale,
      below its upper edge exactly when under it, and so on. */
  /** With no prices but zero the scale runs from -1 to 1; otherwise it is padded by
      four percent of the range, or a thousandth of the one price. */
  lemma ScaleExamples()
    ensures Padded(0.0, 0.0) == Scale(-1.0, 1.0)
    ensures Padded(100.0, 200.0) == Scale(96.0, 204.0) && Padded(100.0, 100.0) == Scale(99.9, 100.1)
    ensures YMain(Scale(-1.0, 1.0), 300.0, 1.0) == 8.0 && YMain(Scale(-1.0, 1.0), 300.0, -1.0) == 308.0
  {
    YMainEdges(Scale(-1.0, 1.0), 300.0);
  }

  lemma InsideIff(s: Scale, mainH: real, v: real)
    requires s.lo < s.hi && mainH > 0.0
    ensures MAIN_TOP < YMain(s, mainH, v) <==> v < s.hi
    ensures YMain(s, mainH, v) < MAIN_TOP + mainH <==> s.lo < v
    ensures Inside(s, mainH, v) <==> s.lo < v < s.hi
  {
    YMainEdges(s, mainH);
    YMainReverses(s, mainH, s.lo, v);
    YMainReverses(s, mainH, v, s.hi);
  }

  lemma SourcesBounded(bars: seq<Bar>, lower: Series, upper: Series, levels: Series, lo: real, hi: real)
    requires bars != [] && IsRange(bars, lower, upper, levels, lo, hi)
    ensures forall i :: 0 <= i < |bars| ==> lo <= bars[i].low && bars[i].high <= hi
    ensures forall i :: 0 <= i < |levels| && Accepted(levels[i]) ==> lo <= levels[i].value <= hi
    ensures forall i :: 0 <= i < |lower| && lower[i].Some? ==> lo <= lower[i].value
    ensures forall i :: 0 <= i < |upper| && upper[i].Some? ==> upper[i].value <= hi
  {
    forall i | 0 <= i < |bars| ensures lo <= bars[i].low && bars[i].high <= hi {
      assert LowSource(bars, lower, levels, bars[i].low) && HighSource(bars, upper, levels, bars[i].high);
    }
    forall i | 0 <= i < |levels| && Accepted(levels[i]) ensures lo <= levels[i].value <= hi {
      assert Some(levels[i].value) in levels;
      assert LowSource(bars, lower, levels, levels[i].value) && HighSource(bars, upper, levels, levels[i].value);
    }
    forall i | 0 <= i < |lower| && lower[i].Some? ensures lo <= lower[i].value {
      assert Some(lower[i].value) in lower;
      assert LowSource(bars, lower, levels, lower[i].value);
    }
    forall i | 0 <= i < |upper| && upper[i].Some? ensures upper[i].value <= hi {
      assert Some(upper[i].value) in upper;
      assert HighSource(bars, upper, levels, upper[i].value);
    }
  }

  predicate Between(lower: Option<real>, v: real, upper: Option<real>) {
    lower.Some? && upper.Some? && lower.value <= v <= upper.value
  }

  /** For positive prices what the scans look at fits: every bar and accepted
      level is drawn strictly inside the price panel, flat data included.  No lower band value is drawn below
      the panel and no upper one above it, partner or not; between a lower band
      and an upper one every value, such as the middle band, is drawn inside. */
  lemma ScannedInside(bars: seq<Bar>, lower: Series, upper: Series, levels: Series, lo: real, hi: real, mainH: real)
    requires bars != [] && mainH > 0.0 && |lower| == |upper|
    requires forall i :: 0 <= i < |bars| ==> 0.0 < bars[i].low <= bars[i].high
    requires IsRange(bars, lower, upper, levels, lo, hi)
    ensures var s := Padded(lo, hi);
            && s.lo < s.hi
            && (forall i :: 0 <= i < |bars| ==> Inside(s, mainH, bars[i].low) && Inside(s, mainH, bars[i].high))
            && (forall i :: 0 <= i < |levels| && Accepted(levels[i]) ==> Inside(s, mainH, levels[i].value))
            && (forall i :: 0 <= i < |lower| && lower[i].Some? ==> YMain(s, mainH, lower[i].value) < MAIN_TOP + mainH)
            && (forall i :: 0 <= i < |upper| && upper[i].Some? ==> MAIN_TOP < YMain(s, mainH, upper[i].value))
            && (forall i, v :: 0 <= i < |lower| && Between(lower[i], v, upper[i]) ==> Inside(s, mainH, v))
  {
    var s := Padded(lo, hi);
    SourcesBounded(bars, lower, upper, levels, lo, hi);
    assert lo <= bars[0].low && bars[0].high <= hi;
    ProperScaleIff(lo, hi);
    forall v: real ensures MAIN_TOP < YMain(s, mainH, v) <==> v < s.hi
                   ensures YMain(s, mainH, v) < MAIN_TOP + mainH <==> s.lo < v {
      InsideIff(s, mainH, v);
    }
  }

  /** Whatever else is drawn with the same map, such as the moving averages, is
      inside exactly when it lies within the padding of the scanned range; for a
      band value without a partner, the edge it does not set decides. */
  lemma OverlayInsideIff(bars: seq<Bar>, lower: Series, upper: Series, levels: Series, lo: real, hi: real, mainH: real,
                         v: real)
    requires bars != [] && mainH > 0.0
    requires forall i :: 0 <= i < |bars| ==> 0.0 < bars[i].low <= bars[i].high
    requires IsRange(bars, lower, upper, levels, lo, hi)
    ensures Padded(lo, hi).lo < Padded(lo, hi).hi
    ensures Inside(Padded(lo, hi), mainH, v) <==> lo - Padding(lo, hi) < v < hi + Padding(lo, hi)
    ensures Some(v) in lower ==> (Inside(Padded(lo, hi), mainH, v) <==> v < hi + Padding(lo, hi))
    ensures Some(v) in upper ==> (Inside(Padded(lo, hi), mainH, v) <==> lo - Padding(lo, hi) < v)
  {
    assert LowSource(bars, lower, levels, bars[0].low) && HighSource(bars, upper, levels, bars[0].high);
    ProperScaleIff(lo, hi);
    InsideIff(Padded(lo, hi), mainH, v);
    if Some(v) in lower {
      assert LowSource(bars, lower, levels, v);
    }
    if Some(v) in upper {
      assert HighSource(bars, upper, levels, v);
    }
  }

  /** One bar from 1 to 2: an average at 3, or a lower band value at 3 whose upper
      partner is missing, is drawn above the panel. */
  lemma OverlayOutsideExample(mainH: real)
    requires mainH > 0.0
    ensures IsRange([Bar(0, 1.0, 2.0)], [Some(3.0)], [None], [], 1.0, 2.0)
    ensures Padded(1.0, 2.0).lo < Padded(1.0, 2.0).hi && YMain(Padded(1.0, 2.0), mainH, 3.0) < MAIN_TOP
  {
    var bars := [Bar(0, 1.0, 2.0)];
    assert bars[0].low == 1.0 && bars[0].high == 2.0;
    var s := Padded(1.0, 2.0);
    assert s == Scale(0.96, 2.04);
    YMainEdges(s, mainH);
    YMainReverses(s, mainH, s.hi, 3.0);
  }

  /** One flat negative price: the scale is turned over, and a lower price is
      drawn higher. */
  lemma TurnedOverExample()
    ensures var s := Padded(-1.0, -1.0);
            && IsRange([Bar(0, -1.0, -1.0)], [], [], [], -1.0, -1.0)
            && s.lo > s.hi && YMain(s, 100.0, -2.0) < YMain(s, 100.0, -1.0)
  {
    var s := Padded(-1.0, -1.0);
    assert [Bar(0, -1.0, -1.0)][0].low == -1.0;
    assert s == Scale(-0.999, -1.001);
    assert (-2.0 - s.lo) / (s.hi - s.lo) == 1001.0 / 2.0;
    assert (-1.0 - s.lo) / (s.hi - s.lo) == 1.0 / 2.0;
  }

  // ------------------------------------------------------------------ bar slots

  function Slot(vn: nat): (w: real)
    requires vn > 0
    ensures w > 0.0 && w * vn as real == INNER_W
  {
    DivideBy(0.0, INNER_W, vn as real);
    INNER_W / vn as real
  }

  /** The centre of bar i. */
  function X(start: int, vn: nat, i: int): real
    requires vn > 0
  {
    PAD_L + Slot(vn) * ((i - start) as real + 0.5)
  }

  /** The bar the crosshair picks at relX. */
  function HoverIndex(start: int, vn: nat, relX: real): int
    requires vn > 0
  {
    start + ((relX - PAD_L) / Slot(vn)).Floor
  }

  lemma FloorIs(q: real, k: int)
    ensures q.Floor == k <==> k as real <= q < (k + 1) as real
  {
    assert (k + 1) as real == k as real + 1.0;
    assert q.Floor as real <= q < q.Floor as real + 1.0;
    if q.Floor < k {
      assert (q.Floor + 1) as real <= k as real;
    } else if q.Floor > k {
      assert (k + 1) as real <= q.Floor as real;
    }
  }

  lemma QuotientBelow(a: real, d: real, x: real)
    requires d > 0.0
    ensures a / d < x <==> a < d * x
  {
    var q := a / d;
    assert q * d == a;
    if q < x {
      assert (x - q) * d > 0.0;
    } else {
      assert (q - x) * d >= 0.0;
    }
  }

  lemma FloorOfQuotient(a: real, d: real, k: int)
    requires d > 0.0
    ensures (a / d).Floor == k <==> d * k as real <= a < d * (k + 1) as real
  {
    FloorIs(a / d, k);
    QuotientBelow(a, d, k as real);
    QuotientBelow(a, d, (k + 1) as real);
  }

  predicate OnSlot(start: int, vn: nat, i: int, relX: real)
    requires vn > 0
  {
    PAD_L + Slot(vn) * (i - start) as real <= relX < PAD_L + Slot(vn) * (i - start + 1) as real
  }

  lemma HoverIsSlot(start: int, vn: nat, i: int, relX: real)
    requires vn > 0
    ensures HoverIndex(start, vn, relX) == i <==> OnSlot(start, vn, i, relX)
  {
    FloorOfQuotient(relX - PAD_L, Slot(vn), i - start);
  }

  lemma CentreOnSlot(start: int, vn: nat, i: int)
    requires vn > 0 && start <= i < start + vn
    ensures OnSlot(start, vn, i, X(start, vn, i))
    ensures PAD_L < X(start, vn, i) < PAD_L + INNER_W
  {
    CentreInSlot(Slot(vn), i - start, vn);
  }

  /** The crosshair picks bar i exactly on bar i's slot, and the centre of each
      visible bar lies in its own slot, inside the plot. */
  lemma HoverPicksSlot(start: int, vn: nat, i: int, relX: real)
    requires vn > 0 && start <= i < start + vn
    ensures HoverIndex(start, vn, relX) == i <==> OnSlot(start, vn, i, relX)
    ensures HoverIndex(start, vn, X(start, vn, i)) == i
    ensures PAD_L < X(start, vn, i) < PAD_L + INNER_W
  {
    HoverIsSlot(start, vn, i, relX);
    CentreOnSlot(start, vn, i);
    HoverIsSlot(start, vn, i, X(start, vn, i));
  }

  /** The centre of a bar is as far from the left edge of its slot as from the
      right one. */
  lemma CentreIsMiddle(start: int, vn: nat, i: int)
    requires vn > 0
    ensures 2.0 * X(start, vn, i) ==
            (PAD_L + Slot(vn) * (i - start) as real) + (PAD_L + Slot(vn) * (i - start + 1) as real)
  {
    var w, k := Slot(vn), (i - start) as real;
    assert (i - start + 1) as real == k + 1.0;
    assert w * (k + 1.0) == w * k + w && w * (k + 0.5) == w * k + w * 0.5;
  }

  // ---------------------------------------------------- the bar under the pointer

  /** The plot coordinate of a pointer at `offset` pixels of `width`. */
  function PlotX(offset: real, width: real): real
    requires width > 0.0
  {
    offset / width * W
  }

  lemma SlotsPassed(relX: real, vn: nat)
    requires vn > 0
    ensures (relX - PAD_L) / Slot(vn) == (relX - PAD_L) / INNER_W * vn as real
  {
    var w, a := Slot(vn), relX - PAD_L;
    var p, q := a / w, a / INNER_W;
    assert p * w == a && q * INNER_W == a && w * vn as real == INNER_W;
    assert (p - q * vn as real) * w == a - q * (w * vn as real);
    assert (p - q * vn as real) * w == 0.0;
  }

  lemma FloorShift(s: int, x: real)
    ensures (s as real + x).Floor == s + x.Floor
  {
  }

  lemma FractionIs(offset: real, width: real)
    requires width > 0.0
    ensures var x := PlotX(offset, width);
            Fraction(offset, width) == if x <= PAD_L then 0.0 else if x >= PAD_L + INNER_W then 1.0
                                       else (x - PAD_L) / INNER_W
  {
    var a := PlotX(offset, width) - PAD_L;
    var f := a / INNER_W;
    assert f * INNER_W == a;
    ScaleBy(f, 0.0, INNER_W);
    ScaleBy(0.0, f, INNER_W);
    ScaleBy(f, 1.0, INNER_W);
    ScaleBy(1.0, f, INNER_W);
  }

  /** The bar the wheel turns around is the one the crosshair picks under the
      pointer; left of the plot it is the oldest edge on screen, right of it the
      newest. */
  lemma AnchorIsUnderPointer(c: Chart, offset: real, width: real)
    requires Inv(c) && c.bars != [] && width > 0.0
    ensures var x := PlotX(offset, width); var a := Anchor(c, Fraction(offset, width));
            var start, vn := c.view.viewEnd - c.view.visibleCount, c.view.visibleCount;
            && (PAD_L < x < PAD_L + INNER_W ==> a.Floor == HoverIndex(start, vn, x) &&
                                                a == start as real + (x - PAD_L) / Slot(vn))
            && (x <= PAD_L ==> a == start as real)
            && (x >= PAD_L + INNER_W ==> a == c.view.viewEnd as real)
  {
    var x := PlotX(offset, width);
    RenderedAsStored(c);
    FractionIs(offset, width);
    SlotsPassed(x, c.view.visibleCount);
    FloorShift(c.view.viewEnd - c.view.visibleCount, (x - PAD_L) / Slot(c.view.visibleCount));
  }

  /** Where a bar position is drawn. */
  function DrawnAt(start: int, vn: nat, position: real): real
    requires vn > 0
  {
    PAD_L + Slot(vn) * (position - start as real)
  }

  /** A wheel zoom in the plot that needs no clamping: what was under the pointer is
      drawn within half a slot of the pointer afterwards. */
  lemma WheelKeepsBarUnderPointer(c: Chart, offset: real, width: real, zoomOut: bool)
    requires Inv(c) && c.bars != [] && width > 0.0
    requires PAD_L < PlotX(offset, width) < PAD_L + INNER_W
    requires 0 <= WheelStart(c, Fraction(offset, width), WheelCount(c, zoomOut)) <= |c.bars| - WheelCount(c, zoomOut)
    ensures var x, a := PlotX(offset, width), Anchor(c, Fraction(offset, width));
            var v := Step(c, Wheel(offset, width, zoomOut)).view;
            && a.Floor == HoverIndex(c.view.viewEnd - c.view.visibleCount, c.view.visibleCount, x)
            && 1 <= v.visibleCount <= v.viewEnd <= |c.bars|
            && var drawn := DrawnAt(v.viewEnd - v.visibleCount, v.visibleCount, a);
            -0.5 * Slot(v.visibleCount) <= drawn - x <= 0.5 * Slot(v.visibleCount)
  {
    WheelKeepsAnchor(c, offset, width, zoomOut);
    AnchorIsUnderPointer(c, offset, width);
    NearPointer(Step(c, Wheel(offset, width, zoomOut)), offset, width, Anchor(c, Fraction(offset, width)));
  }

  /** A position within half a bar of the anchor is drawn within half a slot of the
      pointer. */
  lemma NearPointer(c: Chart, offset: real, width: real, a: real)
    requires Inv(c) && c.bars != [] && width > 0.0 && PAD_L < PlotX(offset, width) < PAD_L + INNER_W
    requires -0.5 <= Anchor(c, Fraction(offset, width)) - a <= 0.5
    ensures var drawn := DrawnAt(c.view.viewEnd - c.view.visibleCount, c.view.visibleCount, a);
            -0.5 * Slot(c.view.visibleCount) <= drawn - PlotX(offset, width) <= 0.5 * Slot(c.view.visibleCount)
  {
    var vn, s, x := c.view.visibleCount, c.view.viewEnd - c.view.visibleCount, PlotX(offset, width);
    AnchorIsUnderPointer(c, offset, width);
    PointerDrawn(s, vn, x);
    SlotDistance(s, vn, a, s as real + (x - PAD_L) / Slot(vn));
  }

  lemma PointerDrawn(start: int, vn: nat, x: real)
    requires vn > 0
    ensures DrawnAt(start, vn, start as real + (x - PAD_L) / Slot(vn)) == x
  {
    var q := (x - PAD_L) / Slot(vn);
    assert q * Slot(vn) == x - PAD_L;
  }

  lemma SlotDistance(start: int, vn: nat, a: real, b: real)
    requires vn > 0 && -0.5 <= b - a <= 0.5
    ensures -0.5 * Slot(vn) <= DrawnAt(start, vn, a) - DrawnAt(start, vn, b) <= 0.5 * Slot(vn)
  {
    var w := Slot(vn);
    assert DrawnAt(start, vn, a) - DrawnAt(start, vn, b) == w * (a - b);
    Positive(0.5 - (a - b), w);
    Positive(0.5 + (a - b), w);
    assert w * (a - b) == 0.5 * w - (0.5 - (a - b)) * w;
    assert w * (a - b) == (0.5 + (a - b)) * w - 0.5 * w;
  }

  lemma CentreInSlot(w: real, k: nat, vn: nat)
    requires w > 0.0 && k < vn
    ensures w * k as real < w * (k as real + 0.5) < w * (k + 1) as real <= w * vn as real
    ensures 0.0 <= w * k as real
  {
    ScaleBy(k as real, k as real + 0.5, w);
    ScaleBy(k as real + 0.5, (k + 1) as real, w);
    ScaleBy(vn as real, (k + 1) as real, w);
  }

  // ---------------------------------------------------------------- time labels

  function TickOffset(k: nat, steps: nat, vn: nat): int
    requires vn > 0
  {
    Round(k as real / Max(1, steps) as real * (vn - 1) as real)
  }

  lemma OffsetStep(k: nat, d: nat, m: nat)
    requires 1 <= d <= m
    ensures (k + 1) as real / d as real * m as real >= k as real / d as real * m as real + 1.0
  {
    var u, x, y := 1.0 / d as real, k as real / d as real, (k + 1) as real / d as real;
    assert u * d as real == 1.0 && x * d as real == k as real && y * d as real == (k + 1) as real;
    assert (y - x - u) * d as real == 0.0;
    assert y == x + u;
    assert u > 0.0;
    assert u * m as real >= u * d as real;
    assert y * m as real == x * m as real + u * m as real;
  }

  lemma TickOrder(k: nat, steps: nat, vn: nat)
    requires vn > 0 && 1 <= steps <= vn - 1
    ensures TickOffset(k, steps, vn) < TickOffset(k + 1, steps, vn)
  {
    OffsetStep(k, steps, vn - 1);
  }

  /** The labels are as even as whole bars allow: the k-th is within half a bar of
      its even share of the way. */
  lemma TicksEven(k: nat, steps: nat, vn: nat)
    requires vn > 0 && 1 <= steps
    ensures var even := k as real * (vn - 1) as real / steps as real;
            even - 0.5 < TickOffset(k, steps, vn) as real <= even + 0.5
  {
    EvenShare(k as real, steps as real, (vn - 1) as real);
    assert Max(1, steps) == steps;
    RoundNearest(k as real / Max(1, steps) as real * (vn - 1) as real);
  }

  lemma EvenShare(k: real, d: real, m: real)
    requires d > 0.0
    ensures k / d * m == k * m / d
  {
    var u, even := k / d, k * m / d;
    assert u * d == k && even * d == k * m;
    assert (even - u * m) * d == 0.0;
  }

  lemma TickEdges(steps: nat, vn: nat)
    requires vn > 0
    ensures TickOffset(0, steps, vn) == 0
    ensures steps >= 1 ==> TickOffset(steps, steps, vn) == vn - 1
  {
    var d := Max(1, steps) as real;
    DivideBy(0.0, 0.0, d);
    if steps >= 1 {
      DivideBy(steps as real, 0.0, d);
    }
  }

  ghost predicate Ascending(ticks: seq<int>) { forall a, b :: 0 <= a < b < |ticks| ==> ticks[a] < ticks[b] }

  lemma AscendingNext(ticks: seq<int>, t: int)
    requires Ascending(ticks) && (ticks != [] ==> ticks[|ticks| - 1] < t)
    ensures Ascending(ticks + [t])
  {
  }

  /** The label loop: at most six, strictly left to right, from the first
      visible bar to the last. */
  method TimeTicks(start: int, vn: nat) returns (ticks: seq<int>)
    requires vn > 0
    ensures |ticks| == Min(6, vn)
    ensures ticks[0] == start && ticks[|ticks| - 1] == start + vn - 1
    ensures Ascending(ticks)
  {
    ticks := [];
    var tickCount := Min(6, vn);
    ghost var steps: nat := tickCount - 1;
    TickEdges(steps, vn);
    for k := 0 to tickCount
      invariant |ticks| == k && Ascending(ticks)
      invariant k > 0 ==> ticks[0] == start && ticks[k - 1] == start + TickOffset(k - 1, steps, vn)
    {
      var t := start + TickOffset(k, tickCount - 1, vn);
      if k > 0 {
        TickOrder(k - 1, steps, vn);
      }
      AscendingNext(ticks, t);
      ticks := ticks + [t];
    }
  }
}
