/** Splitting a series with gaps into the sub-paths that are drawn. */
module PathSegments {
  import opened Common

  /** A number is there to be drawn; null, absent and non-finite are gaps. */
  predicate Finite(values: Series, i: int) { 0 <= i < |values| && values[i].Some? }

  function Last(s: seq<int>): int
    requires s != []
  {
    s[|s| - 1]
  }

  predicate Consecutive(seg: seq<int>) {
    seg != [] && forall j :: 0 <= j < |seg| ==> seg[j] == seg[0] + j
  }

  ghost predicate Drawn(segs: seq<seq<int>>, i: int) {
    exists k :: 0 <= k < |segs| && i in segs[k]
  }

  /** The segments are the maximal runs of finite values in [from, to): each is a
      non-empty stretch of consecutive indices, two of them never touch, and
      together they draw exactly the finite values. */
  ghost predicate MaximalRuns(values: Series, from: int, to: int, segs: seq<seq<int>>) {
    && (forall k :: 0 <= k < |segs| ==> Consecutive(segs[k]))
    && (forall k, m :: 0 <= k < m < |segs| ==> Last(segs[k]) + 1 < segs[m][0])
    && (forall i :: Drawn(segs, i) <==> from <= i < to && Finite(values, i))
  }

  lemma InConsecutive(seg: seq<int>, i: int)
    requires Consecutive(seg)
    ensures i in seg <==> seg[0] <= i <= Last(seg)
  {
    if seg[0] <= i <= Last(seg) {
      assert seg[i - seg[0]] == i;
    }
  }

  lemma DrawnExtends(segs: seq<seq<int>>, seg: seq<int>, i: int)
    ensures Drawn(segs + [seg], i) <==> Drawn(segs, i) || i in seg
  {
    var all := segs + [seg];
    if Drawn(segs, i) {
      var k :| 0 <= k < |segs| && i in segs[k];
      assert i in all[k];
    }
    assert all[|segs|] == seg;
  }

  /** The loop both charts use; `cur` is the path being drawn. */
  method Split(values: Series, from: int, to: int) returns (segs: seq<seq<int>>)
    requires from <= to
    ensures MaximalRuns(values, from, to, segs)
  {
    segs := [];
    var cur: seq<int> := [];
    for i := from to to
      invariant forall k :: 0 <= k < |segs| ==> Consecutive(segs[k])
      invariant forall k, m :: 0 <= k < m < |segs| ==> Last(segs[k]) + 1 < segs[m][0]
      invariant cur != [] ==> Consecutive(cur) && Last(cur) == i - 1
      invariant cur != [] ==> forall k :: 0 <= k < |segs| ==> Last(segs[k]) + 1 < cur[0]
      invariant cur == [] ==> forall k :: 0 <= k < |segs| ==> Last(segs[k]) + 1 < i
      invariant forall j :: Drawn(segs, j) || j in cur <==> from <= j < i && Finite(values, j)
    {
      if Finite(values, i) {
        cur := cur + [i];
      } else if cur != [] {
        forall j { DrawnExtends(segs, cur, j); }
        segs := segs + [cur];
        cur := [];
      }
    }
    if cur != [] {
      forall j { DrawnExtends(segs, cur, j); }
      segs := segs + [cur];
    }
  }

  // ------------------------------------------- the runs determine the segments

  /** What is drawn is in the first run or well after it. */
  lemma DrawnWhere(values: Series, from: int, to: int, segs: seq<seq<int>>, i: int)
    requires MaximalRuns(values, from, to, segs) && segs != [] && Drawn(segs, i)
    ensures segs[0][0] <= i
    ensures i in segs[0] || Last(segs[0]) + 1 < i
  {
    var k :| 0 <= k < |segs| && i in segs[k];
    InConsecutive(segs[k], i);
    InConsecutive(segs[0], segs[0][0]);
    assert k > 0 ==> Last(segs[0]) + 1 < segs[k][0];
  }

  lemma FirstDrawn(segs: seq<seq<int>>, i: int)
    requires segs != [] && i in segs[0]
    ensures Drawn(segs, i)
  {
  }

  lemma FirstRunsAgree(values: Series, from: int, to: int, a: seq<seq<int>>, b: seq<seq<int>>)
    requires MaximalRuns(values, from, to, a) && MaximalRuns(values, from, to, b) && a != []
    ensures b != [] && a[0] == b[0]
  {
    FirstDrawn(a, a[0][0]);
    assert Drawn(b, a[0][0]);
    FirstDrawn(b, b[0][0]);
    DrawnWhere(values, from, to, a, b[0][0]);
    DrawnWhere(values, from, to, b, a[0][0]);
    EndsNoLater(values, from, to, a, b);
    EndsNoLater(values, from, to, b, a);
  }

  lemma EndsNoLater(values: Series, from: int, to: int, a: seq<seq<int>>, b: seq<seq<int>>)
    requires MaximalRuns(values, from, to, a) && MaximalRuns(values, from, to, b)
    requires a != [] && b != [] && a[0][0] == b[0][0]
    ensures Last(a[0]) <= Last(b[0])
  {
    var i := Last(b[0]) + 1;
    InConsecutive(a[0], i);
    InConsecutive(b[0], i);
    if i in a[0] {
      FirstDrawn(a, i);
      DrawnWhere(values, from, to, b, i);
    }
  }

  lemma RestAreRuns(values: Series, from: int, to: int, a: seq<seq<int>>)
    requires MaximalRuns(values, from, to, a) && a != []
    ensures MaximalRuns(values, Last(a[0]) + 1, to, a[1..])
  {
    var rest := a[1..];
    forall i ensures Drawn(rest, i) <==> Last(a[0]) + 1 <= i < to && Finite(values, i) {
      if Drawn(rest, i) {
        var k :| 0 <= k < |rest| && i in rest[k];
        assert i in a[k + 1] && Drawn(a, i);
        InConsecutive(a[k + 1], i);
        assert Last(a[0]) + 1 < a[k + 1][0];
      }
      if Last(a[0]) + 1 <= i < to && Finite(values, i) {
        assert a[0][0] in a[0] && Drawn(a, a[0][0]);
        assert Drawn(a, i);
        var k :| 0 <= k < |a| && i in a[k];
        InConsecutive(a[k], i);
        assert rest[k - 1] == a[k];
      }
    }
  }

  /** The maximal runs are unique, so the loop has only one right answer. */
  lemma {:induction false} RunsUnique(values: Series, from: int, to: int, a: seq<seq<int>>, b: seq<seq<int>>)
    requires MaximalRuns(values, from, to, a) && MaximalRuns(values, from, to, b)
    ensures a == b
    decreases |a|
  {
    if a == [] {
      if b != [] {
        FirstRunsAgree(values, from, to, b, a);
      }
    } else {
      FirstRunsAgree(values, from, to, a, b);
      RestAreRuns(values, from, to, a);
      RestAreRuns(values, from, to, b);
      RunsUnique(values, Last(a[0]) + 1, to, a[1..], b[1..]);
      assert a == [a[0]] + a[1..] && b == [b[0]] + b[1..];
    }
  }

  // ------------------------------------------------------ nothing lost or moved

  function Flatten(segs: seq<seq<int>>): seq<int> {
    if segs == [] then [] else segs[0] + Flatten(segs[1..])
  }

  function FiniteIndices(values: Series, from: int, to: int): seq<int>
    decreases to - from
  {
    if from >= to then []
    else (if Finite(values, from) then [from] else []) + FiniteIndices(values, from + 1, to)
  }

  lemma CountOn(from: int, n: nat)
    ensures seq(n + 1, j => from + j) == [from] + seq(n, j => from + 1 + j)
  {
  }

  lemma {:induction false} FiniteStretch(values: Series, from: int, mid: int, to: int)
    requires from <= mid <= to && forall i :: from <= i < mid ==> Finite(values, i)
    ensures FiniteIndices(values, from, to) == seq(mid - from, j => from + j) + FiniteIndices(values, mid, to)
    decreases mid - from
  {
    if from < mid {
      FiniteStretch(values, from + 1, mid, to);
      CountOn(from, mid - from - 1);
    }
  }

  lemma {:induction false} GapStretch(values: Series, from: int, mid: int, to: int)
    requires from <= mid <= to && forall i :: from <= i < mid ==> !Finite(values, i)
    ensures FiniteIndices(values, from, to) == FiniteIndices(values, mid, to)
    decreases mid - from
  {
    if from < mid {
      GapStretch(values, from + 1, mid, to);
    }
  }

  /** Before its first run a series has no point, and in it nothing but points. */
  lemma FirstRunWhere(values: Series, from: int, to: int, segs: seq<seq<int>>)
    requires from <= to && MaximalRuns(values, from, to, segs) && segs != []
    ensures forall i :: from <= i < segs[0][0] ==> !Finite(values, i)
    ensures forall i :: segs[0][0] <= i <= Last(segs[0]) ==> Finite(values, i)
  {
    var s, e := segs[0][0], Last(segs[0]);
    FirstDrawn(segs, s);
    forall i | from <= i < s ensures !Finite(values, i) {
      if Drawn(segs, i) {
        DrawnWhere(values, from, to, segs, i);
      }
    }
    forall i | s <= i < e + 1 ensures Finite(values, i) {
      InConsecutive(segs[0], i);
      FirstDrawn(segs, i);
    }
  }

  lemma FirstRunPoints(values: Series, from: int, to: int, segs: seq<seq<int>>)
    requires from <= to && MaximalRuns(values, from, to, segs) && segs != []
    ensures FiniteIndices(values, from, to) == segs[0] + FiniteIndices(values, Last(segs[0]) + 1, to)
    ensures Last(segs[0]) + 1 <= to
  {
    var s, e := segs[0][0], Last(segs[0]);
    FirstDrawn(segs, s);
    FirstDrawn(segs, e);
    FirstRunWhere(values, from, to, segs);
    GapStretch(values, from, s, to);
    FiniteStretch(values, s, e + 1, to);
    assert segs[0] == seq(e + 1 - s, j => s + j);
  }

  /** Joined together the segments are the finite points in their order. */
  lemma {:induction false} RunsKeepEveryPoint(values: Series, from: int, to: int, segs: seq<seq<int>>)
    requires from <= to && MaximalRuns(values, from, to, segs)
    ensures Flatten(segs) == FiniteIndices(values, from, to)
    decreases |segs|
  {
    if segs == [] {
      forall i | from <= i < to ensures !Finite(values, i) {
        assert !Drawn(segs, i);
      }
      GapStretch(values, from, to, to);
    } else {
      FirstRunPoints(values, from, to, segs);
      RestAreRuns(values, from, to, segs);
      RunsKeepEveryPoint(values, Last(segs[0]) + 1, to, segs[1..]);
    }
  }

  // ----------------------------------------------------- the trend chart's y map

  const PAD_TOP := 10.0
  const PAD_BOTTOM := 18.0

  function Span(min: real, max: real): real {
    if max != min then max - min else if max != 0.0 then (if max < 0.0 then -max else max) else 1.0
  }

  /** How far above the lower guide line a value is drawn. */
  function Rise(v: real, min: real, max: real, innerH: real): real { (v - min) / Span(min, max) * innerH }

  function TrendY(v: real, min: real, max: real, height: real): real {
    var innerH := height - PAD_TOP - PAD_BOTTOM;
    PAD_TOP + innerH - Rise(v, min, max, innerH)
  }

  /** Every value between the real minimum and maximum is drawn between the two
      guide lines, the minimum on the lower one, and higher values higher. */
  lemma TrendInside(v: real, w: real, min: real, max: real, height: real)
    requires min <= v <= max && min <= w <= max && height > PAD_TOP + PAD_BOTTOM
    ensures PAD_TOP <= TrendY(v, min, max, height) <= height - PAD_BOTTOM
    ensures TrendY(min, min, max, height) == height - PAD_BOTTOM
    ensures v < w <==> TrendY(v, min, max, height) > TrendY(w, min, max, height)
  {
    var innerH := height - PAD_TOP - PAD_BOTTOM;
    Rises(v, w, min, max, innerH);
    Rises(min, min, min, max, innerH);
  }

  /** The greatest value is drawn on the upper guide line, and halfway up is
      halfway between the lines; a flat series lies on the lower one. */
  lemma TrendEdges(min: real, max: real, height: real)
    requires min <= max && height > PAD_TOP + PAD_BOTTOM
    ensures min < max ==> TrendY(max, min, max, height) == PAD_TOP
    ensures min < max ==> 2.0 * TrendY((min + max) / 2.0, min, max, height) == PAD_TOP + (height - PAD_BOTTOM)
    ensures TrendY(min, min, max, height) == height - PAD_BOTTOM
    ensures TrendY(100.0, 0.0, 100.0, 120.0) == 10.0 && TrendY(0.0, 0.0, 100.0, 120.0) == 102.0
  {
    var innerH := height - PAD_TOP - PAD_BOTTOM;
    TrendInside(min, min, min, max, height);
    if min < max {
      var d := max - min;
      assert 0.5 * d == (min + max) / 2.0 - min;
      QuotientIs(d, d, 1.0);
      QuotientIs((min + max) / 2.0 - min, d, 0.5);
    }
    assert (100.0 - 0.0) / 100.0 == 1.0;
  }

  const TREND_WIDTH := 600.0
  const PAD_X := 8.0

  /** The horizontal place of the i-th of n values. */
  function TrendX(i: nat, n: nat): real
    requires i < n
  {
    PAD_X + if n == 1 then 0.0 else i as real / (n - 1) as real * (TREND_WIDTH - PAD_X * 2.0)
  }

  /** The values are spread evenly from one side to the other. */
  lemma TrendSpread(i: nat, n: nat)
    requires i + 1 < n
    ensures TrendX(0, n) == 8.0 && TrendX(n - 1, n) == 592.0
    ensures (TrendX(i + 1, n) - TrendX(i, n)) * (n - 1) as real == 584.0
  {
    var d := (n - 1) as real;
    Quotient(i as real, d);
    Quotient((i + 1) as real, d);
    Quotient(0.0, d);
    Quotient(d, d);
    var a, b, u := i as real / d, (i + 1) as real / d, d / d;
    assert (u - 1.0) * d == 0.0;
    Spread(a, b, d);
  }

  lemma Spread(a: real, b: real, d: real)
    requires b * d == a * d + 1.0
    ensures ((8.0 + b * 584.0) - (8.0 + a * 584.0)) * d == 584.0
  {
    assert ((b - a) * 584.0) * d == (b * d - a * d) * 584.0;
  }

  lemma Rises(v: real, w: real, min: real, max: real, innerH: real)
    requires min <= v <= max && min <= w <= max && innerH > 0.0
    ensures 0.0 <= Rise(v, min, max, innerH) <= innerH
    ensures v == min ==> Rise(v, min, max, innerH) == 0.0
    ensures v < w <==> Rise(v, min, max, innerH) < Rise(w, min, max, innerH)
  {
    Scaled(v - min, w - min, Span(min, max), innerH);
  }

  lemma Scaled(a: real, b: real, span: real, h: real)
    requires 0.0 <= a <= span && 0.0 <= b <= span && span > 0.0 && h > 0.0
    ensures 0.0 <= a / span * h <= h
    ensures a == 0.0 ==> a / span * h == 0.0
    ensures a < b <==> a / span * h < b / span * h
  {
    var p, q := a / span, b / span;
    assert p * span == a && q * span == b;
    assert 0.0 <= p <= 1.0;
    if p < q {
      assert (q - p) * span > 0.0 && (q - p) * h > 0.0;
    } else {
      assert (p - q) * span >= 0.0 && (p - q) * h >= 0.0;
    }
  }
}
