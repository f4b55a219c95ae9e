/** The candlestick window: how it reacts to data and to the user. */
module Viewport {
  import opened Common

  /** One candle; `time` orders the bars of a dataset. */
  datatype Bar = Bar(time: int, low: real, high: real)

  datatype View = View(visibleCount: int, viewEnd: int)

  datatype Drag = Drag(x: real, startEnd: int)

  datatype Chart = Chart(key: string, bars: seq<Bar>, view: View, drag: Option<Drag>)

  const MIN_VISIBLE := 20
  const W := 920.0
  const PAD_L := 6.0
  const PAD_R := 62.0
  const INNER_W := W - PAD_L - PAD_R

  // ------------------------------------------------------------- nextViewport

  function NextViewport(prevKey: string, prevN: int, view: View, key: string, n: int, appendCount: int): View {
    if n <= 0 then View(1, 0)
    else if prevKey != key then View(n, n)
    else if n < prevN then
      var count := Min(view.visibleCount, n);
      View(if count == 0 then n else count, n)
    else
      var prepended := n - prevN - appendCount;
      if prepended > 0 then View(Min(view.visibleCount, n), Min(view.viewEnd + prepended, n))
      else if appendCount > 0 then
        View(Min(view.visibleCount, n),
             if view.viewEnd >= prevN then Min(view.viewEnd + appendCount, n) else view.viewEnd)
      else View(Min(view.visibleCount, n), Min(view.viewEnd, n))
  }

  /** Whatever the state before, the window that follows data lies within it. */
  lemma NextWithinData(prevKey: string, prevN: nat, view: View, key: string, n: nat, appended: nat)
    requires appended == 0 || prevN + appended <= n
    ensures var v := NextViewport(prevKey, prevN, view, key, n, appended);
            v.viewEnd <= n && (n > 0 ==> v.visibleCount <= n)
  {
  }

  function OldestTime(bars: seq<Bar>): Option<int> {
    if bars == [] then None else Some(bars[0].time)
  }

  // ------------------------------------------------------------ what is drawn

  function RenderStart(view: View, n: nat): int {
    Clamp(Clamp(view.viewEnd, 0, n) - view.visibleCount, 0, Max(0, n - view.visibleCount))
  }

  function RenderEnd(view: View, n: nat): int {
    RenderStart(view, n) + Min(view.visibleCount, n - RenderStart(view, n))
  }

  /** For arbitrary, even stale, state the drawn range is a range of bars exactly
      when the count is not negative. */
  lemma RenderedRangeIff(view: View, n: nat)
    ensures 0 <= RenderStart(view, n) <= RenderEnd(view, n) <= n <==> view.visibleCount >= 0
  {
  }

  ghost predicate Inv(c: Chart) {
    if c.bars == [] then c.view == View(1, 0)
    else 1 <= c.view.visibleCount <= c.view.viewEnd <= |c.bars|
  }

  /** In a consistent state the clamps are idle: the window is drawn as stored. */
  lemma RenderedAsStored(c: Chart)
    requires Inv(c) && c.bars != []
    ensures RenderStart(c.view, |c.bars|) == c.view.viewEnd - c.view.visibleCount
    ensures RenderEnd(c.view, |c.bars|) == c.view.viewEnd
  {
  }

  /** Stale state is drawn as the nearest window there is: a right edge beyond the
      data shows the newest bars, one short of the count the oldest, and a count
      beyond the data shows everything. */
  lemma StaleStateDrawn(view: View, n: nat)
    requires view.visibleCount >= 0
    ensures var s, e := RenderStart(view, n), RenderEnd(view, n); var k := view.visibleCount;
            && (k >= n ==> s == 0 && e == n)
            && (k <= n <= view.viewEnd ==> s == n - k && e == n)
            && (k <= n && view.viewEnd <= k ==> s == 0 && e == k)
            && (k <= view.viewEnd <= n ==> s == view.viewEnd - k && e == view.viewEnd)
  {
  }

  function Visible(c: Chart): seq<Bar>
    requires c.view.visibleCount >= 0
  {
    RenderedRangeIff(c.view, |c.bars|);
    c.bars[RenderStart(c.view, |c.bars|)..RenderEnd(c.view, |c.bars|)]
  }

  lemma VisibleIs(c: Chart)
    requires Inv(c) && c.bars != []
    ensures Visible(c) == c.bars[c.view.viewEnd - c.view.visibleCount..c.view.viewEnd]
  {
    RenderedAsStored(c);
  }

  // ------------------------------------------------------------------- events

  datatype Event =
    | Data(key: string, bars: seq<Bar>)
    | Zoom(nextCount: real)
    | Wheel(offset: real, width: real, zoomOut: bool)
    | PointerDown(x: real)
    | PointerMove(x: real, width: real)
    | PointerUp
    | ShowAll
    | Latest

  /** The component mounts showing every bar. */
  function Mounted(key: string, bars: seq<Bar>): Chart {
    Chart(key, bars, View(if |bars| == 0 then 1 else |bars|, |bars|), None)
  }

  /** How many bars the caller takes to be appended at the end. */
  function Appended(c: Chart, bars: seq<Bar>): int {
    if |bars| > |c.bars| && OldestTime(c.bars) == OldestTime(bars) then |bars| - |c.bars| else 0
  }

  function Arrive(c: Chart, key: string, bars: seq<Bar>): Chart {
    if key == c.key && |bars| == |c.bars| && OldestTime(bars) == OldestTime(c.bars) then c.(bars := bars)
    else c.(key := key, bars := bars,
            view := NextViewport(c.key, |c.bars|, c.view, key, |bars|, Appended(c, bars)))
  }

  function ZoomCount(nextCount: real, n: int): int { Clamp(Round(nextCount), Min(MIN_VISIBLE, n), n) }

  function Fraction(offset: real, width: real): real
    requires width > 0.0
  {
    var f := (offset / width * W - PAD_L) / INNER_W;
    if f < 0.0 then 0.0 else if f > 1.0 then 1.0 else f
  }

  const WHEEL_STEP := 1.15

  function WheelCount(c: Chart, zoomOut: bool): int {
    ZoomCount(c.view.visibleCount as real * (if zoomOut then WHEEL_STEP else 1.0 / WHEEL_STEP), |c.bars|)
  }

  /** The bar position under the pointer, in bars from the oldest. */
  function Anchor(c: Chart, frac: real): real {
    var s, e := RenderStart(c.view, |c.bars|), RenderEnd(c.view, |c.bars|);
    s as real + frac * (e - s) as real
  }

  function WheelStart(c: Chart, frac: real, count: int): int {
    Round(Anchor(c, frac) - frac * count as real)
  }

  function Wheeled(c: Chart, frac: real, zoomOut: bool): Chart {
    WheeledTo(c, frac, WheelCount(c, zoomOut))
  }

  function WheeledTo(c: Chart, frac: real, count: int): Chart {
    var newStart := Clamp(WheelStart(c, frac, count), 0, Max(0, |c.bars| - count));
    c.(view := View(count, newStart + count))
  }

  /** How many bars a pointer movement of dx pixels spans. */
  function DeltaBars(vn: int, dx: real, width: real): int
    requires width > 0.0
  {
    var barsPerPx := vn as real / (width * (INNER_W / W));
    Round(dx * barsPerPx)
  }

  function Dragged(c: Chart, x: real, width: real): Chart
    requires width > 0.0
  {
    match c.drag
    case None => c
    case Some(d) =>
      var n := |c.bars|;
      var vn := RenderEnd(c.view, n) - RenderStart(c.view, n);
      c.(view := c.view.(viewEnd := Clamp(d.startEnd - DeltaBars(vn, x - d.x, width), c.view.visibleCount, n)))
  }

  predicate Possible(e: Event) {
    (e.Wheel? || e.PointerMove?) ==> e.width > 0.0
  }

  function Step(c: Chart, e: Event): Chart
    requires Possible(e)
  {
    var n := |c.bars|;
    match e
    case Data(key, bars) => Arrive(c, key, bars)
    case Zoom(nextCount) =>
      if n == 0 then c
      else
        var count := ZoomCount(nextCount, n);
        c.(view := View(count, Clamp(c.view.viewEnd, count, n)))
    case Wheel(offset, width, zoomOut) => if n == 0 then c else Wheeled(c, Fraction(offset, width), zoomOut)
    case PointerDown(x) =>
      if n == 0 || RenderEnd(c.view, n) - RenderStart(c.view, n) >= n then c
      else c.(drag := Some(Drag(x, RenderEnd(c.view, n))))
    case PointerMove(x, width) => Dragged(c, x, width)
    case PointerUp => c.(drag := None)
    case ShowAll => if n == 0 then c else c.(view := View(n, n))
    case Latest => if n == 0 then c else c.(view := c.view.(viewEnd := n))
  }

  function Run(c: Chart, es: seq<Event>): Chart
    requires forall e :: e in es ==> Possible(e)
  {
    if es == [] then c else Step(Run(c, es[..|es| - 1]), es[|es| - 1])
  }

  /** The chart opens on all its bars. */
  lemma MountedShowsAll(key: string, bars: seq<Bar>)
    ensures Inv(Mounted(key, bars)) && Visible(Mounted(key, bars)) == bars
  {
    if bars != [] {
      FullWindow(Mounted(key, bars));
    }
  }

  lemma FullWindow(c: Chart)
    requires c.bars != [] && c.view == View(|c.bars|, |c.bars|)
    ensures Inv(c) && Visible(c) == c.bars
  {
    VisibleIs(c);
    assert c.bars[0..|c.bars|] == c.bars;
  }

  lemma ArriveKeepsInv(c: Chart, key: string, bars: seq<Bar>)
    requires Inv(c)
    ensures Inv(Arrive(c, key, bars))
  {
  }

  lemma WheelKeepsInv(c: Chart, frac: real, count: int)
    requires Inv(c) && 1 <= count <= |c.bars|
    ensures Inv(WheeledTo(c, frac, count)) && WheeledTo(c, frac, count).view.visibleCount == count
  {
  }

  lemma CountInData(x: real, n: nat)
    requires n > 0
    ensures Min(MIN_VISIBLE, n) <= ZoomCount(x, n) <= n && 1 <= ZoomCount(x, n)
  {
  }

  lemma StepKeepsInv(c: Chart, e: Event)
    requires Inv(c) && Possible(e)
    ensures Inv(Step(c, e))
    ensures (e.Zoom? || e.Wheel?) && c.bars != [] ==> Step(c, e).view.visibleCount >= Min(MIN_VISIBLE, |c.bars|)
  {
    match e
    case Data(key, bars) =>
      ArriveKeepsInv(c, key, bars);
    case Zoom(nextCount) =>
      if c.bars != [] {
        CountInData(nextCount, |c.bars|);
      }
    case Wheel(offset, width, zoomOut) =>
      if c.bars != [] {
        CountInData(c.view.visibleCount as real * (if zoomOut then WHEEL_STEP else 1.0 / WHEEL_STEP), |c.bars|);
        WheelKeepsInv(c, Fraction(offset, width), WheelCount(c, zoomOut));
      }
    case PointerMove(x, width) =>
      DragKeepsInv(c, x, width);
    case _ =>
  }

  lemma DragKeepsInv(c: Chart, x: real, width: real)
    requires Inv(c) && width > 0.0 && (c.bars == [] ==> c.view == View(1, 0))
    ensures Inv(Dragged(c, x, width))
  {
  }

  /** Any interleaving of data and user events keeps the window inside the data
      and not empty. */
  lemma {:induction false} RunKeepsWindow(key: string, bars: seq<Bar>, es: seq<Event>)
    requires forall e :: e in es ==> Possible(e)
    ensures var c := Run(Mounted(key, bars), es);
            Inv(c) && (c.bars != [] ==> 1 <= c.view.visibleCount <= c.view.viewEnd <= |c.bars|)
    decreases |es|
  {
    if es != [] {
      RunKeepsWindow(key, bars, es[..|es| - 1]);
      StepKeepsInv(Run(Mounted(key, bars), es[..|es| - 1]), es[|es| - 1]);
    }
  }

  // ------------------------------------------------------------ the same bars

  ghost predicate Increasing(bars: seq<Bar>) {
    forall i, j :: 0 <= i < j < |bars| ==> bars[i].time < bars[j].time
  }

  /** How an arrival changes the range of bars: some oldest ones dropped, or
      older ones in front of them, and newer ones behind. */
  datatype Update = Update(drop: nat, older: nat, newer: nat)

  /** The bars that stay keep their times; their values may change. */
  ghost predicate Continues(was: seq<Bar>, bars: seq<Bar>, u: Update) {
    var n := |was|;
    && Increasing(was) && Increasing(bars)
    && u.drop <= n && (u.drop == 0 || u.older == 0)
    && |bars| == u.older + (n - u.drop) + u.newer
    && (forall k :: u.older <= k < u.older + n - u.drop ==> bars[k].time == was[k - u.older + u.drop].time)
    && (forall i, j :: 0 <= i < u.older && 0 <= j < n ==> bars[i].time < was[j].time)
    && (forall i, j :: u.older + n - u.drop <= i < |bars| && 0 <= j < n ==> was[j].time < bars[i].time)
  }

  /** The arrival leaves the same candles on screen. */
  predicate KeepsPlace(c: Chart, u: Update) {
    if u.drop == 0 then u.newer == 0 || (u.older == 0 && c.view.viewEnd < |c.bars|)
    else u.newer == 0 && c.view.viewEnd == |c.bars| && c.view.visibleCount <= |c.bars| - u.drop
  }

  ghost predicate SameTimes(a: seq<Bar>, b: seq<Bar>) {
    |a| == |b| && forall i :: 0 <= i < |a| ==> a[i].time == b[i].time
  }

  lemma OldestMoves(was: seq<Bar>, bars: seq<Bar>, u: Update)
    requires Continues(was, bars, u) && was != []
    ensures OldestTime(bars) == OldestTime(was) <==> u.drop == 0 && u.older == 0
  {
    if bars != [] {
      assert u.older == 0 && u.drop < |was| ==> bars[0].time == was[u.drop].time;
    }
  }

  lemma ArrivalView(c: Chart, bars: seq<Bar>, u: Update)
    requires Inv(c) && c.bars != [] && Continues(c.bars, bars, u)
    ensures var n, v, v' := |c.bars|, c.view, Arrive(c, c.key, bars).view;
            if u.drop == 0 then
              v' == View(v.visibleCount,
                         if u.older > 0 then v.viewEnd + u.older + u.newer
                         else if v.viewEnd < n then v.viewEnd else n + u.newer)
            else if u.newer < u.drop then
              v' == if bars == [] then View(1, 0) else View(Min(v.visibleCount, |bars|), |bars|)
            else v' == View(v.visibleCount, v.viewEnd + u.newer - u.drop)
  {
    OldestMoves(c.bars, bars, u);
  }

  /** With distinct times a window shows the same bars in only one place. */
  lemma WindowOf(was: seq<Bar>, bars: seq<Bar>, u: Update, s: nat, e: nat, e': int)
    requires Continues(was, bars, u) && s < e <= |was| && e - s <= e' <= |bars|
    ensures SameTimes(bars[e' - (e - s)..e'], was[s..e]) <==> s >= u.drop && e' == u.older + e - u.drop
  {
    var w := bars[e' - (e - s)..e'];
    if s >= u.drop && e' == u.older + e - u.drop {
      forall i | 0 <= i < |w| ensures w[i].time == was[s..e][i].time {
        assert w[i] == bars[e' - (e - s) + i];
      }
    }
    if SameTimes(w, was[s..e]) {
      assert w[0] == bars[e' - (e - s)] && was[s..e][0] == was[s];
      OnlyPlace(was, bars, u, s, e' - (e - s));
    }
  }

  lemma WindowsSame(was: seq<Bar>, bars: seq<Bar>, u: Update, v: View, v': View, w: seq<Bar>, w': seq<Bar>)
    requires Continues(was, bars, u)
    requires 1 <= v.visibleCount <= v.viewEnd <= |was| && 1 <= v'.visibleCount <= v'.viewEnd <= |bars|
    requires w == was[v.viewEnd - v.visibleCount..v.viewEnd] && w' == bars[v'.viewEnd - v'.visibleCount..v'.viewEnd]
    ensures SameTimes(w', w) <==> Placed(v, v', u)
  {
    if v'.visibleCount == v.visibleCount {
      WindowOf(was, bars, u, v.viewEnd - v.visibleCount, v.viewEnd, v'.viewEnd);
    }
  }

  lemma OnlyPlace(was: seq<Bar>, bars: seq<Bar>, u: Update, i: nat, k: nat)
    requires Continues(was, bars, u) && i < |was| && k < |bars| && bars[k].time == was[i].time
    ensures i >= u.drop && k == u.older + i - u.drop
  {
    if u.older <= k < u.older + |was| - u.drop {
      assert bars[k].time == was[k - u.older + u.drop].time;
    }
  }

  /** No bar that stays changes its values. */
  ghost predicate Settled(was: seq<Bar>, bars: seq<Bar>, u: Update)
    requires Continues(was, bars, u)
  {
    forall k :: u.older <= k < u.older + |was| - u.drop ==> bars[k] == was[k - u.older + u.drop]
  }

  lemma ArrivalKeepsInv(c: Chart, bars: seq<Bar>)
    requires Inv(c)
    ensures var c' := Arrive(c, c.key, bars); Inv(c') && c'.bars == bars && c'.key == c.key
  {
    StepKeepsInv(c, Data(c.key, bars));
  }

  /** The window's left and right edge are on the bars they were on. */
  predicate Placed(v: View, v': View, u: Update) {
    && v'.visibleCount == v.visibleCount
    && v.viewEnd - v.visibleCount >= u.drop && v'.viewEnd == u.older + v.viewEnd - u.drop
  }

  lemma EmptyShowsNothing(c: Chart)
    requires Inv(c)
    ensures |Visible(c)| == if c.bars == [] then 0 else c.view.visibleCount
  {
    if c.bars != [] {
      VisibleIs(c);
    }
  }

  lemma ShownSame(c: Chart, c': Chart, u: Update)
    requires Inv(c) && Inv(c') && c.bars != [] && Continues(c.bars, c'.bars, u)
    ensures SameTimes(Visible(c'), Visible(c)) <==> c'.bars != [] && Placed(c.view, c'.view, u)
  {
    EmptyShowsNothing(c);
    EmptyShowsNothing(c');
    if c'.bars != [] {
      ShownSameWindow(c, c', u);
    }
  }

  lemma ShownSameWindow(c: Chart, c': Chart, u: Update)
    requires Inv(c) && Inv(c') && c.bars != [] && c'.bars != [] && Continues(c.bars, c'.bars, u)
    ensures SameTimes(Visible(c'), Visible(c)) <==> Placed(c.view, c'.view, u)
  {
    VisibleIs(c);
    VisibleIs(c');
    WindowsSame(c.bars, c'.bars, u, c.view, c'.view, Visible(c), Visible(c'));
  }

  lemma PlaceMeans(c: Chart, bars: seq<Bar>, u: Update)
    requires Inv(c) && c.bars != [] && Continues(c.bars, bars, u)
    ensures var v, v' := c.view, Arrive(c, c.key, bars).view;
            KeepsPlace(c, u) <==> bars != [] && Placed(v, v', u)
  {
    ArrivalView(c, bars, u);
  }

  /** When data that overlaps the current bars arrives, the candles on screen stay
      the same exactly when: nothing newer came; or nothing older did and the
      window was away from the newest bar; or, if old bars were dropped, nothing
      newer came and the window ended on the newest bar and held none of them.
      (Older and newer bars at once count as history, and a refresh that drops as
      many bars as it brings counts as no change: the window slips.) */
  lemma SameBarsIff(c: Chart, bars: seq<Bar>, u: Update)
    requires Inv(c) && c.bars != [] && Continues(c.bars, bars, u)
    ensures SameTimes(Visible(Arrive(c, c.key, bars)), Visible(c)) <==> KeepsPlace(c, u)
  {
    PlaceMeans(c, bars, u);
    ArrivalKeepsInv(c, bars);
    ShownSame(c, Arrive(c, c.key, bars), u);
  }

  lemma SameSlice(was: seq<Bar>, bars: seq<Bar>, u: Update, s: nat, e: nat)
    requires Continues(was, bars, u) && Settled(was, bars, u) && u.drop <= s <= e <= |was|
    ensures bars[u.older + s - u.drop..u.older + e - u.drop] == was[s..e]
  {
  }

  lemma SameWindow(was: seq<Bar>, bars: seq<Bar>, u: Update, v: View, v': View)
    requires Continues(was, bars, u) && Settled(was, bars, u) && Placed(v, v', u)
    requires 1 <= v.visibleCount <= v.viewEnd <= |was| && 1 <= v'.visibleCount <= v'.viewEnd <= |bars|
    ensures bars[v'.viewEnd - v'.visibleCount..v'.viewEnd] == was[v.viewEnd - v.visibleCount..v.viewEnd]
  {
    SameSlice(was, bars, u, v.viewEnd - v.visibleCount, v.viewEnd);
  }

  lemma ShownEqual(c: Chart, c': Chart)
    requires Inv(c) && Inv(c') && c.bars != [] && c'.bars != []
    requires var v, v' := c.view, c'.view;
             c'.bars[v'.viewEnd - v'.visibleCount..v'.viewEnd] == c.bars[v.viewEnd - v.visibleCount..v.viewEnd]
    ensures Visible(c') == Visible(c)
  {
    VisibleIs(c);
    VisibleIs(c');
  }

  /** At the right edge an append keeps the width and ends on the newest bar. */
  lemma EdgeAppendFollows(c: Chart, bars: seq<Bar>, newer: nat)
    requires Inv(c) && c.bars != [] && c.view.viewEnd == |c.bars| && Continues(c.bars, bars, Update(0, 0, newer))
    ensures var c' := Arrive(c, c.key, bars);
            Visible(c') == bars[|bars| - c.view.visibleCount..] && |Visible(c')| == |Visible(c)|
  {
    ArrivalView(c, bars, Update(0, 0, newer));
    StepKeepsInv(c, Data(c.key, bars));
    RenderedAsStored(c);
    EdgeWindow(Arrive(c, c.key, bars));
  }

  lemma EdgeWindow(c: Chart)
    requires Inv(c) && c.bars != [] && c.view.viewEnd == |c.bars|
    ensures Visible(c) == c.bars[|c.bars| - c.view.visibleCount..]
  {
    RenderedAsStored(c);
  }

  datatype Arrival = Arrival(bars: seq<Bar>, u: Update)

  function ArriveAll(c: Chart, arrivals: seq<Arrival>): Chart
    decreases |arrivals|
  {
    if arrivals == [] then c else ArriveAll(Arrive(c, c.key, arrivals[0].bars), arrivals[1..])
  }

  ghost predicate Stays(c: Chart, a: Arrival) { Continues(c.bars, a.bars, a.u) && KeepsPlace(c, a.u) }

  /** Each arrival is one that keeps the place, such as pure history, or a pure
      append while away from the edge; it may update the bars it keeps. */
  ghost predicate Browsing(c: Chart, arrivals: seq<Arrival>)
    decreases |arrivals|
  {
    arrivals == [] || (Stays(c, arrivals[0]) && Browsing(Arrive(c, c.key, arrivals[0].bars), arrivals[1..]))
  }

  /** No arrival changes the values of a bar it keeps. */
  ghost predicate AllSettled(c: Chart, arrivals: seq<Arrival>)
    requires Browsing(c, arrivals)
    decreases |arrivals|
  {
    arrivals == [] ||
    (Settled(c.bars, arrivals[0].bars, arrivals[0].u) && AllSettled(Arrive(c, c.key, arrivals[0].bars), arrivals[1..]))
  }

  lemma StayShowsSame(c: Chart, a: Arrival)
    requires Inv(c) && c.bars != [] && Stays(c, a)
    ensures var c' := Arrive(c, c.key, a.bars);
            && Inv(c') && c'.bars != [] && SameTimes(Visible(c'), Visible(c))
            && (Settled(c.bars, a.bars, a.u) ==> Visible(c') == Visible(c))
  {
    ArrivalKeepsInv(c, a.bars);
    PlaceMeans(c, a.bars, a.u);
    PlacedShowsSame(c, Arrive(c, c.key, a.bars), a.u);
  }

  lemma PlacedShowsSame(c: Chart, c': Chart, u: Update)
    requires Inv(c) && Inv(c') && c.bars != [] && c'.bars != [] && Continues(c.bars, c'.bars, u)
    requires Placed(c.view, c'.view, u)
    ensures SameTimes(Visible(c'), Visible(c))
    ensures Settled(c.bars, c'.bars, u) ==> Visible(c') == Visible(c)
  {
    ShownSame(c, c', u);
    if Settled(c.bars, c'.bars, u) {
      SameWindow(c.bars, c'.bars, u, c.view, c'.view);
      ShownEqual(c, c');
    }
  }

  lemma {:induction false} BrowsingRunKeepsBars(c: Chart, arrivals: seq<Arrival>)
    requires Inv(c) && c.bars != [] && Browsing(c, arrivals)
    ensures var c' := ArriveAll(c, arrivals);
            Inv(c') && SameTimes(Visible(c'), Visible(c)) && (AllSettled(c, arrivals) ==> Visible(c') == Visible(c))
    decreases |arrivals|
  {
    if arrivals != [] {
      StayShowsSame(c, arrivals[0]);
      BrowsingRunKeepsBars(Arrive(c, c.key, arrivals[0].bars), arrivals[1..]);
    }
  }

  // ------------------------------------------------------ arrivals that slip

  function BarAt(time: int): Bar { Bar(time, 1.0, 2.0) }

  const THREE: seq<Bar> := [BarAt(1), BarAt(2), BarAt(3)]

  const BROWSED := Chart("k", THREE, View(1, 2), None)

  lemma RunNext(c: Chart, es: seq<Event>, e: Event)
    requires (forall x :: x in es ==> Possible(x)) && Possible(e)
    ensures forall x :: x in es + [e] ==> Possible(x)
    ensures Run(c, es + [e]) == Step(Run(c, es), e)
  {
    assert (es + [e])[..|es|] == es;
  }

  lemma RunFour(c: Chart, e1: Event, e2: Event, e3: Event, e4: Event, c1: Chart, c2: Chart, c3: Chart, c4: Chart)
    requires Possible(e1) && Step(c, e1) == c1 && Possible(e2) && Step(c1, e2) == c2
    requires Possible(e3) && Step(c2, e3) == c3 && Possible(e4) && Step(c3, e4) == c4
    ensures Run(c, [e1, e2, e3, e4]) == c4
  {
    RunOn(c, [], e1, [e1], c);
    RunOn(c, [e1], e2, [e1, e2], c1);
    RunOn(c, [e1, e2], e3, [e1, e2, e3], c2);
    RunOn(c, [e1, e2, e3], e4, [e1, e2, e3, e4], c3);
  }

  lemma RunOn(c: Chart, es: seq<Event>, e: Event, all: seq<Event>, before: Chart)
    requires (forall x :: x in es ==> Possible(x)) && Possible(e)
    requires all == es + [e] && Run(c, es) == before
    ensures (forall x :: x in all ==> Possible(x)) && Run(c, all) == Step(before, e)
  {
    RunNext(c, es, e);
  }

  /** Mounted on one bar, given two older ones, and dragged by one bar: the
      middle one of three is on screen, away from the newest. */
  lemma BrowsingExample()
    ensures Run(Mounted("k", [BarAt(3)]),
                [Data("k", THREE), PointerDown(0.0), PointerMove(852.0, 920.0), PointerUp]) == BROWSED
  {
    var c1 := Chart("k", THREE, View(1, 3), None);
    var c2 := c1.(drag := Some(Drag(0.0, 3)));
    TwoOlder();
    DragByOne();
    RunFour(Mounted("k", [BarAt(3)]), Data("k", THREE), PointerDown(0.0), PointerMove(852.0, 920.0), PointerUp,
            c1, c2, c2.(view := View(1, 2)), BROWSED);
  }

  lemma TwoOlder()
    ensures Step(Mounted("k", [BarAt(3)]), Data("k", THREE)) == Chart("k", THREE, View(1, 3), None)
  {
    assert THREE[0].time == 1;
  }

  lemma DragByOne()
    ensures var c1 := Chart("k", THREE, View(1, 3), None); var c2 := c1.(drag := Some(Drag(0.0, 3)));
            Step(c1, PointerDown(0.0)) == c2 && Step(c2, PointerMove(852.0, 920.0)) == c2.(view := View(1, 2))
  {
    OneBarWide(852.0 - 0.0);
    DraggedBy(Chart("k", THREE, View(1, 3), Some(Drag(0.0, 3))), 852.0, 920.0, 1);
  }

  lemma DraggedBy(c: Chart, x: real, width: real, k: int)
    requires Inv(c) && c.bars != [] && c.drag.Some? && width > 0.0
    requires DeltaBars(c.view.visibleCount, x - c.drag.value.x, width) == k
    ensures Step(c, PointerMove(x, width)) ==
            c.(view := c.view.(viewEnd := Clamp(c.drag.value.startEnd - k, c.view.visibleCount, |c.bars|)))
  {
    RenderedAsStored(c);
  }

  lemma OneBarWide(dx: real)
    requires dx == 852.0
    ensures DeltaBars(1, dx, 920.0) == 1
  {
    assert INNER_W == 852.0 && W == 920.0;
    var ratio := 852.0 / 920.0;
    assert 920.0 * ratio == 852.0;
    assert dx * (1.0 / 852.0) == 1.0;
  }

  /** From there a refresh that drops the oldest bar for a new one, and one that
      brings an older and a newer bar at once, both slip to bar 3. */
  lemma SlippingExample()
    ensures Visible(BROWSED) == [BarAt(2)]
    ensures Visible(Arrive(BROWSED, "k", THREE[1..] + [BarAt(4)])) == [BarAt(3)]
    ensures Visible(Arrive(BROWSED, "k", [BarAt(0)] + THREE + [BarAt(4)])) == [BarAt(3)]
  {
    VisibleIs(BROWSED);
    VisibleIs(Arrive(BROWSED, "k", THREE[1..] + [BarAt(4)]));
    VisibleIs(Arrive(BROWSED, "k", [BarAt(0)] + THREE + [BarAt(4)]));
  }

  /** An empty load and then the same two bars again leaves one of them shown. */
  lemma ReloadExample()
    ensures var bars := [BarAt(1), BarAt(2)]; var c := Chart("k", bars, View(1, 2), None);
            Run(Mounted("k", bars), [Data("k", []), Data("k", bars)]) == c && Visible(c) == [BarAt(2)]
  {
    var bars := [BarAt(1), BarAt(2)];
    var m, e1, e2 := Mounted("k", bars), Data("k", []), Data("k", bars);
    RunNext(m, [], e1);
    RunNext(m, [e1], e2);
    assert [] + [e1] == [e1] && [e1] + [e2] == [e1, e2];
    assert Run(m, [e1]) == Chart("k", [], View(1, 0), None);
  }

  /** Data that comes back after an empty load of the same dataset shows one bar,
      the newest. */
  lemma ReloadShowsOneBar(c: Chart, bars: seq<Bar>)
    requires Inv(c) && c.bars == [] && bars != []
    ensures Visible(Arrive(c, c.key, bars)) == [bars[|bars| - 1]]
  {
    RenderedAsStored(Arrive(c, c.key, bars));
  }

  /** Other data shows whole; fewer bars of the same data show their latest, as
      many as were on screen. */
  lemma ReplacedDataShows(c: Chart, key: string, bars: seq<Bar>)
    requires Inv(c) && bars != []
    ensures key != c.key ==> Visible(Arrive(c, key, bars)) == bars
    ensures key == c.key && |bars| < |c.bars| ==>
              Visible(Arrive(c, key, bars)) == bars[|bars| - Min(c.view.visibleCount, |bars|)..]
  {
    var c' := Arrive(c, key, bars);
    StepKeepsInv(c, Data(key, bars));
    if c'.view.viewEnd == |bars| {
      EdgeWindow(c');
    }
  }

  /** "Show all" shows every bar, and "latest" slides the window to the newest. */
  lemma ButtonsShow(c: Chart)
    requires Inv(c) && c.bars != []
    ensures Visible(Step(c, ShowAll)) == c.bars
    ensures Visible(Step(c, Latest)) == c.bars[|c.bars| - c.view.visibleCount..]
  {
    EdgeWindow(Step(c, ShowAll));
    EdgeWindow(Step(c, Latest));
  }

  // --------------------------------------------------------------- wheel zoom

  lemma RoundNearest(x: real)
    ensures x - 0.5 < Round(x) as real <= x + 0.5
  {
  }

  lemma AnchorStays(c: Chart, frac: real, count: int)
    requires Inv(c) && 1 <= count <= |c.bars|
    requires 0 <= WheelStart(c, frac, count) <= |c.bars| - count
    ensures var c' := WheeledTo(c, frac, count);
            && Inv(c') && RenderEnd(c'.view, |c.bars|) - RenderStart(c'.view, |c.bars|) == count
            && -0.5 <= Anchor(c', frac) - Anchor(c, frac) <= 0.5
  {
    var c' := WheeledTo(c, frac, count);
    RoundNearest(Anchor(c, frac) - frac * count as real);
    RenderedAsStored(c');
    assert Anchor(c', frac) == WheelStart(c, frac, count) as real + frac * count as real;
  }

  lemma RoundKeepsSide(x: real, m: int)
    ensures x >= m as real ==> Round(x) >= m
    ensures x <= m as real ==> Round(x) <= m
  {
  }

  /** Wheeling out never shows fewer bars; wheeling in never shows more, short of
      the least number the chart insists on. */
  lemma WheelDirection(c: Chart, zoomOut: bool)
    requires Inv(c) && c.bars != []
    ensures if zoomOut then WheelCount(c, zoomOut) >= c.view.visibleCount
            else WheelCount(c, zoomOut) <= Max(c.view.visibleCount, Min(MIN_VISIBLE, |c.bars|))
  {
    var v := c.view.visibleCount as real;
    assert v * WHEEL_STEP >= v && v * (1.0 / WHEEL_STEP) <= v;
    RoundKeepsSide(v * WHEEL_STEP, c.view.visibleCount);
    RoundKeepsSide(v * (1.0 / WHEEL_STEP), c.view.visibleCount);
  }

  /** A wheel zoom whose new start needs no clamping keeps the bar under the
      pointer within half a bar of its place on screen. */
  lemma WheelKeepsAnchor(c: Chart, offset: real, width: real, zoomOut: bool)
    requires Inv(c) && c.bars != [] && width > 0.0
    requires 0 <= WheelStart(c, Fraction(offset, width), WheelCount(c, zoomOut)) <= |c.bars| - WheelCount(c, zoomOut)
    ensures var f := Fraction(offset, width); var c' := Step(c, Wheel(offset, width, zoomOut));
            && Inv(c') && c'.view.visibleCount == WheelCount(c, zoomOut)
            && -0.5 <= Anchor(c', f) - Anchor(c, f) <= 0.5
  {
    AnchorStays(c, Fraction(offset, width), WheelCount(c, zoomOut));
  }

  // ------------------------------------------------------------ zoom and pan

  /** A button zoom keeps the right edge when enough bars lie before it, and
      otherwise shows the oldest bars, as many as asked for. */
  lemma ZoomWindow(c: Chart, nextCount: real)
    requires Inv(c) && c.bars != []
    ensures var count := ZoomCount(nextCount, |c.bars|); var c' := Step(c, Zoom(nextCount));
            && 1 <= count <= |c.bars| && Inv(c')
            && Visible(c') == if count <= c.view.viewEnd then c.bars[c.view.viewEnd - count..c.view.viewEnd]
                              else c.bars[..count]
  {
    StepKeepsInv(c, Zoom(nextCount));
    RenderedAsStored(Step(c, Zoom(nextCount)));
  }

  /** A whole number of bars that the chart allows is shown as asked; less than 20
      are only shown when there are no more. */
  lemma ZoomExact(k: nat, n: nat)
    ensures 20 <= k <= n ==> ZoomCount(k as real, n) == k
    ensures k < 20 <= n ==> ZoomCount(k as real, n) == 20
    ensures n < 20 || n < k ==> ZoomCount(k as real, n) == n
  {
    assert Round(k as real) == k;
  }

  /** A hundred bars, all shown: one step out wants 115 and gets 100, one step in
      leaves 87; with the pointer at the right edge of the plot these are the
      newest ones. */
  lemma WheelExample(bars: seq<Bar>)
    requires |bars| == 100
    ensures var c := Mounted("k", bars);
            && WheelCount(c, true) == 100 && WheelCount(c, false) == 87
            && WheelCount(Chart("k", bars + bars, View(100, 100), None), true) == 115
            && Wheeled(c, 1.0, false).view == View(87, 100)
  {
    assert 100.0 * WHEEL_STEP == 115.0;
    var q := 1.0 / WHEEL_STEP;
    assert q * 1.15 == 1.0;
    assert 86.5 < 100.0 * q < 87.5;
    var c := Mounted("k", bars);
    assert Anchor(c, 1.0) == 100.0;
    assert WheelStart(c, 1.0, 87) == 13;
  }

  lemma RoundMonotone(x: real, y: real)
    requires x <= y
    ensures Round(x) <= Round(y)
  {
  }

  lemma DeltaMonotone(vn: nat, dx: real, dy: real, width: real)
    requires width > 0.0 && dx <= dy
    ensures DeltaBars(vn, dx, width) <= DeltaBars(vn, dy, width)
    ensures DeltaBars(vn, 0.0, width) == 0
  {
    var px := width * (INNER_W / W);
    Positive(width, INNER_W / W);
    var barsPerPx := vn as real / px;
    assert barsPerPx * px == vn as real;
    if barsPerPx < 0.0 {
      ScaleBy(barsPerPx, 0.0, px);
    }
    Positive(dy - dx, barsPerPx);
    assert dy * barsPerPx - dx * barsPerPx == (dy - dx) * barsPerPx;
    RoundMonotone(dx * barsPerPx, dy * barsPerPx);
  }

  /** While dragging, moving the pointer further right never shows newer bars,
      and bringing it back to where the drag began restores the window. */
  lemma PanIsMonotoneAndReturns(c: Chart, x: real, y: real, width: real)
    requires Inv(c) && c.bars != [] && c.drag.Some? && width > 0.0
    requires c.view.visibleCount <= c.drag.value.startEnd <= |c.bars|
    ensures x <= y ==> Dragged(c, y, width).view.viewEnd <= Dragged(c, x, width).view.viewEnd
    ensures Dragged(Dragged(c, x, width), c.drag.value.x, width).view == c.view.(viewEnd := c.drag.value.startEnd)
  {
    var n := |c.bars|;
    RenderedAsStored(c);
    var c' := Dragged(c, x, width);
    StepKeepsInv(c, PointerMove(x, width));
    RenderedAsStored(c');
    if x <= y {
      DeltaMonotone(c.view.visibleCount, x - c.drag.value.x, y - c.drag.value.x, width);
    }
    DeltaMonotone(c.view.visibleCount, 0.0, 0.0, width);
  }

  /** The pixels that k bars take on a screen of this width. */
  function PixelsOf(k: int, vn: nat, width: real): real
    requires vn > 0
  {
    k as real * (INNER_W / vn as real) * (width / W)
  }

  lemma WholeBars(k: int, vn: nat, width: real)
    requires vn > 0 && width > 0.0
    ensures DeltaBars(vn, PixelsOf(k, vn, width), width) == k
  {
    var px := width * (INNER_W / W);
    Positive(width, INNER_W / W);
    var slot := INNER_W / vn as real;
    assert slot * vn as real == INNER_W;
    var ratio := width / W;
    assert ratio * W == width;
    assert px == INNER_W * ratio;
    var barsPerPx := vn as real / px;
    assert barsPerPx * px == vn as real;
    PixelsPerBar(k as real, slot, vn as real, ratio, barsPerPx);
    assert Round(k as real) == k;
  }

  lemma PixelsPerBar(k: real, slot: real, vn: real, ratio: real, barsPerPx: real)
    requires slot * vn == INNER_W && barsPerPx * (INNER_W * ratio) == vn && vn > 0.0
    ensures k * slot * ratio * barsPerPx == k
  {
    var unit := slot * ratio * barsPerPx;
    assert unit * vn == barsPerPx * ((slot * vn) * ratio);
    assert (unit - 1.0) * vn == 0.0;
    assert unit == 1.0;
    assert k * slot * ratio * barsPerPx == k * unit;
  }

  /** Pressing the button moves nothing, and dragging right by the width of k bars
      then brings the window k bars back, as far as there are any. */
  lemma DragMovesBars(c: Chart, x: real, width: real, k: int)
    requires Inv(c) && c.view.visibleCount < |c.bars| && width > 0.0
    ensures var vn := c.view.visibleCount; var c' := Step(c, PointerDown(x));
            && c'.view == c.view && c'.drag.Some?
            && Step(c', PointerMove(x + PixelsOf(k, vn, width), width)).view ==
                 View(vn, Clamp(c.view.viewEnd - k, vn, |c.bars|))
  {
    var vn := c.view.visibleCount;
    RenderedAsStored(c);
    var c' := Step(c, PointerDown(x));
    WholeBars(k, vn, width);
    DraggedBy(c', x + PixelsOf(k, vn, width), width, k);
  }

  // -------------------------------------------------------------- the component

  /** The component's state hooks and refs, updated by the effect and the
      handlers; every handler performs exactly one step of the model above. */
  class PriceChartView {
    var key: string
    var bars: seq<Bar>
    var visibleCount: int
    var viewEnd: int
    var dragRef: Option<Drag>
    var prevKey: string
    var prevN: int
    var prevOldest: Option<int>

    function Now(): Chart
      reads this
    {
      Chart(key, bars, View(visibleCount, viewEnd), dragRef)
    }

    /** The data effect has run for the data on screen. */
    ghost predicate Valid()
      reads this
    {
      prevKey == key && prevN == |bars| && prevOldest == OldestTime(bars) && Inv(Now())
    }

    constructor (key: string, bars: seq<Bar>)
      ensures Valid() && Now() == Mounted(key, bars)
    {
      this.key, this.bars := key, bars;
      visibleCount, viewEnd := if |bars| == 0 then 1 else |bars|, |bars|;
      dragRef := None;
      prevKey, prevN, prevOldest := key, |bars|, OldestTime(bars);
    }

    /** New props, then the effect on `[dataKey, n, oldestTime]`. */
    method DataArrived(newKey: string, newBars: seq<Bar>)
      requires Valid()
      modifies this
      ensures Valid() && Now() == Step(old(Now()), Data(newKey, newBars))
    {
      ghost var before := Now();
      key, bars := newKey, newBars;
      var n := |newBars|;
      var oldest := OldestTime(newBars);
      if newKey == prevKey && n == prevN && oldest == prevOldest {
        return;
      }
      var appended := if n > prevN && prevOldest == oldest then n - prevN else 0;
      var next := NextViewport(prevKey, prevN, View(visibleCount, viewEnd), newKey, n, appended);
      visibleCount := next.visibleCount;
      viewEnd := next.viewEnd;
      prevKey, prevN, prevOldest := newKey, n, oldest;
      StepKeepsInv(before, Data(newKey, newBars));
    }

    method ZoomTo(nextCount: real)
      requires Valid()
      modifies this`visibleCount, this`viewEnd
      ensures Valid() && Now() == Step(old(Now()), Zoom(nextCount))
    {
      var n := |bars|;
      if n == 0 {
        return;
      }
      ghost var before := Now();
      var count := Clamp(Round(nextCount), Min(MIN_VISIBLE, n), n);
      visibleCount := count;
      viewEnd := Clamp(viewEnd, count, n);
      StepKeepsInv(before, Zoom(nextCount));
    }

    method OnWheel(offset: real, width: real, zoomOut: bool)
      requires Valid() && width > 0.0
      modifies this`visibleCount, this`viewEnd
      ensures Valid() && Now() == Step(old(Now()), Wheel(offset, width, zoomOut))
    {
      var n := |bars|;
      if n == 0 {
        return;
      }
      ghost var before := Now();
      var frac := Fraction(offset, width);
      var count := WheelCount(Now(), zoomOut);
      var newStart := Clamp(WheelStart(Now(), frac, count), 0, Max(0, n - count));
      visibleCount := count;
      viewEnd := newStart + count;
      StepKeepsInv(before, Wheel(offset, width, zoomOut));
    }

    method OnPointerDown(x: real)
      requires Valid()
      modifies this`dragRef
      ensures Valid() && Now() == Step(old(Now()), PointerDown(x))
    {
      var n := |bars|;
      var view := View(visibleCount, viewEnd);
      if n == 0 || RenderEnd(view, n) - RenderStart(view, n) >= n {
        return;
      }
      dragRef := Some(Drag(x, RenderEnd(view, n)));
    }

    method OnPointerMove(x: real, width: real)
      requires Valid() && width > 0.0
      modifies this`viewEnd
      ensures Valid() && Now() == Step(old(Now()), PointerMove(x, width))
    {
      if dragRef == None {
        return;
      }
      ghost var before := Now();
      var view := View(visibleCount, viewEnd);
      var vn := RenderEnd(view, |bars|) - RenderStart(view, |bars|);
      var delta := DeltaBars(vn, x - dragRef.value.x, width);
      viewEnd := Clamp(dragRef.value.startEnd - delta, visibleCount, |bars|);
      StepKeepsInv(before, PointerMove(x, width));
    }

    method EndDrag()
      requires Valid()
      modifies this`dragRef
      ensures Valid() && Now() == Step(old(Now()), PointerUp)
    {
      dragRef := None;
    }

    method ShowAllBars()
      requires Valid() && bars != []
      modifies this`visibleCount, this`viewEnd
      ensures Valid() && Now() == Step(old(Now()), ShowAll)
    {
      visibleCount, viewEnd := |bars|, |bars|;
    }

    method JumpToLatest()
      requires Valid() && bars != []
      modifies this`viewEnd
      ensures Valid() && Now() == Step(old(Now()), Latest)
    {
      viewEnd := |bars|;
    }
  }
}
