/** The crossover loop of the paper run and the account it trades on. */
module PaperRun {
  import opened Common
  import opened PaperTrading

  const FAST := 5
  const SLOW := 13

  datatype Side = Buy | Sell

  datatype Position = Position(side: Side, entry: nat, price: real)

  datatype Trade = Trade(side: Side, entry: nat, exit: nat, entryPrice: real, exitPrice: real)

  /** The trade a position becomes when it is closed. */
  function ClosedAt(p: Position, exit: nat, price: real): Trade { Trade(p.side, p.entry, exit, p.price, price) }

  datatype Paper = Paper(position: Option<Position>, trades: seq<Trade>)

  /** The simulated engine's answer at a bar: a fill price, or no position. */
  type Fills = nat -> Option<real>

  /** The two averages over one price history. */
  datatype Lines = Lines(fast: Series, slow: Series)

  predicate Ready(l: Lines, i: nat) {
    i < |l.fast| && i < |l.slow| && l.fast[i].Some? && l.slow[i].Some?
  }

  predicate Usable(l: Lines, i: nat) { i > 0 && Ready(l, i - 1) && Ready(l, i) }

  predicate CrossUp(l: Lines, i: nat)
    requires Usable(l, i)
  {
    l.fast[i - 1].value <= l.slow[i - 1].value && l.fast[i].value > l.slow[i].value
  }

  predicate CrossDown(l: Lines, i: nat)
    requires Usable(l, i)
  {
    l.fast[i - 1].value >= l.slow[i - 1].value && l.fast[i].value < l.slow[i].value
  }

  function StepBar(l: Lines, closes: seq<real>, fills: Fills, p: Paper, i: nat): Paper
    requires i < |closes|
  {
    if !Usable(l, i) then p
    else if p.position == None then
      if (CrossUp(l, i) || CrossDown(l, i)) && fills(i).Some? then
        p.(position := Some(Position(if CrossUp(l, i) then Buy else Sell, i, fills(i).value)))
      else p
    else
      var pos := p.position.value;
      if (pos.side == Buy && CrossDown(l, i)) || (pos.side == Sell && CrossUp(l, i)) then
        Paper(None, p.trades + [ClosedAt(pos, i, closes[i])])
      else p
  }

  /** After the bars before i. */
  function RunTo(l: Lines, closes: seq<real>, fills: Fills, i: nat): Paper
    requires i <= |closes|
  {
    if i <= 1 then Paper(None, []) else StepBar(l, closes, fills, RunTo(l, closes, fills, i - 1), i - 1)
  }

  function LinesOf(closes: seq<real>): Lines { Lines(EmaSeries(closes, FAST), EmaSeries(closes, SLOW)) }

  /** A position still open is flattened at the last close. */
  function Flattened(p: Paper, closes: seq<real>): seq<Trade> {
    match p.position
    case Some(pos) =>
      if closes == [] then p.trades
      else p.trades + [ClosedAt(pos, |closes| - 1, closes[|closes| - 1])]
    case None => p.trades
  }

  function TradesOf(closes: seq<real>, fills: Fills): seq<Trade> {
    Flattened(RunTo(LinesOf(closes), closes, fills, |closes|), closes)
  }

  // ---------------------------------------------------------- shape of the trades

  /** The average lines agree with holding this side at bar i. */
  predicate Favours(l: Lines, side: Side, i: nat) {
    Ready(l, i) && if side == Buy then l.fast[i].value >= l.slow[i].value else l.fast[i].value <= l.slow[i].value
  }

  predicate EntersOn(l: Lines, side: Side, i: nat) {
    Usable(l, i) && if side == Buy then CrossUp(l, i) else CrossDown(l, i)
  }

  /** Held from entry, with the lines in favour at every bar, up to `until`. */
  predicate HeldFor(l: Lines, side: Side, entry: nat, until: nat) {
    EntersOn(l, side, entry) && forall m :: entry <= m < until ==> Favours(l, side, m)
  }

  /** Opened on a cross, in favour at every bar since, and closed at the first
      bar that is strictly against it. */
  predicate ClosedOnCross(l: Lines, t: Trade) {
    && t.entry < t.exit && HeldFor(l, t.side, t.entry, t.exit)
    && Ready(l, t.exit) && !Favours(l, t.side, t.exit)
  }

  predicate OneAtATime(ts: seq<Trade>) {
    forall j, k :: 0 <= j < k < |ts| ==> ts[j].exit < ts[k].entry
  }

  predicate Tradable(l: Lines, fills: Fills, i: nat) {
    Usable(l, i) && (CrossUp(l, i) || CrossDown(l, i)) && fills(i).Some?
  }

  predicate TradeAround(ts: seq<Trade>, i: nat) {
    exists k :: 0 <= k < |ts| && ts[k].entry <= i <= ts[k].exit
  }

  ghost predicate PaperInv(l: Lines, fills: Fills, p: Paper, i: nat) {
    && (forall k :: 0 <= k < |p.trades| ==> ClosedOnCross(l, p.trades[k]) && p.trades[k].exit < i)
    && OneAtATime(p.trades)
    && (p.position.Some? ==>
          && p.position.value.entry < i && HeldFor(l, p.position.value.side, p.position.value.entry, i)
          && forall k :: 0 <= k < |p.trades| ==> p.trades[k].exit < p.position.value.entry)
    && (forall j :: 0 <= j < i && Tradable(l, fills, j) ==>
          TradeAround(p.trades, j) || (p.position.Some? && p.position.value.entry <= j))
  }

  /** Once defined, an average stays defined. */
  ghost predicate StaysReady(l: Lines) {
    forall i, j :: 0 <= i <= j && j < |l.fast| && j < |l.slow| && Ready(l, i) ==> Ready(l, j)
  }

  lemma AroundGrows(ts: seq<Trade>, t: Trade, j: nat)
    ensures TradeAround(ts, j) || t.entry <= j <= t.exit ==> TradeAround(ts + [t], j)
  {
    var all := ts + [t];
    if TradeAround(ts, j) {
      var k :| 0 <= k < |ts| && ts[k].entry <= j <= ts[k].exit;
      assert all[k] == ts[k];
    }
    assert all[|ts|] == t;
  }

  lemma StepKeepsInv(l: Lines, closes: seq<real>, fills: Fills, p: Paper, i: nat)
    requires i < |closes| && |l.fast| == |l.slow| == |closes| && StaysReady(l)
    requires PaperInv(l, fills, p, i)
    ensures PaperInv(l, fills, StepBar(l, closes, fills, p, i), i + 1)
  {
    if p.position.Some? {
      var pos := p.position.value;
      assert Ready(l, pos.entry);
      assert Usable(l, i);
      assert Favours(l, pos.side, i - 1);
      var t := ClosedAt(pos, i, closes[i]);
      forall j: nat { AroundGrows(p.trades, t, j); }
    }
  }

  lemma {:induction false} RunKeepsInv(l: Lines, closes: seq<real>, fills: Fills, i: nat)
    requires i <= |closes| && |l.fast| == |l.slow| == |closes| && StaysReady(l)
    ensures PaperInv(l, fills, RunTo(l, closes, fills, i), i)
    decreases i
  {
    if i > 1 {
      RunKeepsInv(l, closes, fills, i - 1);
      StepKeepsInv(l, closes, fills, RunTo(l, closes, fills, i - 1), i - 1);
    }
  }

  lemma LinesStayReady(closes: seq<real>)
    ensures StaysReady(LinesOf(closes))
  {
  }

  // ------------------------------------------------------------------ the prices

  /** Opened at the fill of its entry bar, closed at the close of its exit bar. */
  predicate PricedFrom(t: Trade, closes: seq<real>, fills: Fills) {
    fills(t.entry) == Some(t.entryPrice) && t.exit < |closes| && t.exitPrice == closes[t.exit]
  }

  ghost predicate AllPriced(p: Paper, closes: seq<real>, fills: Fills) {
    && (forall k :: 0 <= k < |p.trades| ==> PricedFrom(p.trades[k], closes, fills))
    && (p.position.Some? ==> fills(p.position.value.entry) == Some(p.position.value.price))
  }

  lemma {:induction false} RunPrices(l: Lines, closes: seq<real>, fills: Fills, i: nat)
    requires i <= |closes|
    ensures AllPriced(RunTo(l, closes, fills, i), closes, fills)
    decreases i
  {
    if i > 1 {
      RunPrices(l, closes, fills, i - 1);
    }
  }

  lemma TradesPriced(closes: seq<real>, fills: Fills)
    ensures var ts := TradesOf(closes, fills); forall k :: 0 <= k < |ts| ==> PricedFrom(ts[k], closes, fills)
  {
    RunPrices(LinesOf(closes), closes, fills, |closes|);
  }

  /** Both averages exist from the thirteenth bar on, and crosses one bar later. */
  lemma ReadyFrom(closes: seq<real>, i: nat)
    ensures Ready(LinesOf(closes), i) <==> 12 <= i < |closes|
    ensures Usable(LinesOf(closes), i) <==> 13 <= i < |closes|
  {
  }

  // ----------------------------------------------------------------- the crosses

  predicate Above(l: Lines, i: nat)
    requires Ready(l, i)
  {
    l.fast[i].value > l.slow[i].value
  }

  /** The fast average is up through the slow one somewhere between a bar where it
      is not above and a later one where it is. */
  lemma {:induction false} CrossBetween(l: Lines, i: nat, j: nat)
    requires i < j && (forall m :: i <= m <= j ==> Ready(l, m)) && !Above(l, i) && Above(l, j)
    ensures exists m :: i < m <= j && EntersOn(l, Buy, m)
    decreases j
  {
    if Above(l, j - 1) {
      CrossBetween(l, i, j - 1);
      var m :| i < m <= j - 1 && EntersOn(l, Buy, m);
      assert EntersOn(l, Buy, m);
    } else {
      assert EntersOn(l, Buy, j);
    }
  }

  /** A cross up ends above and starts from not above, and a cross down is a cross
      up with the two averages exchanged. */
  lemma CrossLaws(l: Lines, i: nat)
    requires Usable(l, i)
    ensures CrossUp(l, i) ==> Above(l, i) && !Above(l, i - 1)
    ensures CrossDown(l, i) <==> CrossUp(Lines(l.slow, l.fast), i)
  {
  }

  /** The trades of a whole run over averages of 5 and 13 bars: never two at once,
      none before bar 13; each opened on a cross at the fill of that bar, with
      the fast average on its side at every bar up to the exit; each closed, at
      the close, on the first bar strictly against it, or on the last bar by the
      final flatten; and every fillable cross lies inside some trade. */
  lemma TradesFollowTheLines(closes: seq<real>, fills: Fills)
    ensures var l := Lines(EmaSeries(closes, 5), EmaSeries(closes, 13)); var ts := TradesOf(closes, fills);
            && OneAtATime(ts)
            && (forall k :: 0 <= k < |ts| ==>
                  && 13 <= ts[k].entry <= ts[k].exit < |closes|
                  && fills(ts[k].entry) == Some(ts[k].entryPrice) && ts[k].exitPrice == closes[ts[k].exit]
                  && HeldFor(l, ts[k].side, ts[k].entry, ts[k].exit)
                  && (ClosedOnCross(l, ts[k]) || (k == |ts| - 1 && ts[k].exit == |closes| - 1 &&
                                                  Favours(l, ts[k].side, ts[k].exit))))
            && (forall j: nat :: j < |closes| && Tradable(l, fills, j) ==> TradeAround(ts, j))
  {
    var l := LinesOf(closes);
    LinesStayReady(closes);
    TradesPriced(closes, fills);
    RunKeepsInv(l, closes, fills, |closes|);
    var p := RunTo(l, closes, fills, |closes|);
    if p.position.Some? {
      var pos := p.position.value;
      var t := ClosedAt(pos, |closes| - 1, closes[|closes| - 1]);
      forall j: nat { AroundGrows(p.trades, t, j); }
    }
  }

  // ------------------------------------------------- what the trades depend on

  datatype Shape = Shape(side: Side, entry: nat, exit: nat)

  function Shapes(ts: seq<Trade>): seq<Shape> {
    seq(|ts|, k requires 0 <= k < |ts| => Shape(ts[k].side, ts[k].entry, ts[k].exit))
  }

  ghost predicate SameOrder(l: Lines, m: Lines) {
    && |l.fast| == |m.fast| && |l.slow| == |m.slow|
    && forall i :: 0 <= i < |l.fast| && i < |l.slow| ==>
         && (Ready(l, i) <==> Ready(m, i))
         && (Ready(l, i) ==> (l.fast[i].value < l.slow[i].value <==> m.fast[i].value < m.slow[i].value) &&
                             (l.fast[i].value > l.slow[i].value <==> m.fast[i].value > m.slow[i].value))
  }

  ghost predicate SameShape(p: Paper, q: Paper) {
    && Shapes(p.trades) == Shapes(q.trades)
    && p.position.Some? == q.position.Some?
    && (p.position.Some? ==>
          p.position.value.side == q.position.value.side && p.position.value.entry == q.position.value.entry)
  }

  lemma StepSameShape(l: Lines, m: Lines, closes: seq<real>, others: seq<real>, fills: Fills, fills': Fills,
                      p: Paper, q: Paper, i: nat)
    requires i < |closes| == |others| && |l.fast| == |l.slow| == |closes| && SameOrder(l, m)
    requires fills(i).Some? == fills'(i).Some? && SameShape(p, q)
    ensures SameShape(StepBar(l, closes, fills, p, i), StepBar(m, others, fills', q, i))
  {
    assert Usable(l, i) <==> Usable(m, i);
    if Usable(l, i) {
      assert CrossUp(l, i) <==> CrossUp(m, i);
      assert CrossDown(l, i) <==> CrossDown(m, i);
      if p.position.Some? {
        ShapesNext(p.trades, ClosedAt(p.position.value, i, closes[i]));
        ShapesNext(q.trades, ClosedAt(q.position.value, i, others[i]));
      }
    }
  }

  lemma ShapesNext(ts: seq<Trade>, t: Trade)
    ensures Shapes(ts + [t]) == Shapes(ts) + [Shape(t.side, t.entry, t.exit)]
  {
  }

  lemma {:induction false} RunSameShape(l: Lines, m: Lines, closes: seq<real>, others: seq<real>, fills: Fills,
                                        fills': Fills, i: nat)
    requires i <= |closes| == |others| && |l.fast| == |l.slow| == |closes| && SameOrder(l, m)
    requires forall j: nat :: fills(j).Some? == fills'(j).Some?
    ensures SameShape(RunTo(l, closes, fills, i), RunTo(m, others, fills', i))
    decreases i
  {
    if i > 1 {
      RunSameShape(l, m, closes, others, fills, fills', i - 1);
      StepSameShape(l, m, closes, others, fills, fills',
                    RunTo(l, closes, fills, i - 1), RunTo(m, others, fills', i - 1), i - 1);
    }
  }

  lemma MoveKeepsOrder(x: real, y: real, a: real, b: real)
    requires a > 0.0
    ensures x < y <==> Move(x, a, b) < Move(y, a, b)
  {
    ScaleBy(x, y, a);
    assert a * x == x * a && a * y == y * a;
  }

  lemma AffineSameOrder(closes: seq<real>, a: real, b: real)
    requires a > 0.0
    ensures SameOrder(LinesOf(closes), LinesOf(Affine(closes, a, b)))
  {
    var l, m := LinesOf(closes), LinesOf(Affine(closes, a, b));
    forall i | 0 <= i < |closes|
      ensures Ready(l, i) <==> Ready(m, i)
      ensures Ready(l, i) ==> (l.fast[i].value < l.slow[i].value <==> m.fast[i].value < m.slow[i].value) &&
                              (l.fast[i].value > l.slow[i].value <==> m.fast[i].value > m.slow[i].value)
    {
      if Ready(l, i) {
        EmaAffine(closes, FAST, i, a, b);
        EmaAffine(closes, SLOW, i, a, b);
        MoveKeepsOrder(l.fast[i].value, l.slow[i].value, a, b);
        MoveKeepsOrder(l.slow[i].value, l.fast[i].value, a, b);
      }
    }
  }

  /** A change of price unit or offset leaves every signal, and so the side,
      entry and exit of every trade, as they were. */
  lemma TradesAffineInvariant(closes: seq<real>, a: real, b: real, fills: Fills, fills': Fills)
    requires a > 0.0 && forall j: nat :: fills(j).Some? == fills'(j).Some?
    ensures Shapes(TradesOf(Affine(closes, a, b), fills')) == Shapes(TradesOf(closes, fills))
  {
    var others := Affine(closes, a, b);
    AffineSameOrder(closes, a, b);
    RunSameShape(LinesOf(closes), LinesOf(others), closes, others, fills, fills', |closes|);
    var p, q := RunTo(LinesOf(closes), closes, fills, |closes|), RunTo(LinesOf(others), others, fills', |others|);
    if p.position.Some? && closes != [] {
      var n := |closes| - 1;
      ShapesNext(p.trades, ClosedAt(p.position.value, n, closes[n]));
      ShapesNext(q.trades, ClosedAt(q.position.value, n, others[n]));
    }
  }

  /** No look-ahead: what has been traded and is held before bar i depends only
      on the closes and fills before bar i. */
  lemma {:induction false} RunCausal(closes: seq<real>, others: seq<real>, fills: Fills, i: nat)
    requires i <= |closes| && i <= |others|
    requires forall j :: 0 <= j < i ==> closes[j] == others[j]
    ensures RunTo(LinesOf(closes), closes, fills, i) == RunTo(LinesOf(others), others, fills, i)
    decreases i
  {
    if i > 1 {
      RunCausal(closes, others, fills, i - 1);
      LineCausal(closes, others, i - 1);
      LineCausal(closes, others, i - 2);
    }
  }

  lemma LineCausal(closes: seq<real>, others: seq<real>, i: nat)
    requires i < |closes| && i < |others|
    requires forall j :: 0 <= j <= i ==> closes[j] == others[j]
    ensures LinesOf(closes).fast[i] == LinesOf(others).fast[i]
    ensures LinesOf(closes).slow[i] == LinesOf(others).slow[i]
  {
    if FAST <= i + 1 {
      EmaCausal(closes, others, FAST, i);
    }
    if SLOW <= i + 1 {
      EmaCausal(closes, others, SLOW, i);
    }
  }

  // ------------------------------------------------------------------ the account

  function Pnl(side: Side, entryPrice: real, exitPrice: real, lots: real): real {
    if side == Buy then (exitPrice - entryPrice) * lots else (entryPrice - exitPrice) * lots
  }

  /** A BUY gains exactly when it is closed above its entry, a SELL loses what the
      BUY gains; gains add up along the way and with the size; and one price unit
      on one lot is one. */
  lemma PnlLaws(a: real, b: real, c: real, lots: real)
    requires lots > 0.0
    ensures Pnl(Buy, a, b, lots) > 0.0 <==> b > a
    ensures Pnl(Sell, a, b, lots) == -Pnl(Buy, a, b, lots)
    ensures Pnl(Buy, a, b, lots) + Pnl(Buy, b, c, lots) == Pnl(Buy, a, c, lots)
    ensures Pnl(Buy, a, b, lots) == Pnl(Buy, a, b, 1.0) * lots && Pnl(Buy, a, a + 1.0, 1.0) == 1.0
  {
    ScaleBy(a, b, lots);
    assert Pnl(Buy, a, b, lots) == b * lots - a * lots;
    assert Pnl(Buy, b, c, lots) == c * lots - b * lots;
    assert Pnl(Buy, a, c, lots) == c * lots - a * lots;
    assert Pnl(Sell, a, b, lots) == a * lots - b * lots;
  }

  function Pnls(ts: seq<Trade>, lots: real): seq<real> {
    seq(|ts|, k requires 0 <= k < |ts| => Pnl(ts[k].side, ts[k].entryPrice, ts[k].exitPrice, lots))
  }

  lemma PnlsNext(ts: seq<Trade>, t: Trade, lots: real)
    ensures Pnls(ts + [t], lots) == Pnls(ts, lots) + [Pnl(t.side, t.entryPrice, t.exitPrice, lots)]
  {
  }

  lemma SumNext(xs: seq<real>, x: real)
    ensures Sum(xs + [x]) == Sum(xs) + x
  {
    assert (xs + [x])[..|xs|] == xs;
  }

  /** What the trades earn, read off the closes and the fills alone. */
  function Earned(ts: seq<Trade>, closes: seq<real>, fills: Fills, lots: real): real
    requires forall k :: 0 <= k < |ts| ==> PricedFrom(ts[k], closes, fills)
  {
    if ts == [] then 0.0
    else
      var t := ts[|ts| - 1];
      assert PricedFrom(t, closes, fills);
      var rise := closes[t.exit] - fills(t.entry).value;
      Earned(ts[..|ts| - 1], closes, fills, lots) + (if t.side == Buy then rise else -rise) * lots
  }

  lemma {:induction false} SumIsEarned(ts: seq<Trade>, closes: seq<real>, fills: Fills, lots: real)
    requires forall k :: 0 <= k < |ts| ==> PricedFrom(ts[k], closes, fills)
    ensures Sum(Pnls(ts, lots)) == Earned(ts, closes, fills, lots)
    decreases |ts|
  {
    if ts != [] {
      var init, t := ts[..|ts| - 1], ts[|ts| - 1];
      SumIsEarned(init, closes, fills, lots);
      assert ts == init + [t];
      PnlsNext(init, t, lots);
      SumNext(Pnls(init, lots), Pnl(t.side, t.entryPrice, t.exitPrice, lots));
    }
  }

  /** The whole run's earnings. */
  function Earnings(closes: seq<real>, fills: Fills, lots: real): real {
    TradesPriced(closes, fills);
    Earned(TradesOf(closes, fills), closes, fills, lots)
  }

  lemma EarningsAreSum(closes: seq<real>, fills: Fills, lots: real)
    ensures Sum(Pnls(TradesOf(closes, fills), lots)) == Earnings(closes, fills, lots)
  {
    TradesPriced(closes, fills);
    SumIsEarned(TradesOf(closes, fills), closes, fills, lots);
  }

  /** `lots` is the volume times the symbol's contract size. */
  class PaperAccount {
    const lots: real
    var balance: real
    var positions: seq<Position>

    constructor (lots: real, initialBalance: real)
      ensures this.lots == lots && balance == initialBalance && positions == []
    {
      this.lots, balance, positions := lots, initialBalance, [];
    }

    method AddPosition(p: Position)
      modifies this`positions
      ensures positions == old(positions) + [p]
    {
      positions := positions + [p];
    }

    /** `remove_position`: the first position on that side. */
    method RemovePosition(side: Side) returns (p: Option<Position>)
      modifies this`positions
      ensures p == None ==> positions == old(positions) && forall q :: q in positions ==> q.side != side
      ensures p.Some? ==>
                exists k :: 0 <= k < |old(positions)| && p.value == old(positions)[k] && p.value.side == side &&
                                      (forall j :: 0 <= j < k ==> old(positions)[j].side != side) &&
                                      positions == old(positions)[..k] + old(positions)[k + 1..]
    {
      for i := 0 to |positions|
        invariant positions == old(positions)
        invariant forall j :: 0 <= j < i ==> positions[j].side != side
      {
        if positions[i].side == side {
          p := Some(positions[i]);
          positions := positions[..i] + positions[i + 1..];
          return;
        }
      }
      p := None;
    }

    /** `close_position`: the realised profit is booked on the balance. */
    method ClosePosition(side: Side, price: real) returns (pnl: Option<real>)
      modifies this`positions, this`balance
      ensures |old(positions)| == 1 && old(positions)[0].side == side ==>
                && positions == [] && pnl == Some(Pnl(side, old(positions)[0].price, price, lots))
                && balance == old(balance) + pnl.value
                && pnl.value == (if side == Buy then price - old(positions)[0].price
                                 else old(positions)[0].price - price) * lots
      ensures pnl == None ==> balance == old(balance) && positions == old(positions)
    {
      var p := RemovePosition(side);
      if p == None {
        return None;
      }
      var gain := Pnl(p.value.side, p.value.price, price, lots);
      balance := balance + gain;
      pnl := Some(gain);
    }
  }

  ghost predicate Booked(account: PaperAccount, initial: real, p: Paper, realized: seq<real>)
    reads account
  {
    && realized == Pnls(p.trades, account.lots)
    && account.balance == initial + Sum(realized)
    && account.positions == if p.position.Some? then [p.position.value] else []
  }

  /** Closing the open position: its profit is realised and booked. */
  method Realize(account: PaperAccount, side: Side, price: real, realized: seq<real>, ghost initial: real,
                 ghost p: Paper, ghost exit: nat) returns (now: seq<real>)
    requires Booked(account, initial, p, realized) && p.position.Some? && p.position.value.side == side
    modifies account
    ensures Booked(account, initial, Paper(None, p.trades + [ClosedAt(p.position.value, exit, price)]), now)
  {
    PnlsNext(p.trades, ClosedAt(p.position.value, exit, price), account.lots);
    var pnl := account.ClosePosition(side, price);
    SumNext(realized, pnl.value);
    now := realized + [pnl.value];
  }

  /** The loop over the bars; `openSide` is what it remembers of the position. */
  method TradeBars(closes: seq<real>, fills: Fills, account: PaperAccount, l: Lines)
    returns (realized: seq<real>, openSide: Option<Side>)
    requires account.positions == [] && closes != []
    modifies account
    ensures var p := RunTo(l, closes, fills, |closes|);
            && Booked(account, old(account.balance), p, realized)
            && openSide == if p.position.Some? then Some(p.position.value.side) else None
  {
    openSide := None;
    realized := [];
    ghost var p := Paper(None, []);
    for i := 1 to |closes|
      invariant p == RunTo(l, closes, fills, i)
      invariant Booked(account, old(account.balance), p, realized)
      invariant openSide == if p.position.Some? then Some(p.position.value.side) else None
    {
      ghost var next := StepBar(l, closes, fills, p, i);
      if Usable(l, i) {
        var price := closes[i];
        var crossUp := CrossUp(l, i);
        var crossDown := CrossDown(l, i);
        if openSide == None && (crossUp || crossDown) {
          var side := if crossUp then Buy else Sell;
          var fill := fills(i);
          if fill.Some? {
            account.AddPosition(Position(side, i, fill.value));
            openSide := Some(side);
          }
        } else if openSide.Some? {
          var hit := (openSide == Some(Buy) && crossDown) || (openSide == Some(Sell) && crossUp);
          if hit {
            realized := Realize(account, openSide.value, price, realized, old(account.balance), p, i);
            openSide := None;
          }
        }
      }
      p := next;
    }
  }

  /** `run_paper`'s trading loop and the final flatten.  The realised profits are
      those of the trades above, nothing stays open, and the balance has grown by
      what the closes and fills of the trades say. */
  method RunPaper(closes: seq<real>, fills: Fills, account: PaperAccount) returns (realized: seq<real>)
    requires account.positions == []
    modifies account
    ensures realized == Pnls(TradesOf(closes, fills), account.lots)
    ensures account.positions == []
    ensures account.balance == old(account.balance) + Sum(realized)
    ensures account.balance == old(account.balance) + Earnings(closes, fills, account.lots)
  {
    EarningsAreSum(closes, fills, account.lots);
    if closes == [] {
      return [];
    }
    var fast := ComputeEma(closes, FAST);
    var slow := ComputeEma(closes, SLOW);
    var openSide;
    realized, openSide := TradeBars(closes, fills, account, Lines(fast, slow));
    if openSide.Some? {
      var last := |closes| - 1;
      realized := Realize(account, openSide.value, closes[last], realized, old(account.balance),
                          RunTo(LinesOf(closes), closes, fills, |closes|), last);
    }
  }
}
