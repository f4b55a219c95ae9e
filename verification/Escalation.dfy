/** The backtest loop that doubles its request until there are enough trades. */
module Escalation {
  import opened Common

  const MIN_CLOSES := 60

  /** What the k-th fetch and backtest of a run return. */
  datatype Attempt = Attempt(closes: nat, trades: nat)

  datatype Report = TooFewBars(closes: nat) | Done(closes: nat, trades: nat)

  function Power2(j: nat): nat { if j == 0 then 1 else 2 * Power2(j - 1) }

  function Next(count: int, maxBars: int): int { Min(count * 2, maxBars) }

  /** The j-th request of a run that gets that far. */
  function Request(minBars: int, maxBars: int, j: nat): int {
    if j == 0 then minBars else Next(Request(minBars, maxBars, j - 1), maxBars)
  }

  lemma {:induction false} RequestIsDoubled(minBars: int, maxBars: int, j: nat)
    requires 1 <= minBars <= maxBars
    ensures Request(minBars, maxBars, j) == Min(minBars * Power2(j), maxBars)
    decreases j
  {
    if j > 0 {
      RequestIsDoubled(minBars, maxBars, j - 1);
      PowerPositive(j - 1);
      ProductAtLeast(minBars, Power2(j - 1));
      ProductDoubles(minBars, Power2(j - 1));
    }
  }

  lemma ProductDoubles(a: int, p: int)
    ensures a * (2 * p) == 2 * (a * p)
  {
  }

  lemma ProductAtLeast(a: int, p: int)
    requires a >= 1 && p >= 1
    ensures a * p >= p
  {
    assert (a - 1) * p >= 0;
  }

  lemma {:induction false} PowerPositive(j: nat)
    ensures Power2(j) >= 1 && Power2(j) > j
  {
    if j > 0 {
      PowerPositive(j - 1);
    }
  }

  predicate Stops(a: Attempt, request: int, maxBars: int, target: int) {
    a.closes < MIN_CLOSES || a.trades >= target || request >= maxBars
  }

  /** A loop goes on after at least 60 closes with too few trades, below the cap. */
  predicate GoesOn(a: Attempt, request: int, maxBars: int, target: int) {
    a.closes >= 60 && a.trades < target && request < maxBars
  }

  /** What makes the loop stop is exactly what keeps it from going on. */
  lemma StopsOrGoesOn(a: Attempt, request: int, maxBars: int, target: int)
    ensures Stops(a, request, maxBars, target) <==> !GoesOn(a, request, maxBars, target)
  {
  }

  predicate StopsAt(minBars: int, maxBars: int, target: int, world: nat -> Attempt, j: nat) {
    Stops(world(j), Request(minBars, maxBars, j), maxBars, target)
  }

  /** `_run_backtest_with_escalation`.  `world` answers the successive attempts;
      `runs` is the number of fetches made. */
  method RunWithEscalation(minBars: int, maxBars: int, target: int, world: nat -> Attempt)
    returns (report: Report, runs: nat)
    requires minBars >= 1 || minBars >= maxBars
    ensures runs >= 1
    ensures forall j: nat :: j < runs - 1 ==> !StopsAt(minBars, maxBars, target, world, j)
    ensures StopsAt(minBars, maxBars, target, world, runs - 1)
    ensures report == if world(runs - 1).closes < MIN_CLOSES then TooFewBars(world(runs - 1).closes)
                      else Done(world(runs - 1).closes, world(runs - 1).trades)
  {
    var count := minBars;
    runs := 0;
    while true
      invariant count == Request(minBars, maxBars, runs) && (count >= 1 || count >= maxBars)
      invariant forall j: nat :: j < runs ==> !StopsAt(minBars, maxBars, target, world, j)
      decreases maxBars - count
    {
      var a := world(runs);
      runs := runs + 1;
      if a.closes < MIN_CLOSES {
        return TooFewBars(a.closes), runs;
      }
      if a.trades >= target || count >= maxBars {
        return Done(a.closes, a.trades), runs;
      }
      count := Min(count * 2, maxBars);
    }
  }

  /** An ok report has enough trades or asked for the cap, and a run makes a
      second request only below the cap: the request before the last is
      min * 2^(runs - 2) and still under max, so runs grow with log2(max / min). */
  lemma EscalationBounds(minBars: int, maxBars: int, target: int, world: nat -> Attempt, runs: nat)
    requires 1 <= minBars <= maxBars && runs >= 1
    requires forall j: nat :: j < runs - 1 ==> !StopsAt(minBars, maxBars, target, world, j)
    requires StopsAt(minBars, maxBars, target, world, runs - 1)
    ensures world(runs - 1).closes >= MIN_CLOSES ==>
              world(runs - 1).trades >= target || Request(minBars, maxBars, runs - 1) == maxBars
    ensures runs >= 2 ==> minBars * Power2(runs - 2) < maxBars
    ensures forall j: nat :: j < runs ==> minBars <= Request(minBars, maxBars, j) <= maxBars
  {
    forall j: nat | j < runs ensures minBars <= Request(minBars, maxBars, j) <= maxBars {
      RequestIsDoubled(minBars, maxBars, j);
      PowerPositive(j);
      ProductAtLeast(Power2(j), minBars);
      assert minBars * Power2(j) == Power2(j) * minBars;
    }
    if runs >= 2 {
      RequestIsDoubled(minBars, maxBars, runs - 2);
      assert !StopsAt(minBars, maxBars, target, world, runs - 2);
    }
  }

  lemma {:induction false} NonPositiveNeverReachesCap(minBars: int, maxBars: int, j: nat)
    requires minBars <= 0 && minBars < maxBars
    ensures Request(minBars, maxBars, j) <= 0 && Request(minBars, maxBars, j) < maxBars
    decreases j
  {
    if j > 0 {
      NonPositiveNeverReachesCap(minBars, maxBars, j - 1);
    }
  }

  /** The doubling reaches the cap exactly when it starts at one or more, or at
      the cap already; otherwise nothing but the market stops the loop. */
  lemma CapReachedIff(minBars: int, maxBars: int)
    ensures (exists j: nat :: Request(minBars, maxBars, j) >= maxBars) <==> minBars >= 1 || minBars >= maxBars
  {
    if minBars >= maxBars {
      assert Request(minBars, maxBars, 0) >= maxBars;
    } else if minBars >= 1 {
      RequestIsDoubled(minBars, maxBars, maxBars);
      PowerPositive(maxBars);
      ProductAtLeast(minBars, Power2(maxBars));
    } else {
      forall j: nat ensures Request(minBars, maxBars, j) < maxBars {
        NonPositiveNeverReachesCap(minBars, maxBars, j);
      }
    }
  }
}
