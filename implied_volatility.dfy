/**
 * The bisection search for the volatility at which the pricer reproduces an observed premium.
 *
 * Each round builds a fresh pricer, whose random draws make its answer arbitrary; the search
 * is therefore described for every quote function `quote(k, v)`: the premium reported by the
 * pricer built in round k (counting from 0) at volatility v.
 */
module ImpliedVolatility {
  import opened Payoff
  import opened Pricer

  /** The initial bracket, the lowest and highest volatility thought plausible. */
  const LowVol: real := 0.03
  const HighVol: real := 6.0
  /** The default tolerance on the bracket width. */
  const DefaultTolerance: real := 0.00001

  function Pow2(n: nat): (p: nat)
    ensures p >= 1
  {
    if n == 0 then 1 else 2 * Pow2(n - 1)
  }

  lemma {:induction false} Pow2Monotone(m: nat, n: nat)
    requires m <= n
    ensures Pow2(m) <= Pow2(n)
  {
    if m < n {
      Pow2Monotone(m, n - 1);
    }
  }

  /** Dividing by the next power of two halves the quotient. */
  lemma HalveQuotient(w: real, n: nat)
    ensures w / Pow2(n + 1) as real == (w / Pow2(n) as real) / 2.0
    ensures w / Pow2(n + 1) as real == (w / 2.0) / Pow2(n) as real
  {
    var p := Pow2(n) as real;
    assert Pow2(n + 1) as real == 2.0 * p;
    assert p > 0.0;
    var q := w / p;
    assert q * p == w;
    assert (q / 2.0) * (2.0 * p) == w;
    var h := w / 2.0;
    assert (h / p) * p == h;
    assert (h / p) * (2.0 * p) == w;
  }

  lemma {:induction false} Pow2Add(m: nat, n: nat)
    ensures Pow2(m + n) == Pow2(m) * Pow2(n)
  {
    if n > 0 {
      Pow2Add(m, n - 1);
      assert Pow2(m + n) == 2 * Pow2(m + n - 1);
    }
  }

  /** Halving x >= 1 lowers its integer part. */
  lemma HalfFloorSmaller(x: real)
    requires x >= 1.0
    ensures (x / 2.0).Floor < x.Floor
  {
    var f := x.Floor;
    assert f as real <= x < f as real + 1.0;
    assert (x / 2.0).Floor as real <= x / 2.0;
  }

  /** ceil(log2(x)) for x > 1, and 0 otherwise: how many halvings bring x down to at most 1. */
  function CeilLog2(x: real): nat
    decreases x.Floor
  {
    if x <= 1.0 then 0
    else
      HalfFloorSmaller(x);
      1 + CeilLog2(x / 2.0)
  }

  /** With n = CeilLog2(x), x fits within 2^n, and not within 2^(n - 1) when n > 0. */
  lemma {:induction false} CeilLog2Bounds(x: real)
    ensures x <= Pow2(CeilLog2(x)) as real
    ensures CeilLog2(x) > 0 ==> x > Pow2(CeilLog2(x) - 1) as real
    decreases x.Floor
  {
    if x > 1.0 {
      HalfFloorSmaller(x);
      CeilLog2Bounds(x / 2.0);
    }
  }

  /** CeilLog2(x) is the least such count: any n with x <= 2^n is at least as large. */
  lemma CeilLog2Least(x: real, n: nat)
    requires x <= Pow2(n) as real
    ensures CeilLog2(x) <= n
  {
    var d := CeilLog2(x);
    if d > n {
      Pow2Monotone(n, d - 1);
      CeilLog2Bounds(x);
      assert false;
    }
  }

  /** How many halvings bring a bracket of the given width down to at most `tol`. */
  function Halvings(width: real, tol: real): nat
    requires tol > 0.0
  {
    CeilLog2(width / tol)
  }

  /** Halving a bracket wider than `tol` takes one halving off the count. */
  lemma HalvingsOfHalf(width: real, tol: real)
    requires tol > 0.0 && width > tol
    ensures Halvings(width / 2.0, tol) + 1 == Halvings(width, tol)
  {
    var x := width / tol;
    assert (width / 2.0) / tol == x / 2.0;
    assert x > 1.0;
  }

  /**
   * Halvings(width, tol) is ceil(log2(width / tol)) once width > tol, and the least n with
   * width / tol <= 2^n.
   */
  lemma HalvingsIsCeilLog2(width: real, tol: real, n: nat)
    requires tol > 0.0
    ensures width / tol <= Pow2(Halvings(width, tol)) as real
    ensures Halvings(width, tol) > 0 ==> width / tol > Pow2(Halvings(width, tol) - 1) as real
    ensures width / tol <= Pow2(n) as real ==> Halvings(width, tol) <= n
  {
    CeilLog2Bounds(width / tol);
    if width / tol <= Pow2(n) as real {
      CeilLog2Least(width / tol, n);
    }
  }

  /** With the default bracket and tolerance the search narrows the bracket 20 times. */
  lemma DefaultHalvings()
    ensures Halvings(HighVol - LowVol, DefaultTolerance) == 20
  {
    var x := (HighVol - LowVol) / DefaultTolerance;
    assert x == 597000.0;
    assert Pow2(5) == 32;
    Pow2Add(5, 5);
    Pow2Add(10, 10);
    assert Pow2(20) == 1048576 && Pow2(19) == 524288;
    CeilLog2Least(x, 20);
    var d := CeilLog2(x);
    if d < 20 {
      Pow2Monotone(d, 19);
      CeilLog2Bounds(x);
      assert false;
    }
  }

  /** How a search ends: the bracket got narrow enough, or some round's quote matched exactly. */
  datatype Outcome = Converged(low: real, high: real, rounds: nat) | Matched(mid: real, rounds: nat)
  {
    /** The volatility the search returns: the low end of the bracket, or the matching midpoint. */
    function Vol(): real
    {
      if Converged? then low else mid
    }
  }

  /**
   * The search from bracket [low, high] with k rounds already done: while the width exceeds
   * tol, price the midpoint; a quote above the premium moves the high end down to it, one below
   * moves the low end up to it, an exact match ends the search at the midpoint.
   */
  function Bisect(low: real, high: real, tol: real, premium: real, quote: (nat, real) -> real, k: nat): (o: Outcome)
    requires tol > 0.0 && low <= high
    decreases Halvings(high - low, tol)
  {
    if high - low <= tol then Converged(low, high, k)
    else
      var mid := (low + high) / 2.0;
      assert mid - low == (high - low) / 2.0 && high - mid == (high - low) / 2.0;
      HalvingsOfHalf(high - low, tol);
      if quote(k, mid) > premium then Bisect(low, mid, tol, premium, quote, k + 1)
      else if quote(k, mid) < premium then Bisect(mid, high, tol, premium, quote, k + 1)
      else Matched(mid, k + 1)
  }

  /**
   * With a negative tolerance no round can end the loop: the midpoint stays in the bracket, so
   * either half is at least 0 wide and still wider than tol; only an exact match returns.
   */
  lemma NegativeToleranceKeepsLooping(low: real, high: real, tol: real)
    requires tol < 0.0 && low <= high
    ensures high - low > tol
    ensures var mid := (low + high) / 2.0;
      low <= mid <= high && mid - low > tol && high - mid > tol
  {
  }

  /** One round of the search: the bracket shrinks to one half, chosen by the round's quote. */
  lemma BisectStep(low: real, high: real, tol: real, premium: real, quote: (nat, real) -> real, k: nat)
    requires tol > 0.0 && high - low > tol
    ensures var mid := (low + high) / 2.0;
      low <= mid <= high
      && Halvings(mid - low, tol) < Halvings(high - low, tol)
      && Halvings(high - mid, tol) < Halvings(high - low, tol)
      && Bisect(low, high, tol, premium, quote, k)
         == if quote(k, mid) > premium then Bisect(low, mid, tol, premium, quote, k + 1)
            else if quote(k, mid) < premium then Bisect(mid, high, tol, premium, quote, k + 1)
            else Matched(mid, k + 1)
  {
    var mid := (low + high) / 2.0;
    assert mid - low == (high - low) / 2.0 && high - mid == (high - low) / 2.0;
    HalvingsOfHalf(high - low, tol);
  }

  /** The answer always lies in the starting bracket; a converged bracket lies inside it. */
  lemma {:induction false} BisectInBracket(low: real, high: real, tol: real, premium: real, quote: (nat, real) -> real, k: nat)
    requires tol > 0.0 && low <= high
    ensures low <= Bisect(low, high, tol, premium, quote, k).Vol() <= high
    ensures Bisect(low, high, tol, premium, quote, k).Converged? ==>
              low <= Bisect(low, high, tol, premium, quote, k).low <= Bisect(low, high, tol, premium, quote, k).high <= high
    decreases Halvings(high - low, tol)
  {
    if high - low > tol {
      var mid := (low + high) / 2.0;
      assert mid - low == (high - low) / 2.0 && high - mid == (high - low) / 2.0;
      HalvingsOfHalf(high - low, tol);
      if quote(k, mid) > premium {
        BisectInBracket(low, mid, tol, premium, quote, k + 1);
      } else if quote(k, mid) < premium {
        BisectInBracket(mid, high, tol, premium, quote, k + 1);
      }
    }
  }

  /**
   * A converged search has done exactly Halvings(high - low, tol) rounds and ends with a bracket
   * at most tol wide; a matched search stopped within that many rounds, on a midpoint whose
   * quote equals the premium.
   */
  lemma {:induction false} BisectRounds(low: real, high: real, tol: real, premium: real, quote: (nat, real) -> real, k: nat)
    requires tol > 0.0 && low <= high
    ensures var o := Bisect(low, high, tol, premium, quote, k);
      k <= o.rounds <= k + Halvings(high - low, tol)
      && (o.Converged? ==> o.rounds == k + Halvings(high - low, tol) && o.high - o.low <= tol)
      && (o.Matched? ==> k < o.rounds && quote(o.rounds - 1, o.mid) == premium)
    decreases Halvings(high - low, tol)
  {
    if high - low > tol {
      var mid := (low + high) / 2.0;
      assert mid - low == (high - low) / 2.0 && high - mid == (high - low) / 2.0;
      HalvingsOfHalf(high - low, tol);
      if quote(k, mid) > premium {
        BisectRounds(low, mid, tol, premium, quote, k + 1);
      } else if quote(k, mid) < premium {
        BisectRounds(mid, high, tol, premium, quote, k + 1);
      }
    }
  }

  /** Every round halves the bracket exactly: a converged bracket is (high - low) / 2^rounds wide. */
  lemma {:induction false} BisectHalvesExactly(low: real, high: real, tol: real, premium: real, quote: (nat, real) -> real, k: nat)
    requires tol > 0.0 && low <= high
    ensures var o := Bisect(low, high, tol, premium, quote, k);
      o.rounds >= k && (o.Converged? ==> o.high - o.low == (high - low) / Pow2(o.rounds - k) as real)
    decreases Halvings(high - low, tol)
  {
    var o := Bisect(low, high, tol, premium, quote, k);
    if high - low > tol {
      var mid := (low + high) / 2.0;
      var half := (high - low) / 2.0;
      assert mid - low == half && high - mid == half;
      HalvingsOfHalf(high - low, tol);
      if quote(k, mid) > premium || quote(k, mid) < premium {
        var lo' := if quote(k, mid) > premium then low else mid;
        var hi' := if quote(k, mid) > premium then mid else high;
        assert o == Bisect(lo', hi', tol, premium, quote, k + 1);
        BisectHalvesExactly(lo', hi', tol, premium, quote, k + 1);
        if o.Converged? {
          var n := o.rounds - k;
          assert o.high - o.low == half / Pow2(n - 1) as real;
          HalveQuotient(high - low, n - 1);
        }
      }
    }
  }

  /** If every quote is above the premium only the high end moves: the low end is returned. */
  lemma {:induction false} AlwaysAboveKeepsLow(low: real, high: real, tol: real, premium: real, quote: (nat, real) -> real, k: nat)
    requires tol > 0.0 && low <= high
    requires forall j: nat, v: real :: quote(j, v) > premium
    ensures Bisect(low, high, tol, premium, quote, k).Converged?
    ensures Bisect(low, high, tol, premium, quote, k).low == low
    decreases Halvings(high - low, tol)
  {
    if high - low > tol {
      var mid := (low + high) / 2.0;
      assert mid - low == (high - low) / 2.0;
      HalvingsOfHalf(high - low, tol);
      assert quote(k, mid) > premium;
      AlwaysAboveKeepsLow(low, mid, tol, premium, quote, k + 1);
    }
  }

  /** If every quote is below the premium only the low end moves: the high end is kept. */
  lemma {:induction false} AlwaysBelowKeepsHigh(low: real, high: real, tol: real, premium: real, quote: (nat, real) -> real, k: nat)
    requires tol > 0.0 && low <= high
    requires forall j: nat, v: real :: quote(j, v) < premium
    ensures Bisect(low, high, tol, premium, quote, k).Converged?
    ensures Bisect(low, high, tol, premium, quote, k).high == high
    decreases Halvings(high - low, tol)
  {
    if high - low > tol {
      var mid := (low + high) / 2.0;
      assert high - mid == (high - low) / 2.0;
      HalvingsOfHalf(high - low, tol);
      assert quote(k, mid) < premium;
      AlwaysBelowKeepsHigh(mid, high, tol, premium, quote, k + 1);
    }
  }

  /** The search from the default bracket returns a volatility in [0.03, 6] ... */
  lemma SearchResultInRange(tol: real, premium: real, quote: (nat, real) -> real)
    requires tol > 0.0
    ensures LowVol <= Bisect(LowVol, HighVol, tol, premium, quote, 0).Vol() <= HighVol
    ensures Bisect(LowVol, HighVol, tol, premium, quote, 0).rounds <= Halvings(HighVol - LowVol, tol)
  {
    BisectInBracket(LowVol, HighVol, tol, premium, quote, 0);
    BisectRounds(LowVol, HighVol, tol, premium, quote, 0);
  }

  /** ... exactly 0.03 when every quote exceeds the premium ... */
  lemma SearchAlwaysAbove(tol: real, premium: real, quote: (nat, real) -> real)
    requires tol > 0.0
    requires forall j: nat, v: real :: quote(j, v) > premium
    ensures Bisect(LowVol, HighVol, tol, premium, quote, 0).Vol() == LowVol
  {
    AlwaysAboveKeepsLow(LowVol, HighVol, tol, premium, quote, 0);
  }

  /** ... and within tol below 6 when every quote is under the premium. */
  lemma SearchAlwaysBelow(tol: real, premium: real, quote: (nat, real) -> real)
    requires tol > 0.0
    requires forall j: nat, v: real :: quote(j, v) < premium
    ensures HighVol - tol <= Bisect(LowVol, HighVol, tol, premium, quote, 0).Vol() <= HighVol
  {
    AlwaysBelowKeepsHigh(LowVol, HighVol, tol, premium, quote, 0);
    BisectInBracket(LowVol, HighVol, tol, premium, quote, 0);
    BisectRounds(LowVol, HighVol, tol, premium, quote, 0);
  }

  /** With the default tolerance the search builds at most 20 pricers, exactly 20 unless a quote matches. */
  lemma DefaultSearchRounds(premium: real, quote: (nat, real) -> real)
    ensures Bisect(LowVol, HighVol, DefaultTolerance, premium, quote, 0).rounds <= 20
    ensures Bisect(LowVol, HighVol, DefaultTolerance, premium, quote, 0).Converged? ==>
              Bisect(LowVol, HighVol, DefaultTolerance, premium, quote, 0).rounds == 20
  {
    DefaultHalvings();
    BisectRounds(LowVol, HighVol, DefaultTolerance, premium, quote, 0);
  }

  /** The premium the pricer built in round k at volatility v reports. */
  function Quotes(spot: real, strike: real, kind: OptionType, draws: (nat, real) -> Draws): (quote: (nat, real) -> real)
  {
    (k: nat, v: real) => PremiumOf(spot, strike, draws(k, v), kind)
  }

  /** The pricer's premiums, round by round, are a quote function the search accepts. */
  lemma QuotesAgree(spot: real, strike: real, kind: OptionType, draws: (nat, real) -> Draws)
    ensures forall k: nat, v: real {:trigger PremiumOf(spot, strike, draws(k, v), kind)} ::
      Quotes(spot, strike, kind, draws)(k, v) == PremiumOf(spot, strike, draws(k, v), kind)
  {
  }

  /**
   * The implied-volatility search: bisects [0.03, 6] until it is at most tol wide, building a
   * fresh pricer at each midpoint. draws(k, v) stands for the random growth factors of the
   * pricer built in round k at volatility v, and quote(k, v) for the premium that pricer
   * reports (Quotes is one such function); `rounds` counts the pricers built.
   */
  method CalculateImpliedVolatility(time: real, spot: real, strike: real, rate: real, kind: OptionType,
                                    premium: real, tol: real, draws: (nat, real) -> Draws,
                                    ghost quote: (nat, real) -> real)
    returns (vol: real, ghost rounds: nat)
    requires tol > 0.0
    requires forall k: nat, v: real {:trigger PremiumOf(spot, strike, draws(k, v), kind)} ::
      quote(k, v) == PremiumOf(spot, strike, draws(k, v), kind)
    ensures var o := Bisect(LowVol, HighVol, tol, premium, quote, 0);
      vol == o.Vol() && rounds == o.rounds
    ensures LowVol <= vol <= HighVol
  {
    ghost var search := Bisect(LowVol, HighVol, tol, premium, quote, 0);
    var lowVol, highVol := LowVol, HighVol;
    var round: nat := 0;
    while highVol - lowVol > tol
      invariant LowVol <= lowVol <= highVol <= HighVol
      invariant Bisect(lowVol, highVol, tol, premium, quote, round) == search
      decreases Halvings(highVol - lowVol, tol)
    {
      var midVol := (lowVol + highVol) / 2.0;
      BisectStep(lowVol, highVol, tol, premium, quote, round);
      var model := new BSMModel(time, spot, strike, rate, midVol, draws(round, midVol));
      if model.GetPrice(kind) > premium {
        highVol := midVol;
      } else if model.GetPrice(kind) < premium {
        lowVol := midVol;
      } else {
        return midVol, round + 1;
      }
      round := round + 1;
    }
    return lowVol, round;
  }
}
