/**
 * The deterministic part of the premium simulation: path prices advanced by given growth
 * factors, per-step average payoffs across paths, and the running best of those averages.
 *
 * growth[t][i] is the factor by which path i's price moves at step t + 1. The C++ pricer sets
 * the new price to exp(d) for a normal draw d centred on log(previous price) plus a drift,
 * which is the previous price times exp(d - log(previous price)); that factor is what the
 * random sampling supplies and what this model takes as an input.
 */
module MonteCarlo {
  import opened Payoff

  /** `steps` rows of growth factors, one factor per path in each row. */
  predicate WellFormed(growth: seq<seq<real>>, paths: nat, steps: nat)
  {
    |growth| == steps && forall t :: 0 <= t < steps ==> |growth[t]| == paths
  }

  /** One path's price after one step: the previous price times the step's growth factor. */
  function Grow(price: real, factor: real): real
  {
    price * factor
  }

  /** Every path price moves by one factor of the row. */
  function Advance(prices: seq<real>, factors: seq<real>): (r: seq<real>)
    requires |factors| == |prices|
    ensures |r| == |prices|
    ensures forall i :: 0 <= i < |r| ==> r[i] == Grow(prices[i], factors[i])
  {
    seq(|prices|, i requires 0 <= i < |prices| => Grow(prices[i], factors[i]))
  }

  /** The prices of all paths after `t` steps, every path starting at `spot`. */
  function PathPrices(spot: real, growth: seq<seq<real>>, paths: nat, t: nat): (r: seq<real>)
    requires t <= |growth| && WellFormed(growth, paths, |growth|)
    ensures |r| == paths
  {
    if t == 0 then seq(paths, _ => spot)
    else Advance(PathPrices(spot, growth, paths, t - 1), growth[t - 1])
  }

  /** The payoff of each path at the given prices. */
  function Payoffs(prices: seq<real>, strike: real, kind: OptionType): (r: seq<real>)
    ensures |r| == |prices|
    ensures forall i :: 0 <= i < |r| ==> r[i] == Profit(strike, prices[i], kind)
  {
    seq(|prices|, i requires 0 <= i < |prices| => Profit(strike, prices[i], kind))
  }

  /** Left-to-right sum from 0, the order std::accumulate adds in. */
  function Sum(s: seq<real>): real
  {
    if |s| == 0 then 0.0 else Sum(s[..|s| - 1]) + s[|s| - 1]
  }

  /** A total divided by a positive count. */
  function Mean(total: real, count: nat): real
    requires count > 0
  {
    total / count as real
  }

  /** The arithmetic mean of a non-empty sequence. */
  function Average(s: seq<real>): real
    requires |s| > 0
  {
    Mean(Sum(s), |s|)
  }

  /** The cross-path average payoff at step `t` (1-based). */
  function StepAverage(spot: real, strike: real, growth: seq<seq<real>>, paths: nat, kind: OptionType, t: nat): real
    requires paths > 0 && 1 <= t <= |growth| && WellFormed(growth, paths, |growth|)
  {
    Average(Payoffs(PathPrices(spot, growth, paths, t), strike, kind))
  }

  /** The running best after `t` steps: starts at 0 (expiry at time 0) and takes each step's average. */
  function BestAverage(spot: real, strike: real, growth: seq<seq<real>>, paths: nat, kind: OptionType, t: nat): real
    requires paths > 0 && t <= |growth| && WellFormed(growth, paths, |growth|)
  {
    if t == 0 then 0.0
    else Max(BestAverage(spot, strike, growth, paths, kind, t - 1), StepAverage(spot, strike, growth, paths, kind, t))
  }

  /**
   * One step of the simulation in terms of the arrays it updates: advancing the prices of
   * step t - 1 by row t - 1 gives the prices of step t, and the mean of the payoffs at those
   * prices is the step's average.
   */
  lemma StepFromPrevious(spot: real, strike: real, growth: seq<seq<real>>, paths: nat, t: nat,
                         prev: seq<real>, prices: seq<real>, calls: seq<real>, puts: seq<real>)
    requires paths > 0 && 1 <= t <= |growth| && WellFormed(growth, paths, |growth|)
    requires prev == PathPrices(spot, growth, paths, t - 1)
    requires prices == Advance(prev, growth[t - 1])
    requires calls == Payoffs(prices, strike, Call) && puts == Payoffs(prices, strike, Put)
    ensures prices == PathPrices(spot, growth, paths, t)
    ensures Mean(Sum(calls), paths) == StepAverage(spot, strike, growth, paths, Call, t)
    ensures Mean(Sum(puts), paths) == StepAverage(spot, strike, growth, paths, Put, t)
  {
  }

  /** The running best after step t from the running best before it and the step's average. */
  lemma BestAverageNext(spot: real, strike: real, growth: seq<seq<real>>, paths: nat, kind: OptionType, t: nat,
                        best: real, average: real)
    requires paths > 0 && 1 <= t <= |growth| && WellFormed(growth, paths, |growth|)
    requires best == BestAverage(spot, strike, growth, paths, kind, t - 1)
    requires average == StepAverage(spot, strike, growth, paths, kind, t)
    ensures BestAverage(spot, strike, growth, paths, kind, t) == Max(best, average)
  {
  }

  /** The sum a loop over an array computes, as std::accumulate does with initial value 0. */
  method Accumulate(a: array<real>) returns (s: real)
    ensures s == Sum(a[..])
  {
    s := 0.0;
    var i := 0;
    while i < a.Length
      invariant 0 <= i <= a.Length
      invariant s == Sum(a[..i])
    {
      assert a[..i + 1][..i] == a[..i];
      s := s + a[i];
      i := i + 1;
    }
    assert a[..a.Length] == a[..];
  }

  /** A sum of values no smaller than lo is no smaller than n * lo. */
  lemma {:induction false} SumAtLeast(s: seq<real>, lo: real)
    requires forall i :: 0 <= i < |s| ==> lo <= s[i]
    ensures |s| as real * lo <= Sum(s)
  {
    if |s| > 0 {
      var init := s[..|s| - 1];
      assert forall i :: 0 <= i < |init| ==> init[i] == s[i];
      SumAtLeast(init, lo);
      assert |s| as real * lo == |init| as real * lo + lo;
    }
  }

  /** A sum of values no larger than hi is no larger than n * hi. */
  lemma {:induction false} SumAtMost(s: seq<real>, hi: real)
    requires forall i :: 0 <= i < |s| ==> s[i] <= hi
    ensures Sum(s) <= |s| as real * hi
  {
    if |s| > 0 {
      var init := s[..|s| - 1];
      assert forall i :: 0 <= i < |init| ==> init[i] == s[i];
      SumAtMost(init, hi);
      assert |s| as real * hi == |init| as real * hi + hi;
    }
  }

  /** An average of values between lo and hi lies between lo and hi. */
  lemma AverageBounds(s: seq<real>, lo: real, hi: real)
    requires |s| > 0
    requires forall i :: 0 <= i < |s| ==> lo <= s[i] <= hi
    ensures lo <= Average(s) <= hi
  {
    SumAtLeast(s, lo);
    SumAtMost(s, hi);
    var n := |s| as real;
    assert n * lo <= Sum(s) <= n * hi;
    assert lo == (n * lo) / n && hi == (n * hi) / n;
  }

  /** Every per-step average payoff is non-negative, since every payoff is. */
  lemma StepAverageNonNegative(spot: real, strike: real, growth: seq<seq<real>>, paths: nat, kind: OptionType, t: nat)
    requires paths > 0 && 1 <= t <= |growth| && WellFormed(growth, paths, |growth|)
    ensures StepAverage(spot, strike, growth, paths, kind, t) >= 0.0
  {
    var p := Payoffs(PathPrices(spot, growth, paths, t), strike, kind);
    SumAtLeast(p, 0.0);
  }

  /** The running best is no smaller than 0 and than any per-step average of steps 1..t. */
  lemma {:induction false} BestAverageIsUpperBound(spot: real, strike: real, growth: seq<seq<real>>, paths: nat, kind: OptionType, t: nat)
    requires paths > 0 && t <= |growth| && WellFormed(growth, paths, |growth|)
    ensures BestAverage(spot, strike, growth, paths, kind, t) >= 0.0
    ensures forall s :: 1 <= s <= t ==> StepAverage(spot, strike, growth, paths, kind, s) <= BestAverage(spot, strike, growth, paths, kind, t)
  {
    if t > 0 {
      BestAverageIsUpperBound(spot, strike, growth, paths, kind, t - 1);
      var best := BestAverage(spot, strike, growth, paths, kind, t - 1);
      var average := StepAverage(spot, strike, growth, paths, kind, t);
      BestAverageNext(spot, strike, growth, paths, kind, t, best, average);
    }
  }

  /** The running best is attained: it is 0 or the per-step average of one of the steps 1..t. */
  lemma {:induction false} BestAverageIsAttained(spot: real, strike: real, growth: seq<seq<real>>, paths: nat, kind: OptionType, t: nat)
    requires paths > 0 && t <= |growth| && WellFormed(growth, paths, |growth|)
    ensures BestAverage(spot, strike, growth, paths, kind, t) == 0.0
         || exists s :: 1 <= s <= t && BestAverage(spot, strike, growth, paths, kind, t) == StepAverage(spot, strike, growth, paths, kind, s)
  {
    if t > 0 {
      BestAverageIsAttained(spot, strike, growth, paths, kind, t - 1);
      var best := BestAverage(spot, strike, growth, paths, kind, t - 1);
      var average := StepAverage(spot, strike, growth, paths, kind, t);
      BestAverageNext(spot, strike, growth, paths, kind, t, best, average);
      if BestAverage(spot, strike, growth, paths, kind, t) != best {
        assert BestAverage(spot, strike, growth, paths, kind, t) == average;
      }
    }
  }

  /** With a positive start and positive factors all path prices stay positive. */
  lemma {:induction false} PathPricesPositive(spot: real, growth: seq<seq<real>>, paths: nat, t: nat)
    requires t <= |growth| && WellFormed(growth, paths, |growth|)
    requires spot > 0.0
    requires forall s, i :: 0 <= s < t && 0 <= i < paths ==> growth[s][i] > 0.0
    ensures forall i :: 0 <= i < paths ==> PathPrices(spot, growth, paths, t)[i] > 0.0
  {
    if t > 0 {
      PathPricesPositive(spot, growth, paths, t - 1);
      var prev := PathPrices(spot, growth, paths, t - 1);
      forall i | 0 <= i < paths
        ensures PathPrices(spot, growth, paths, t)[i] > 0.0
      {
        assert prev[i] > 0.0 && growth[t - 1][i] > 0.0;
        assert PathPrices(spot, growth, paths, t)[i] == Grow(prev[i], growth[t - 1][i]);
      }
    }
  }

  /** With positive prices the best average put payoff never exceeds the strike. */
  lemma {:induction false} BestPutAtMostStrike(spot: real, strike: real, growth: seq<seq<real>>, paths: nat, t: nat)
    requires paths > 0 && t <= |growth| && WellFormed(growth, paths, |growth|)
    requires spot > 0.0 && strike >= 0.0
    requires forall s, i :: 0 <= s < |growth| && 0 <= i < paths ==> growth[s][i] > 0.0
    ensures BestAverage(spot, strike, growth, paths, Put, t) <= strike
  {
    if t > 0 {
      BestPutAtMostStrike(spot, strike, growth, paths, t - 1);
      PathPricesPositive(spot, growth, paths, t);
      var prices := PathPrices(spot, growth, paths, t);
      var p := Payoffs(prices, strike, Put);
      forall i | 0 <= i < |p| ensures 0.0 <= p[i] <= strike {
        PutProfitAtMostStrike(strike, prices[i]);
      }
      AverageBounds(p, 0.0, strike);
    }
  }
}
