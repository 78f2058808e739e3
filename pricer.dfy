/**
 * The Black-Scholes-Merton Monte Carlo pricer: built with the contract parameters, it runs
 * the whole simulation in its constructor and afterwards only answers price queries.
 */
module Pricer {
  import opened Payoff
  import opened MonteCarlo

  /** The default number of simulated paths and of time steps. */
  const Simulations: nat := 10000
  const TimeSteps: nat := 100

  /** A full set of growth factors for the default simulation size. */
  type Draws = g: seq<seq<real>> | WellFormed(g, Simulations, TimeSteps)
    witness seq(TimeSteps, _ => seq(Simulations, _ => 1.0))

  /** The premium a pricer reports: the best per-step average payoff over the whole horizon. */
  function PremiumOf(spot: real, strike: real, growth: Draws, kind: OptionType): (p: real)
  {
    BestAverage(spot, strike, growth, Simulations, kind, TimeSteps)
  }

  class BSMModel {
    const Time: real
    const Spot: real
    const Strike: real
    const Rate: real
    const Sigma: real
    /** The growth factors the simulation draws. */
    const Growth: Draws

    var call: real
    var put: real

    /** The stored premiums are those of the simulation this pricer ran. */
    ghost predicate Valid()
      reads this
    {
      call == PremiumOf(Spot, Strike, Growth, Call) && put == PremiumOf(Spot, Strike, Growth, Put)
    }

    constructor (time: real, spot: real, strike: real, rate: real, sigma: real, growth: Draws)
      ensures Time == time && Spot == spot && Strike == strike && Rate == rate && Sigma == sigma
      ensures Growth == growth
      ensures Valid()
    {
      Time, Spot, Strike, Rate, Sigma := time, spot, strike, rate, sigma;
      Growth := growth;
      new;
      CalculatePremiums();
    }

    /**
     * Advances every path through the default number of steps in place, recording each path's
     * call and put payoff at each step, and keeps the best cross-path average of each kind,
     * starting at 0. Its only effect is to set call and put to the premiums of this pricer's
     * draws, so it establishes Valid() and running it again changes nothing.
     */
    method CalculatePremiums()
      modifies this
      ensures Valid()
    {
      var growth, simulations, steps := Growth, Simulations, TimeSteps;
      var spots, callProfits, putProfits := StartPaths(growth, simulations);
      var bestCall, bestPut := 0.0, 0.0;
      var time := 1;
      while time <= steps
        invariant 1 <= time <= steps + 1
        invariant spots[..] == PathPrices(Spot, growth, simulations, time - 1)
        invariant bestCall == BestAverage(Spot, Strike, growth, simulations, Call, time - 1)
        invariant bestPut == BestAverage(Spot, Strike, growth, simulations, Put, time - 1)
      {
        bestCall, bestPut := SimulateStep(spots, callProfits, putProfits, growth, simulations, time, bestCall, bestPut);
        time := time + 1;
      }
      call := bestCall;
      put := bestPut;
    }

    /** Every path starts at the spot price; no payoff has been recorded yet. */
    method StartPaths(growth: seq<seq<real>>, simulations: nat)
      returns (spots: array<real>, callProfits: array<real>, putProfits: array<real>)
      requires WellFormed(growth, simulations, |growth|)
      ensures fresh(spots) && fresh(callProfits) && fresh(putProfits)
      ensures spots != callProfits && spots != putProfits && callProfits != putProfits
      ensures spots.Length == callProfits.Length == putProfits.Length == simulations
      ensures spots[..] == PathPrices(Spot, growth, simulations, 0)
      ensures forall i :: 0 <= i < simulations ==> callProfits[i] == 0.0 && putProfits[i] == 0.0
    {
      spots := new real[simulations](_ => Spot);
      callProfits := new real[simulations](_ => 0.0);
      putProfits := new real[simulations](_ => 0.0);
      assert spots[..] == PathPrices(Spot, growth, simulations, 0);
    }

    /**
     * Step `time` of the simulation: moves the path prices of the previous step on by one row
     * of factors, averages the call and put payoffs at the new prices across paths, and folds
     * those averages into the running best of each kind.
     */
    method SimulateStep(spots: array<real>, callProfits: array<real>, putProfits: array<real>,
                        growth: seq<seq<real>>, simulations: nat, time: nat, bestCall: real, bestPut: real)
      returns (nextCall: real, nextPut: real)
      requires simulations > 0 && 1 <= time <= |growth| && WellFormed(growth, simulations, |growth|)
      requires spots.Length == callProfits.Length == putProfits.Length == simulations
      requires spots != callProfits && spots != putProfits && callProfits != putProfits
      requires spots[..] == PathPrices(Spot, growth, simulations, time - 1)
      requires bestCall == BestAverage(Spot, Strike, growth, simulations, Call, time - 1)
      requires bestPut == BestAverage(Spot, Strike, growth, simulations, Put, time - 1)
      modifies spots, callProfits, putProfits
      ensures spots[..] == PathPrices(Spot, growth, simulations, time)
      ensures nextCall == BestAverage(Spot, Strike, growth, simulations, Call, time)
      ensures nextPut == BestAverage(Spot, Strike, growth, simulations, Put, time)
      ensures callProfits[..] == Payoffs(spots[..], Strike, Call)
      ensures putProfits[..] == Payoffs(spots[..], Strike, Put)
    {
      ghost var prev := spots[..];
      AdvancePaths(spots, callProfits, putProfits, growth[time - 1]);
      StepFromPrevious(Spot, Strike, growth, simulations, time, prev, spots[..], callProfits[..], putProfits[..]);
      var callSum := Accumulate(callProfits);
      var putSum := Accumulate(putProfits);
      var callAverage := Mean(callSum, simulations);
      var putAverage := Mean(putSum, simulations);
      BestAverageNext(Spot, Strike, growth, simulations, Call, time, bestCall, callAverage);
      BestAverageNext(Spot, Strike, growth, simulations, Put, time, bestPut, putAverage);
      nextCall := Max(bestCall, callAverage);
      nextPut := Max(bestPut, putAverage);
    }

    /**
     * One time step of the simulation: overwrites each path's price, exactly once and in
     * index order, with its previous price times the step's factor, and records the call and
     * put payoffs at the new price.
     */
    method AdvancePaths(spots: array<real>, callProfits: array<real>, putProfits: array<real>, factors: seq<real>)
      requires spots.Length == callProfits.Length == putProfits.Length == |factors|
      requires spots != callProfits && spots != putProfits && callProfits != putProfits
      modifies spots, callProfits, putProfits
      ensures spots[..] == Advance(old(spots[..]), factors)
      ensures callProfits[..] == Payoffs(spots[..], Strike, Call)
      ensures putProfits[..] == Payoffs(spots[..], Strike, Put)
    {
      ghost var next := Advance(spots[..], factors);
      var i := 0;
      while i < spots.Length
        invariant 0 <= i <= spots.Length
        invariant forall j :: 0 <= j < i ==> spots[j] == next[j]
        invariant forall j :: i <= j < spots.Length ==> spots[j] == old(spots[j])
        invariant forall j :: 0 <= j < i ==> callProfits[j] == Profit(Strike, next[j], Call)
        invariant forall j :: 0 <= j < i ==> putProfits[j] == Profit(Strike, next[j], Put)
      {
        var prevPrice := spots[i];
        spots[i] := Grow(prevPrice, factors[i]);
        callProfits[i] := Profit(Strike, spots[i], Call);
        putProfits[i] := Profit(Strike, spots[i], Put);
        i := i + 1;
      }
      assert spots[..] == next;
    }

    /** The stored premium of the requested kind: the best average payoff, never negative. */
    function GetPrice(kind: OptionType): (p: real)
      reads this
      requires Valid()
      ensures p == PremiumOf(Spot, Strike, Growth, kind)
      ensures p >= 0.0
    {
      BestAverageIsUpperBound(Spot, Strike, Growth, Simulations, kind, TimeSteps);
      if kind == Call then call else put
    }
  }
}
