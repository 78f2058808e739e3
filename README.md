# Implied volatility by Monte Carlo pricing and bisection

This project models a small C++ program that finds the implied volatility of a vanilla European option. It has two parts:

- **The pricer (`BSMmodel`).** It is built from the time to maturity, the spot, the strike, the risk-free rate and a volatility.
  - Its constructor simulates 10000 geometric-Brownian price paths over 100 time steps.
  - At each step it averages the call and put payoffs across all paths.
  - It keeps the best of those per-step averages, starting from 0 (expiry at time 0), as the call and put premiums.
  - `get_price` returns one of the two premiums, chosen by the tag `'c'` or `'p'`.
- **The search (`calculateImpliedVolatility`).** It bisects the volatility bracket [0.03, 6] until the bracket is at most `tol` wide (default 1e-5).
  - Each round builds a fresh pricer at the midpoint.
  - A premium above the observed one moves the high end down; one below moves the low end up.
  - An exact match returns the midpoint. Otherwise the low end of the final bracket is returned.

The Dafny model has four modules:

- `Payoff` (payoff.dfy): the option kind, the call/put payoff and `std::max`.
- `MonteCarlo` (monte_carlo.dfy): the deterministic part of the simulation as specification functions.
  - Path prices advanced by given growth factors.
  - Per-path payoffs.
  - Left-to-right sums, as `std::accumulate` computes them.
  - Per-step averages and the running best.
  - Lemmas about these functions.
- `Pricer` (pricer.dfy): the class `BSMModel`.
  - Its constants are the contract parameters and its mutable fields are `call` and `put`.
  - The simulation runs in place on three arrays: prices, call payoffs and put payoffs.
  - It is proved equal to the specification functions.
- `ImpliedVolatility` (implied_volatility.dfy): the search.
  - A reference function `Bisect` and the search loop, proved equal to it.
  - The pricer is built in every round, and the loop is proved to terminate.
  - The bracket, round-count and limit-behaviour properties, proved for every quote function.

All arithmetic is on exact reals.

- **Growth factors.** The random draws are inputs. `growth[t][i]` is the factor that moves path `i` at step `t + 1`. The program's `spots[i] = exp(d)`, with `d` drawn around `log(spots[i])`, is the previous price times `exp(d - log(spots[i]))`. So the model multiplies the previous price by an input factor.
- **`draws`.** The search runs a fresh, freshly seeded pricer in each round. In the model, `draws(k, v)` supplies the factors of the pricer built in round `k` at volatility `v`.
- **`quote`.** `quote(k, v)` is any function that agrees with that pricer's premium. The search's contract is stated for it, and `Quotes` shows one such function exists.

## Model

| member | source | states |
|---|---|---|
| Payoff.TagOf | implied_volatility.cpp:26-28 | only the tags 'c' and 'p' are accepted; 'c' selects the call and 'p' the put |
| Payoff.Max | implied_volatility.cpp:65-66 | std::max: the result is at least both arguments and is one of them |
| Payoff.Profit | implied_volatility.cpp:26-32 | the call payoff is max(0, x - strike) and the put payoff max(strike - x, 0), both never negative |
| Payoff.ProfitZeroOutOfTheMoney | implied_volatility.cpp:28-31 | a put pays nothing at or above the strike, a call nothing at or below it |
| Payoff.PayoffParity | implied_volatility.cpp:26-32 | call payoff minus put payoff is x - strike for every price |
| Payoff.PutProfitAtMostStrike | implied_volatility.cpp:31 | for a non-negative price and strike the put payoff is at most the strike |
| MonteCarlo.Grow | implied_volatility.cpp:48-53 | one path's new price: the previous price times the step's growth factor, which is what exp of the draw centred on log(previous price) amounts to |
| MonteCarlo.Advance | implied_volatility.cpp:47-53 | every path price is replaced by the previous price times its own factor, and the number of paths is kept |
| MonteCarlo.PathPrices | implied_volatility.cpp:37 | after any number of steps there are exactly as many prices as paths |
| MonteCarlo.Payoffs | implied_volatility.cpp:54-55 | one payoff per path, each the payoff at that path's own current price |
| MonteCarlo.Sum | implied_volatility.cpp:60 | std::accumulate from 0: the left-to-right sum of a sequence |
| MonteCarlo.StepAverage | implied_volatility.cpp:59-64 | the average of step t: the sum of the N path payoffs at step t's prices divided by N |
| MonteCarlo.BestAverage | implied_volatility.cpp:40-41 | the running best after t steps: 0 before the first step, then the larger of the previous best and each step's average |
| MonteCarlo.StepFromPrevious | implied_volatility.cpp:47-64 | helper: advancing step t-1's prices by row t-1 gives step t's prices, and the sum of the recorded payoffs divided by N is step t's average |
| MonteCarlo.BestAverageNext | implied_volatility.cpp:65-66 | helper: the running best after step t is the larger of the best before it and step t's average |
| MonteCarlo.Accumulate | implied_volatility.cpp:59-64 | the loop over an array returns the left-to-right sum of all its elements, starting from 0 |
| MonteCarlo.SumAtLeast | implied_volatility.cpp:59-64 | a sum of n values that are all at least lo is at least n * lo |
| MonteCarlo.SumAtMost | implied_volatility.cpp:59-64 | a sum of n values that are all at most hi is at most n * hi |
| MonteCarlo.AverageBounds | implied_volatility.cpp:59-64 | the average of values in [lo, hi] lies in [lo, hi] |
| MonteCarlo.StepAverageNonNegative | implied_volatility.cpp:54-64 | every per-step average payoff is non-negative |
| MonteCarlo.BestAverageIsUpperBound | implied_volatility.cpp:40-41 | the running best is at least 0 and at least every per-step average of steps 1..t |
| MonteCarlo.BestAverageIsAttained | implied_volatility.cpp:65-66 | the running best is 0 or equals the average of one of the steps 1..t, so it is exactly the maximum of 0 and those averages |
| MonteCarlo.PathPricesPositive | implied_volatility.cpp:48-53 | with a positive spot and positive factors every path price stays positive |
| MonteCarlo.BestPutAtMostStrike | implied_volatility.cpp:62-66 | with positive prices the put premium never exceeds the strike |
| Pricer.PremiumOf | implied_volatility.cpp:69-70 | the premium of a kind that a pricer with the given draws stores: the running best over all 100 steps of 10000 paths |
| Pricer.BSMModel.Valid | implied_volatility.cpp:69-70 | the stored call and put are the premiums of this pricer's own draws |
| Pricer.BSMModel.constructor | implied_volatility.cpp:74-77 | stores the five parameters and leaves call and put equal to the best averages of the simulation it ran |
| Pricer.BSMModel.CalculatePremiums | implied_volatility.cpp:34-71 | runs the default 100 steps over 10000 paths of this pricer's draws and leaves call and put equal to the running best (from 0) of the per-step average payoffs, so Valid() holds afterwards and running it again changes nothing |
| Pricer.BSMModel.StartPaths | implied_volatility.cpp:37-39 | three fresh, distinct arrays of length N, with every path starting at the spot and every recorded call and put payoff 0 |
| Pricer.BSMModel.SimulateStep | implied_volatility.cpp:47-66 | one time step takes the prices of step t-1 to those of step t and the running bests of step t-1 to those of step t, and leaves each path's call and put payoff at its new price in the payoff arrays |
| Pricer.BSMModel.AdvancePaths | implied_volatility.cpp:47-55 | each price is overwritten once by its previous value times its factor, and each path's call and put payoff is recorded at the new price; only the three arrays change |
| Pricer.BSMModel.GetPrice | implied_volatility.cpp:79-85 | the call kind returns the stored call premium and the put kind the stored put premium, and neither is negative |
| ImpliedVolatility.CeilLog2Bounds | implied_volatility.cpp:95 | the number n of halvings bringing a ratio x down to 1 is ceil(log2 x): x <= 2^n, and x > 2^(n-1) when n > 0 |
| ImpliedVolatility.CeilLog2Least | implied_volatility.cpp:95 | no smaller count of halvings suffices |
| ImpliedVolatility.HalvingsOfHalf | implied_volatility.cpp:95-96 | halving a bracket wider than tol takes exactly one off the remaining round count |
| ImpliedVolatility.HalvingsIsCeilLog2 | implied_volatility.cpp:95 | the round count for a bracket is the least n with width / tol <= 2^n |
| ImpliedVolatility.DefaultHalvings | implied_volatility.cpp:89-92 | for the bracket [0.03, 6] and tol = 1e-5 that count is 20 |
| ImpliedVolatility.Bisect | implied_volatility.cpp:95-106 | the reference search: while the bracket is wider than tol, price the midpoint and move the high end down on a higher quote, the low end up on a lower one, or stop on an exact match |
| ImpliedVolatility.Outcome.Vol | implied_volatility.cpp:103-106 | the value the search returns: the matching midpoint, or the low end of the final bracket |
| ImpliedVolatility.NegativeToleranceKeepsLooping | implied_volatility.cpp:95-103 | with tol < 0 every bracket, and either half of it, is wider than tol, so only an exact match leaves the loop |
| ImpliedVolatility.BisectStep | implied_volatility.cpp:95-104 | one round: the midpoint lies in the bracket, and the quote decides between the low half, the high half and an exact match |
| ImpliedVolatility.BisectInBracket | implied_volatility.cpp:95-106 | the returned volatility, and any final bracket, lie within the starting bracket |
| ImpliedVolatility.BisectRounds | implied_volatility.cpp:95-106 | a search that runs out does exactly the round count of rounds and ends with width at most tol; a matched search stops earlier, on a midpoint whose quote equals the premium |
| ImpliedVolatility.BisectHalvesExactly | implied_volatility.cpp:98-101 | every round sets exactly one end to the midpoint, so a final bracket is (high - low) / 2^rounds wide |
| ImpliedVolatility.AlwaysAboveKeepsLow | implied_volatility.cpp:98-99 | if every quote exceeds the premium only the high end moves and the low end is returned |
| ImpliedVolatility.AlwaysBelowKeepsHigh | implied_volatility.cpp:100-101 | if every quote is below the premium only the low end moves and the high end is kept |
| ImpliedVolatility.SearchResultInRange | implied_volatility.cpp:90-106 | from [0.03, 6] the result lies in [0.03, 6], within the round count |
| ImpliedVolatility.SearchAlwaysAbove | implied_volatility.cpp:98-99 | from [0.03, 6] a search whose quotes all exceed the premium returns exactly 0.03 |
| ImpliedVolatility.SearchAlwaysBelow | implied_volatility.cpp:100-106 | from [0.03, 6] a search whose quotes are all below the premium returns a value within tol of 6 |
| ImpliedVolatility.DefaultSearchRounds | implied_volatility.cpp:89-105 | with the default tolerance at most 20 pricers are built, exactly 20 unless a quote matches |
| ImpliedVolatility.Quotes | implied_volatility.cpp:97-98 | the quote of round k at volatility v: the premium of the pricer built with that round's draws |
| ImpliedVolatility.QuotesAgree | implied_volatility.cpp:97-98 | helper: the premiums of the pricers built round by round form a quote function the search accepts |
| ImpliedVolatility.CalculateImpliedVolatility | implied_volatility.cpp:88-107 | builds a pricer at each midpoint and returns what the reference bisection returns, always within [0.03, 6] |

## Left out

- **Random sampling.** `std::random_device`, `std::mt19937` and `std::normal_distribution` are not modelled. The draws they produce are the `growth` and `draws` inputs.
- **Transcendental numerics.** The `log`, `exp` and `sqrt` of the price step, and the step length `dt`, are not modelled; they are absorbed into the growth factors. For the same reason the pricer's `Time`, `Rate` and `Sigma` are stored but never read.
- **`StdNormCDF`.** It is floating-point numerics and the program never calls it.
- **Floating point.** `long double` and `double` rounding are not modelled, including `std::accumulate` summing in `double` from `0.0`. All arithmetic is exact.
- **Statistics.** For example, that premiums grow with volatility on average, or how results vary from run to run. These are probabilistic and not properties of the code.
- **`main`.** A fixed example with console output.
- Pricer.BSMModel.CalculatePremiums: takes no size arguments. The program's only call, at implied_volatility.cpp:76, uses the defaults of 10000 paths and 100 steps, which the model fixes as Simulations and TimeSteps.
- Pricer.BSMModel.SimulateStep: requires at least one path, as do Mean, Average and StepAverage. With no paths the program divides by zero, which the model does not represent.
- **`tol > 0`.** The search requires a positive tolerance.
  - With `tol < 0` the program's loop at implied_volatility.cpp:95 never ends except through an exact match. The midpoint stays inside the bracket, so its width stays at least 0 and so above `tol`. NegativeToleranceKeepsLooping states this. It comes from reading the code; nothing was executed.
  - With `tol == 0` the program stops only once floating-point rounding collapses the bracket to a single value, which exact reals never do.
- CalculateImpliedVolatility: the width-halving property is not a loop invariant of the method; BisectHalvesExactly proves it about the reference function the method is proved equal to.
- GetPrice: takes the option kind as a datatype. The character tag and its assertion are modelled separately by TagOf.
