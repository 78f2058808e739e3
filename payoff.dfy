/** The vanilla option payoff of the pricer and the option-type tag it is selected by. */
module Payoff {

  /** The two kinds of option the pricer handles; the C++ code uses the characters 'c' and 'p'. */
  datatype OptionType = Call | Put

  /** The character tag the C++ code passes around, accepted only as 'c' or 'p' (its assertion). */
  function TagOf(c: char): (t: OptionType)
    requires c == 'c' || c == 'p'
    ensures t == Call <==> c == 'c'
    ensures t == Put <==> c == 'p'
  {
    if c == 'c' then Call else Put
  }

  /** std::max on two values: the second one when the first is smaller, otherwise the first. */
  function Max(a: real, b: real): (m: real)
    ensures m >= a && m >= b
    ensures m == a || m == b
  {
    if a < b then b else a
  }

  /** The payoff of one option with the given strike when the underlying is at x. */
  function Profit(strike: real, x: real, t: OptionType): (r: real)
    ensures r >= 0.0
    ensures t == Call ==> r >= x - strike && (r == 0.0 || r == x - strike)
    ensures t == Put ==> r >= strike - x && (r == 0.0 || r == strike - x)
  {
    if t == Call then Max(0.0, x - strike) else Max(strike - x, 0.0)
  }

  /** A put pays nothing above the strike and the call pays nothing below it. */
  lemma ProfitZeroOutOfTheMoney(strike: real, x: real)
    ensures x >= strike ==> Profit(strike, x, Put) == 0.0
    ensures x <= strike ==> Profit(strike, x, Call) == 0.0
  {
  }

  /** Call payoff minus put payoff is the distance of the underlying from the strike. */
  lemma PayoffParity(strike: real, x: real)
    ensures Profit(strike, x, Call) - Profit(strike, x, Put) == x - strike
  {
  }

  /** With a non-negative underlying the put never pays more than the strike. */
  lemma PutProfitAtMostStrike(strike: real, x: real)
    requires strike >= 0.0 && x >= 0.0
    ensures Profit(strike, x, Put) <= strike
  {
  }
}
