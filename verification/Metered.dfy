/** What a usage event reports about a call, and what a pricer makes of it. */
module Metered {

  datatype Usage = Usage(model: string, tokensIn: nat, tokensOut: nat)

  const NO_USAGE: Usage := Usage("", 0, 0)

  /** Micros of USD for a usage; no tokens cost nothing. */
  type Pricer = rate: Usage -> nat | forall model: string :: rate(Usage(model, 0, 0)) == 0 witness _ => 0
}
