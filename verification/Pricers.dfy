/** The two pricers in the loop: the rows they price, their monthly totals, and what the worst
    case asks of a pricer. */
module Pricers {
  import opened Metered
  import opened Calendar
  import opened Sums
  import opened SpendLoop
  import opened Coherence
  import opened Pricing
  import opened WorstCase

  /** So many input tokens of a model that is not listed cost as many micros. */
  lemma UnlistedTokens(cost: nat)
    ensures FloorPricer()(Usage("", cost, 0)) == cost
  {
    assert BuiltIn("") == Rates(1_000_000, 3_000_000);
  }

  lemma EveryAmountIsCharged(price: nat)
    ensures Chargeable(FloorPricer(), price)
  {
    forall cost: nat | cost <= price ensures Charges(FloorPricer(), cost) {
      UnlistedTokens(cost);
    }
  }

  // ---- The ledgers of the two pricers ---------------------------------------------------

  predicate AllPriced(rows: seq<Event>, rate: Pricer)
  {
    forall e :: e in rows ==> e.cost == rate(e.usage)
  }

  lemma {:induction false} RowsArePricedFrom(s: State, run: seq<Label>)
    requires Coherent(s) && AllPriced(s.rows, s.config.rate) && Valid(s, run)
    ensures AllPriced(Exec(s, run).rows, s.config.rate)
    decreases |run|
  {
    if run == [] {
    } else {
      if run[0].Insert? {
        var c := s.copies[run[0].copy];
        assert CopyOk(c, s.calls) && PricedOk(s.calls[c.event.call], s.config.rate);
      }
      CoherentStep(s, run[0]);
      RowsArePricedFrom(Apply(s, run[0]), run[1..]);
    }
  }

  /** In every reachable state each row bears the pricer's price of its own usage. */
  lemma RowsArePriced(now: nat, config: Config, run: seq<Label>)
    requires Valid(Start(now, config), run)
    ensures AllPriced(Exec(Start(now, config), run).rows, config.rate)
  {
    RowsArePricedFrom(Start(now, config), run);
  }

  /** What a pricer makes of a customer-month's rows, and how many they are. */
  function ChargeIn(rate: Pricer, who: Who, month: nat): Event -> int
  {
    (e: Event) => if e.who == who && Month(e.at) == month then rate(e.usage) else 0
  }

  function CountIn(who: Who, month: nat): Event -> int
  {
    (e: Event) => if e.who == who && Month(e.at) == month then 1 else 0
  }

  lemma RatesStayClose(error: Usage -> real, u: Usage)
    requires Accurate(error)
    ensures FloorPricer()(u) <= RoundingPricer(error)(u) <= FloorPricer()(u) + 1
  {
    PricersAgree(Pricing.CallOf(BuiltIn(u.model), u, error(u)));
  }

  /** The monthly totals of the two pricers over the same rows differ by at most one micro a
      row, and never in the rounding pricer's disfavour. */
  lemma MonthlyTotalsStayClose(rows: seq<Event>, error: Usage -> real, who: Who, month: nat)
    requires Accurate(error)
    ensures var floor := Sum(rows, ChargeIn(FloorPricer(), who, month));
            floor <= Sum(rows, ChargeIn(RoundingPricer(error), who, month)) <= floor + Sum(rows, CountIn(who, month))
  {
    var floor, rounded := ChargeIn(FloorPricer(), who, month), ChargeIn(RoundingPricer(error), who, month);
    forall i | 0 <= i < |rows|
      ensures floor(rows[i]) <= rounded(rows[i]) <= Plus(floor, 1, CountIn(who, month))(rows[i])
    {
      RatesStayClose(error, rows[i].usage);
    }
    SumLe(rows, floor, rounded);
    SumLe(rows, rounded, Plus(floor, 1, CountIn(who, month)));
    SumPlus(rows, floor, 1, CountIn(who, month));
  }
}
