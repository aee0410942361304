/** The two pricers: the rating catalog's integer floor and the built-in table's rounding. */
module Pricing {
  import opened Options
  import opened Metered
  import opened Sums

  /** Micros of USD per million tokens. */
  datatype Rates = Rates(tokensIn: nat, tokensOut: nat)

  datatype Lookup = Missing | Found(rates: Rates)

  const MILLION: nat := 1_000_000

  const SEED: seq<(string, Rates)> :=
    [("gpt-4o-mini", Rates(150_000, 600_000)),
     ("gpt-4o", Rates(2_500_000, 10_000_000)),
     ("claude-haiku-4-5", Rates(800_000, 4_000_000)),
     ("echo-1", Rates(100_000, 100_000)),
     ("default", Rates(1_000_000, 3_000_000))]

  /** One call: its rates, its tokens and the error of the floating-point product. */
  datatype Call = Call(rates: Rates, tokensIn: nat, tokensOut: nat, error: real)

  function CallOf(rates: Rates, u: Usage, error: real): Call
  {
    Call(rates, u.tokensIn, u.tokensOut, error)
  }

  /** The exact cost, in millionths of a micro. */
  function Exact(c: Call): nat
  {
    c.tokensIn * c.rates.tokensIn + c.tokensOut * c.rates.tokensOut
  }

  /** Integer pricing truncates. */
  function Price(c: Call): nat
  {
    Exact(c) / MILLION
  }

  function Truncate(x: real): int
  {
    if x >= 0.0 then x.Floor else -(-x).Floor
  }

  /** Rounding pricing adds one half to a float within `error` of the exact cost and
      truncates towards zero. */
  function Cost(c: Call): int
  {
    Truncate(Exact(c) as real / MILLION as real + c.error + 0.5)
  }

  /** The built-in table, in micros per million tokens; other models fall back. */
  function BuiltIn(model: string): Rates
  {
    if model == "gpt-4o-mini" then Rates(150_000, 600_000)
    else if model == "gpt-4o" then Rates(2_500_000, 10_000_000)
    else if model == "claude-haiku-4-5" then Rates(800_000, 4_000_000)
    else if model == "echo-1" then Rates(100_000, 100_000)
    else Rates(1_000_000, 3_000_000)
  }

  /** The rating service's table. */
  class Catalog {
    var prices: map<string, Rates>

    constructor ()
      ensures prices == map[]
    {
      prices := map[];
    }

    /** Rows already present win over the seed. */
    method Seed()
      modifies this
      ensures forall m :: m in old(prices) ==> m in prices && prices[m] == old(prices)[m]
      ensures forall k :: 0 <= k < |SEED| ==>
                SEED[k].0 in prices && (SEED[k].0 !in old(prices) ==> prices[SEED[k].0] == SEED[k].1)
      ensures forall m :: m in prices ==> m in old(prices) || exists k :: 0 <= k < |SEED| && SEED[k].0 == m
    {
      for i := 0 to |SEED|
        invariant forall m :: m in old(prices) ==> m in prices && prices[m] == old(prices)[m]
        invariant forall k :: 0 <= k < i ==>
                    SEED[k].0 in prices && (SEED[k].0 !in old(prices) ==> prices[SEED[k].0] == SEED[k].1)
        invariant forall m :: m in prices ==> m in old(prices) || exists k :: 0 <= k < i && SEED[k].0 == m
      {
        if SEED[i].0 !in prices {
          prices := prices[SEED[i].0 := SEED[i].1];
        }
      }
    }

    /** The model's row, else the default row. */
    function RatesOf(model: string): Lookup
      reads this
      decreases model != "default"
    {
      if model in prices then Found(prices[model])
      else if model == "default" then Missing
      else RatesOf("default")
    }

    /** The price of a call, or an error if neither the model nor the default has a row. */
    method Charge(u: Usage) returns (micros: Option<nat>)
      ensures micros.None? <==> u.model !in prices && "default" !in prices
      ensures u.model in prices ==> micros == Some(Price(CallOf(prices[u.model], u, 0.0)))
      ensures u.model !in prices && "default" in prices ==> micros == Some(Price(CallOf(prices["default"], u, 0.0)))
    {
      assert RatesOf("default") == if "default" in prices then Found(prices["default"]) else Missing;
      match RatesOf(u.model)
      case Missing => micros := None;
      case Found(rates) => micros := Some((u.tokensIn * rates.tokensIn + u.tokensOut * rates.tokensOut) / MILLION);
    }
  }

  lemma SeedIsBuiltIn()
    ensures forall k :: 0 <= k < |SEED| ==> BuiltIn(SEED[k].0) == SEED[k].1
    ensures forall m: string :: (forall k :: 0 <= k < |SEED| ==> SEED[k].0 != m) ==> BuiltIn(m) == BuiltIn("default")
  {
    assert BuiltIn(SEED[0].0) == SEED[0].1;
    assert BuiltIn(SEED[1].0) == SEED[1].1 by {
      assert |SEED[1].0| == 6 && |SEED[0].0| == 11;
    }
    assert BuiltIn(SEED[2].0) == SEED[2].1 by {
      assert |SEED[2].0| == 16;
    }
    assert BuiltIn(SEED[3].0) == SEED[3].1 by {
      assert SEED[3].0[0] == 'e' && SEED[1].0[0] == 'g';
    }
    assert BuiltIn(SEED[4].0) == SEED[4].1 by {
      assert |SEED[4].0| == 7;
    }
    forall m: string | forall k :: 0 <= k < |SEED| ==> SEED[k].0 != m
      ensures BuiltIn(m) == BuiltIn("default")
    {
      assert SEED[0].0 != m && SEED[1].0 != m && SEED[2].0 != m && SEED[3].0 != m;
    }
  }

  /** A seeded empty catalog rates every model, with the built-in table's rates times a
      million. */
  method SeededCatalog() returns (catalog: Catalog)
    ensures fresh(catalog)
    ensures forall model :: catalog.RatesOf(model) == Found(BuiltIn(model))
  {
    catalog := new Catalog();
    catalog.Seed();
    SeedIsBuiltIn();
    assert SEED[4].0 == "default" && SEED[4].0 in catalog.prices;
    assert catalog.prices["default"] == SEED[4].1 == BuiltIn("default");
    forall model ensures catalog.RatesOf(model) == Found(BuiltIn(model)) {
      if model in catalog.prices {
        var k :| 0 <= k < |SEED| && SEED[k].0 == model;
        assert catalog.prices[SEED[k].0] == SEED[k].1;
      } else {
        assert forall k :: 0 <= k < |SEED| ==> SEED[k].0 != model;
        assert catalog.RatesOf("default") == Found(catalog.prices["default"]);
      }
    }
  }

  predicate FloatOk(c: Call)
  {
    -0.5 <= c.error <= 0.5
  }

  /** The rounding pricer charges what the integer pricer charges, or one micro more. */
  lemma PricersAgree(c: Call)
    requires FloatOk(c)
    ensures Price(c) <= Cost(c) <= Price(c) + 1
  {
    var p, r := Price(c), Exact(c) % MILLION;
    assert Exact(c) == p * 1_000_000 + r;
    var x := Exact(c) as real / MILLION as real;
    assert x == p as real + r as real / 1_000_000.0;
    assert 0.0 <= r as real / 1_000_000.0 < 1.0;
    var y := x + c.error + 0.5;
    assert p as real <= y < p as real + 2.0;
  }

  /** For every model name, known or not, and all tokens: the seeded catalog's price and the
      built-in table's cost differ by at most one micro, upwards. */
  method SeededPricersAgree(u: Usage, error: real) returns (price: nat, cost: int)
    requires -0.5 <= error <= 0.5
    ensures price <= cost <= price + 1
    ensures MILLION * price <= Exact(CallOf(BuiltIn(u.model), u, error)) < MILLION * (price + 1)
  {
    var catalog := SeededCatalog();
    assert catalog.RatesOf(u.model) == Found(BuiltIn(u.model));
    assert catalog.RatesOf("default").Found?;
    var answer := catalog.Charge(u);
    price := answer.value;
    cost := Cost(CallOf(BuiltIn(u.model), u, error));
    PricersAgree(CallOf(BuiltIn(u.model), u, error));
  }

  /** Without float error the extra micro is charged exactly from half a micro on. */
  lemma ExactRounding(c: Call)
    requires c.error == 0.0
    ensures Cost(c) == Price(c) + if Exact(c) % MILLION >= 500_000 then 1 else 0
  {
    var p, r := Price(c), Exact(c) % MILLION;
    assert Exact(c) == p * 1_000_000 + r;
    var x := Exact(c) as real / MILLION as real;
    assert x == p as real + r as real / 1_000_000.0;
    if r >= 500_000 {
      assert p as real + 1.0 <= x + 0.5 < p as real + 2.0;
    } else {
      assert p as real <= x + 0.5 < p as real + 1.0;
    }
  }

  /** A cache hit reports no tokens and is free under both pricers. */
  lemma NoTokensNoCost(c: Call)
    requires c.tokensIn == 0 && c.tokensOut == 0 && c.error == 0.0
    ensures Price(c) == 0 && Cost(c) == 0
  {
    ExactRounding(c);
  }

  /** The rating service as metering's pricer. */
  function FloorPricer(): Pricer
  {
    (u: Usage) => Price(CallOf(BuiltIn(u.model), u, 0.0))
  }

  /** The float errors of the built-in table's products: at most one half, none on zero. */
  ghost predicate Accurate(error: Usage -> real)
  {
    forall u :: -0.5 <= error(u) <= 0.5 && (u.tokensIn == u.tokensOut == 0 ==> error(u) == 0.0)
  }

  ghost function Rounded(error: Usage -> real, u: Usage): nat
    requires Accurate(error)
  {
    var c := CallOf(BuiltIn(u.model), u, error(u));
    PricersAgree(c);
    Cost(c)
  }

  lemma RoundingIsFree(error: Usage -> real)
    requires Accurate(error)
    ensures forall model: string :: Rounded(error, Usage(model, 0, 0)) == 0
  {
    forall model: string ensures Rounded(error, Usage(model, 0, 0)) == 0 {
      NoTokensNoCost(CallOf(BuiltIn(model), Usage(model, 0, 0), error(Usage(model, 0, 0))));
    }
  }

  /** The built-in table as metering's pricer. */
  ghost function RoundingPricer(error: Usage -> real): Pricer
    requires Accurate(error)
  {
    RoundingIsFree(error);
    (u: Usage) => Rounded(error, u)
  }

  function PriceOf(): Call -> int { (c: Call) => Price(c) }

  function CostOf(): Call -> int { (c: Call) => Cost(c) }

  function ExactOf(): Call -> int { (c: Call) => Exact(c) }

  /** Over a whole run the two monthly totals differ by at most one micro per call, and the
      integer total is short of the exact cost by less than one micro per call. */
  lemma {:induction false} TotalsStayClose(calls: seq<Call>)
    requires forall c :: c in calls ==> FloatOk(c)
    ensures Sum(calls, PriceOf()) <= Sum(calls, CostOf()) <= Sum(calls, PriceOf()) + |calls|
    ensures MILLION * Sum(calls, PriceOf()) <= Sum(calls, ExactOf())
         <= MILLION * Sum(calls, PriceOf()) + (MILLION - 1) * |calls|
  {
    if calls == [] {
    } else {
      var k := |calls| - 1;
      assert calls == calls[..k] + [calls[k]];
      TotalsStayClose(calls[..k]);
      PricersAgree(calls[k]);
      assert Exact(calls[k]) == MILLION * Price(calls[k]) + Exact(calls[k]) % MILLION;
    }
  }

  lemma Distribute(a: int, b: int, k: int)
    ensures (a + b) * k == a * k + b * k
  {
  }

  /** Splitting a call never raises the total, and saves at most one micro. */
  lemma SplittingNeverRaises(whole: Call, a: Call, b: Call)
    requires whole.rates == a.rates == b.rates
    requires whole.tokensIn == a.tokensIn + b.tokensIn && whole.tokensOut == a.tokensOut + b.tokensOut
    ensures Price(a) + Price(b) <= Price(whole) <= Price(a) + Price(b) + 1
  {
    var i, o := whole.rates.tokensIn, whole.rates.tokensOut;
    Distribute(a.tokensIn, b.tokensIn, i);
    Distribute(a.tokensOut, b.tokensOut, o);
    assert Exact(whole) == Exact(a) + Exact(b);
  }

  lemma ProductBelow(t: nat, r: nat)
    requires t < 0x1_0000_0000 && r <= 1_000_000_000
    ensures t * r <= 0xFFFF_FFFF * 1_000_000_000
  {
    assert t * r <= t * 1_000_000_000;
  }

  /** No intermediate value leaves the int64 range for tokens below 2^32 and rates up to
      a thousand dollars per million tokens. */
  lemma PriceFitsInt64(c: Call)
    requires c.tokensIn < 0x1_0000_0000 && c.tokensOut < 0x1_0000_0000
    requires c.rates.tokensIn <= 1_000_000_000 && c.rates.tokensOut <= 1_000_000_000
    ensures c.tokensIn * c.rates.tokensIn < 0x8000_0000_0000_0000
    ensures c.tokensOut * c.rates.tokensOut < 0x8000_0000_0000_0000
    ensures Exact(c) < 0x8000_0000_0000_0000
  {
    ProductBelow(c.tokensIn, c.rates.tokensIn);
    ProductBelow(c.tokensOut, c.rates.tokensOut);
  }

  lemma MillionsDivide(n: nat, k: nat)
    ensures (n + 1_000_000 * k) / 1_000_000 == n / 1_000_000 + k
  {
  }

  /** A further million tokens adds exactly the rate, input by input and output by output. */
  lemma MillionMoreTokens(c: Call)
    ensures Price(c.(tokensIn := c.tokensIn + 1_000_000)) == Price(c) + c.rates.tokensIn
    ensures Price(c.(tokensOut := c.tokensOut + 1_000_000)) == Price(c) + c.rates.tokensOut
  {
    var i, o := c.rates.tokensIn, c.rates.tokensOut;
    Distribute(c.tokensIn, 1_000_000, i);
    Distribute(c.tokensOut, 1_000_000, o);
    MillionsDivide(Exact(c), i);
    MillionsDivide(Exact(c), o);
  }

  /** The listed prices: what a million input tokens and a million output tokens cost. */
  lemma ListedPrices()
    ensures Price(CallOf(BuiltIn("gpt-4o-mini"), Usage("gpt-4o-mini", 1_000_000, 0), 0.0)) == 150_000
    ensures Price(CallOf(BuiltIn("gpt-4o-mini"), Usage("gpt-4o-mini", 0, 1_000_000), 0.0)) == 600_000
    ensures Price(CallOf(BuiltIn("gpt-4o"), Usage("gpt-4o", 1_000_000, 0), 0.0)) == 2_500_000
    ensures Price(CallOf(BuiltIn("gpt-4o"), Usage("gpt-4o", 0, 1_000_000), 0.0)) == 10_000_000
    ensures Price(CallOf(BuiltIn("claude-haiku-4-5"), Usage("claude-haiku-4-5", 1_000_000, 0), 0.0)) == 800_000
    ensures Price(CallOf(BuiltIn("claude-haiku-4-5"), Usage("claude-haiku-4-5", 0, 1_000_000), 0.0)) == 4_000_000
    ensures Price(CallOf(BuiltIn("echo-1"), Usage("echo-1", 1_000_000, 0), 0.0)) == 100_000
    ensures Price(CallOf(BuiltIn("echo-1"), Usage("echo-1", 0, 1_000_000), 0.0)) == 100_000
    ensures Price(CallOf(BuiltIn("default"), Usage("default", 1_000_000, 0), 0.0)) == 1_000_000
    ensures Price(CallOf(BuiltIn("default"), Usage("default", 0, 1_000_000), 0.0)) == 3_000_000
  {
    SeedIsBuiltIn();
    assert SEED[0].0 == "gpt-4o-mini" && SEED[1].0 == "gpt-4o" && SEED[2].0 == "claude-haiku-4-5";
    assert SEED[3].0 == "echo-1" && SEED[4].0 == "default";
  }
}
