/** How far a customer can overspend a month's limit, over every run.

    `Allow` checks a counter that lags behind the provider calls it governs. The lag is
    bounded by the rate limiter as long as events reach the counter by the end of the rate
    window after the one that admitted them; whatever misses that deadline, or is lost for
    good, is carried in a ledger of its own. */
module Overspend {
  import opened Options
  import opened Calendar
  import opened Sums
  import opened SpendLoop
  import opened Coherence
  import opened RateLimiter
  import opened Ledgers
  import opened Runs

  /** The end of the rate window after the one that admitted the request. */
  function Deadline(c: Call): nat
    requires c.ticket.Some?
  {
    (c.ticket.value.bucket + 2) * RATE_WINDOW
  }

  /** The deadline has passed and the event had not reached the counter by then. */
  predicate Late(c: Call, now: nat)
  {
    c.ticket.Some? && Deadline(c) <= now && (c.countedAt.None? || Deadline(c) <= c.countedAt.value)
  }

  /** The request's provider call is, or may yet be, part of the customer's bill for the month:
      its event is stamped in the month, or it has no event, because none was emitted yet or
      the process died, and it read the counter of this month or an earlier one. */
  predicate BilledTo(c: Call, who: Who, month: nat)
  {
    && c.who == who
    && if c.stage == Emitted then Month(c.at) == month
       else c.stage in {Completed, Crashed} && c.ticket.Some? && Month(c.readAt) <= month
  }

  /** The cost incurred in a customer's month, with or without an event to show for it. */
  function Billed(who: Who, month: nat): Call -> int
  {
    (c: Call) => if BilledTo(c, who, month) then c.cost else 0
  }

  function BilledLate(who: Who, month: nat, now: nat): Call -> int
  {
    (c: Call) => if BilledTo(c, who, month) && Late(c, now) then c.cost else 0
  }

  function BilledCounted(who: Who, month: nat): Call -> int
  {
    (c: Call) => if BilledTo(c, who, month) && c.countedAt.Some? then c.cost else 0
  }

  /** The most a punctual request can still put on the month's bill. */
  function Exposure(who: Who, month: nat, price: nat, now: nat): Call -> int
  {
    (c: Call) =>
      if c.who != who || c.ticket.None? || Late(c, now) then 0
      else if c.stage in {Admitted, Completed, Crashed} then (if Month(c.readAt) <= month then price else 0)
      else if BilledTo(c, who, month) then (if c.countedAt.Some? then c.cost else price)
      else 0
  }

  predicate ReadLimitedTo(s: State, l: Label, who: Who, month: nat, limit: int)
    requires Enabled(s, l)
  {
    l.Spend? && s.calls[l.call].who == who && Month(s.now) == month ==> s.calls[l.call].limit <= limit
  }

  /** `limit` covers every limit on which a read of the month's counter decides: no other limit
      matters, be it the default, one set earlier or one set for later. */
  predicate LimitedTo(s: State, run: seq<Label>, who: Who, month: nat, limit: int)
    requires Valid(s, run)
    decreases |run|
  {
    run == [] || (ReadLimitedTo(s, run[0], who, month, limit)
                  && LimitedTo(Apply(s, run[0]), run[1..], who, month, limit))
  }

  predicate AnswerPricedTo(s: State, l: Label, who: Who, price: nat)
    requires Enabled(s, l)
  {
    l.Complete? && s.calls[l.call].who == who ==> s.config.rate(l.usage) <= price
  }

  /** The customer's provider calls cost at most `price` each. */
  predicate PricedTo(s: State, run: seq<Label>, who: Who, price: nat)
    requires Valid(s, run)
    decreases |run|
  {
    run == [] || (AnswerPricedTo(s, run[0], who, price) && PricedTo(Apply(s, run[0]), run[1..], who, price))
  }

  predicate CostWithin(c: Call, who: Who, price: nat)
  {
    c.who == who ==> c.cost <= price
  }

  ghost predicate PricesInv(s: State, who: Who, price: nat)
  {
    forall i :: 0 <= i < |s.calls| ==> CostWithin(s.calls[i], who, price)
  }

  lemma PricesStep(s: State, l: Label, who: Who, price: nat)
    requires PricesInv(s, who, price) && Enabled(s, l) && AnswerPricedTo(s, l, who, price)
    ensures PricesInv(Apply(s, l), who, price)
  {
    forall i | 0 <= i < |Apply(s, l).calls| ensures CostWithin(Apply(s, l).calls[i], who, price) {
      assert i < |s.calls| ==> CostWithin(s.calls[i], who, price);
    }
  }

  /** Each counted request is counted by a delivery of its own. */
  ghost predicate CountsInv(s: State, who: Who, month: nat)
  {
    Sum(s.calls, BilledCounted(who, month)) <= Sum(s.copies, CountedIn(who, month))
  }

  lemma BilledCountedStep(s: State, l: Label, who: Who, month: nat)
    requires Coherent(s) && Enabled(s, l)
    ensures Sum(Apply(s, l).calls, BilledCounted(who, month)) <= Sum(s.calls, BilledCounted(who, month)) +
              if l.Incr? && l.effect then EventIn(who, month)(s.copies[l.copy].event) else 0
  {
    CallSum(s, l, BilledCounted(who, month));
    if CallOf(s, l).Some? {
      assert CallOk(s.calls[CallOf(s, l).value], s.now);
    }
    if l.Incr? {
      assert CopyOk(s.copies[l.copy], s.calls);
    }
  }

  lemma CountsStep(s: State, l: Label, who: Who, month: nat)
    requires Coherent(s) && CountsInv(s, who, month) && Enabled(s, l)
    ensures CountsInv(Apply(s, l), who, month)
  {
    BilledCountedStep(s, l, who, month);
    CountedInStep(s, l, who, month);
  }

  ghost predicate ExposureInv(s: State, who: Who, month: nat, limit: int, price: nat)
  {
    Sum(s.calls, Exposure(who, month, price, s.now)) <= limit - 1 + 2 * RATE_MAX * price
  }

  lemma EmittedExposure(c: Call, now: nat, delivered: bool, who: Who, month: nat, price: nat)
    requires c.stage == Completed && CallOk(c, now)
    ensures Exposure(who, month, price, now)(c.(stage := Emitted, at := now, published := delivered))
         <= Exposure(who, month, price, now)(c)
  {
    if c.ticket.Some? {
      MonthMonotone(c.readAt, now);
    }
  }

  lemma CountedExposure(c: Call, now: nat, who: Who, month: nat, price: nat)
    requires CostWithin(c, who, price)
    ensures Exposure(who, month, price, now)(Counted(c, now)) <= Exposure(who, month, price, now)(c)
  {
  }

  lemma OtherExposure(s: State, l: Label, i: nat, who: Who, month: nat, price: nat)
    requires Enabled(s, l) && CallOf(s, l) == Some(i) && i < |s.calls|
    requires CallOk(s.calls[i], s.now) && !l.Spend? && !l.Emit? && !l.Incr?
    ensures i < |Apply(s, l).calls|
    ensures Exposure(who, month, price, s.now)(Apply(s, l).calls[i]) <= Exposure(who, month, price, s.now)(s.calls[i])
  {
  }

  lemma CallExposureStep(s: State, l: Label, i: nat, who: Who, month: nat, price: nat)
    requires Enabled(s, l) && CallOf(s, l) == Some(i) && i < |s.calls|
    requires CallOk(s.calls[i], s.now) && CostWithin(s.calls[i], who, price) && !l.Spend?
    ensures i < |Apply(s, l).calls|
    ensures Exposure(who, month, price, s.now)(Apply(s, l).calls[i]) <= Exposure(who, month, price, s.now)(s.calls[i])
  {
    if l.Emit? {
      EmittedExposure(s.calls[i], s.now, l.delivered, who, month, price);
    } else if l.Incr? {
      CountedExposure(s.calls[i], s.now, who, month, price);
    } else {
      OtherExposure(s, l, i, who, month, price);
    }
  }

  /** Only an admission can raise the exposure. */
  lemma ExposureStep(s: State, l: Label, who: Who, month: nat, price: nat)
    requires Coherent(s) && Enabled(s, l) && PricesInv(s, who, price)
    requires !l.Spend? && !l.Tick?
    ensures Sum(Apply(s, l).calls, Exposure(who, month, price, s.now))
         <= Sum(s.calls, Exposure(who, month, price, s.now))
  {
    CallSum(s, l, Exposure(who, month, price, s.now));
    if CallOf(s, l).Some? {
      assert CostWithin(s.calls[CallOf(s, l).value], who, price);
      CallExposureStep(s, l, CallOf(s, l).value, who, month, price);
    }
  }

  /** A refusal, or an admission that cannot be billed to the month, leaves it alone. */
  lemma ReadWithoutExposure(s: State, i: nat, who: Who, month: nat, price: nat)
    requires CallAt(s, i, Limited)
    requires s.calls[i].who == who && Apply(s, Spend(i)).calls[i].stage == Admitted ==> month < Month(s.now)
    ensures Sum(Apply(s, Spend(i)).calls, Exposure(who, month, price, s.now))
         == Sum(s.calls, Exposure(who, month, price, s.now))
  {
    CallSum(s, Spend(i), Exposure(who, month, price, s.now));
  }

  lemma ExposureTick(s: State, seconds: nat, who: Who, month: nat, price: nat)
    requires Coherent(s) && PricesInv(s, who, price)
    ensures Sum(s.calls, Exposure(who, month, price, s.now + seconds))
         <= Sum(s.calls, Exposure(who, month, price, s.now))
  {
    forall i | 0 <= i < |s.calls|
      ensures Exposure(who, month, price, s.now + seconds)(s.calls[i]) <= Exposure(who, month, price, s.now)(s.calls[i])
    {
      assert CallOk(s.calls[i], s.now) && CostWithin(s.calls[i], who, price);
    }
    SumLe(s.calls, Exposure(who, month, price, s.now + seconds), Exposure(who, month, price, s.now));
  }

  /** A punctual request not counted yet was admitted in this rate window or the last. */
  function Open(who: Who, bucket: nat): Call -> int
  {
    Plus(InCap(who, bucket), 1, if bucket == 0 then (c: Call) => 0 else InCap(who, bucket - 1))
  }

  lemma ExposureSplits(c: Call, who: Who, month: nat, price: nat, now: nat)
    requires CallOk(c, now)
    ensures Exposure(who, month, price, now)(c)
         <= Plus(BilledCounted(who, month), price, Open(who, now / RATE_WINDOW))(c)
  {
    var bucket := now / RATE_WINDOW;
    if c.who == who && c.ticket.Some? && !Late(c, now) && Passed(c) && c.countedAt.None? {
      assert bucket - 1 <= c.ticket.value.bucket <= bucket;
      assert Open(who, bucket)(c) == 1;
    }
    assert 0 <= Open(who, bucket)(c);
    assert 0 <= price * Open(who, bucket)(c);
  }

  lemma OpenCap(s: State, who: Who)
    requires forall b: nat :: RateInv(s, who, b)
    ensures Sum(s.calls, Open(who, s.now / RATE_WINDOW)) <= 2 * RATE_MAX
  {
    var bucket := s.now / RATE_WINDOW;
    assert RateInv(s, who, bucket);
    if bucket == 0 {
      SumPlus(s.calls, InCap(who, 0), 1, (c: Call) => 0);
      SumZero(s.calls, (c: Call) => 0);
    } else {
      assert RateInv(s, who, bucket - 1);
      SumPlus(s.calls, InCap(who, bucket), 1, InCap(who, bucket - 1));
    }
  }

  /** What `Allow` read bounds the counted part of every bill the request can go to. */
  lemma CountedBelowLimit(s: State, i: nat, who: Who, month: nat, limit: int)
    requires Coherent(s) && CallAt(s, i, Limited) && s.calls[i].who == who && Month(s.now) <= month
    requires SpentNow(s, who) < s.calls[i].limit
    requires 1 <= limit && ReadLimitedTo(s, Spend(i), who, month, limit)
    requires LedgerInv(s, who, month) && CountsInv(s, who, month)
    ensures Sum(s.calls, BilledCounted(who, month)) <= limit - 1
  {
    if Month(s.now) < month {
      forall k | 0 <= k < |s.calls| ensures BilledCounted(who, month)(s.calls[k]) == 0 {
        assert CallOk(s.calls[k], s.now);
        if s.calls[k].stage == Emitted {
          MonthMonotone(s.calls[k].at, s.now);
        }
      }
      SumZero(s.calls, BilledCounted(who, month));
    }
  }

  lemma Scale(price: nat, a: int, b: int)
    requires a <= b
    ensures price * a <= b * price
  {
  }

  lemma ExposureBound(t: State, who: Who, month: nat, price: nat)
    requires Coherent(t) && forall b: nat :: RateInv(t, who, b)
    ensures Sum(t.calls, Exposure(who, month, price, t.now))
         <= Sum(t.calls, BilledCounted(who, month)) + 2 * RATE_MAX * price
  {
    var bucket := t.now / RATE_WINDOW;
    forall k | 0 <= k < |t.calls|
      ensures Exposure(who, month, price, t.now)(t.calls[k])
           <= Plus(BilledCounted(who, month), price, Open(who, bucket))(t.calls[k])
    {
      ExposureSplits(t.calls[k], who, month, price, t.now);
    }
    SumLe(t.calls, Exposure(who, month, price, t.now), Plus(BilledCounted(who, month), price, Open(who, bucket)));
    SumPlus(t.calls, BilledCounted(who, month), price, Open(who, bucket));
    OpenCap(t, who);
    Scale(price, Sum(t.calls, Open(who, bucket)), 2 * RATE_MAX);
  }

  /** Right after an admission the counted part is below the limit and at most two windows
      of requests are open. */
  lemma AdmissionStep(s: State, i: nat, who: Who, month: nat, limit: int, price: nat)
    requires Coherent(s) && Enabled(s, Spend(i)) && s.calls[i].who == who && Month(s.now) <= month
    requires Apply(s, Spend(i)).calls[i].stage == Admitted
    requires 1 <= limit && ReadLimitedTo(s, Spend(i), who, month, limit)
    requires LedgerInv(s, who, month) && CountsInv(s, who, month)
    requires forall b: nat :: RateInv(s, who, b)
    ensures ExposureInv(Apply(s, Spend(i)), who, month, limit, price)
  {
    var t := Apply(s, Spend(i));
    CoherentStep(s, Spend(i));
    forall b: nat ensures RateInv(t, who, b) {
      RateStep(s, Spend(i), who, b);
    }
    ExposureBound(t, who, month, price);
    CallSum(s, Spend(i), BilledCounted(who, month));
    CountedBelowLimit(s, i, who, month, limit);
  }

  ghost predicate SpendInv(s: State, who: Who, month: nat, limit: int, price: nat)
  {
    && Coherent(s) && PricesInv(s, who, price) && 1 <= limit
    && (forall b: nat :: RateInv(s, who, b))
    && LedgerInv(s, who, month) && CountsInv(s, who, month)
    && ExposureInv(s, who, month, limit, price)
  }

  lemma ExposureAfterRead(s: State, i: nat, who: Who, month: nat, limit: int, price: nat)
    requires SpendInv(s, who, month, limit, price) && CallAt(s, i, Limited)
    requires ReadLimitedTo(s, Spend(i), who, month, limit)
    ensures ExposureInv(Apply(s, Spend(i)), who, month, limit, price)
  {
    if s.calls[i].who == who && Month(s.now) <= month && Apply(s, Spend(i)).calls[i].stage == Admitted {
      AdmissionStep(s, i, who, month, limit, price);
    } else {
      ReadWithoutExposure(s, i, who, month, price);
    }
  }

  lemma TimeStands(s: State, l: Label)
    requires Enabled(s, l) && !l.Tick?
    ensures Apply(s, l).now == s.now
  {
  }

  lemma ExposureAfter(s: State, l: Label, who: Who, month: nat, limit: int, price: nat)
    requires SpendInv(s, who, month, limit, price) && Enabled(s, l) && ReadLimitedTo(s, l, who, month, limit)
    ensures ExposureInv(Apply(s, l), who, month, limit, price)
  {
    if l.Tick? {
      ExposureTick(s, l.seconds, who, month, price);
    } else if l.Spend? {
      ExposureAfterRead(s, l.call, who, month, limit, price);
    } else {
      TimeStands(s, l);
      ExposureStep(s, l, who, month, price);
    }
  }

  lemma SpendStep(s: State, l: Label, who: Who, month: nat, limit: int, price: nat)
    requires SpendInv(s, who, month, limit, price) && Enabled(s, l)
    requires ReadLimitedTo(s, l, who, month, limit) && AnswerPricedTo(s, l, who, price)
    ensures SpendInv(Apply(s, l), who, month, limit, price)
  {
    CoherentStep(s, l);
    PricesStep(s, l, who, price);
    forall b: nat ensures RateInv(Apply(s, l), who, b) {
      RateStep(s, l, who, b);
    }
    LedgerStep(s, l, who, month);
    CountsStep(s, l, who, month);
    ExposureAfter(s, l, who, month, limit, price);
  }

  lemma {:induction false} SpendRun(s: State, run: seq<Label>, who: Who, month: nat, limit: int, price: nat)
    requires SpendInv(s, who, month, limit, price) && Valid(s, run)
    requires LimitedTo(s, run, who, month, limit) && PricedTo(s, run, who, price)
    ensures SpendInv(Exec(s, run), who, month, limit, price)
    decreases |run|
  {
    if run == [] {
    } else {
      SpendStep(s, run[0], who, month, limit, price);
      SpendRun(Apply(s, run[0]), run[1..], who, month, limit, price);
    }
  }

  /** Bounded overspend: if the month's reads decide on limits of at most `limit` and the
      customer's calls cost at most `price`, the bill of the customer-month is at most
      limit - 1 + 240 * price, plus the cost of the requests that missed their deadline. */
  lemma OverspendIsBounded(now: nat, config: Config, run: seq<Label>, who: Who, month: nat, limit: int, price: nat)
    requires Valid(Start(now, config), run) && 1 <= limit
    requires LimitedTo(Start(now, config), run, who, month, limit) && PricedTo(Start(now, config), run, who, price)
    ensures var s := Exec(Start(now, config), run);
            Sum(s.calls, Billed(who, month))
            <= limit - 1 + 240 * price + Sum(s.calls, BilledLate(who, month, s.now))
  {
    var s := Exec(Start(now, config), run);
    SpendRun(Start(now, config), run, who, month, limit, price);
    var exposure, late := Exposure(who, month, price, s.now), BilledLate(who, month, s.now);
    forall i | 0 <= i < |s.calls| ensures Billed(who, month)(s.calls[i]) <= Plus(exposure, 1, late)(s.calls[i]) {
      assert CallOk(s.calls[i], s.now) && CostWithin(s.calls[i], who, price);
    }
    SumLe(s.calls, Billed(who, month), Plus(exposure, 1, late));
    SumPlus(s.calls, exposure, 1, late);
  }

  /** With no late event the bound is the plain one. */
  lemma PunctualOverspend(now: nat, config: Config, run: seq<Label>, who: Who, month: nat, limit: int, price: nat)
    requires Valid(Start(now, config), run) && 1 <= limit
    requires LimitedTo(Start(now, config), run, who, month, limit) && PricedTo(Start(now, config), run, who, price)
    requires var s := Exec(Start(now, config), run);
             forall i :: 0 <= i < |s.calls| && BilledTo(s.calls[i], who, month) ==> !Late(s.calls[i], s.now)
    ensures Sum(Exec(Start(now, config), run).calls, Billed(who, month)) <= limit - 1 + 240 * price
  {
    var s := Exec(Start(now, config), run);
    OverspendIsBounded(now, config, run, who, month, limit, price);
    SumZero(s.calls, BilledLate(who, month, s.now));
  }

  // ---- Limits in force ------------------------------------------------------------------

  predicate DecidesWithin(c: Call, who: Who, limit: int)
  {
    c.who == who && c.stage == Limited ==> c.limit <= limit
  }

  /** From here on nothing but a new limit can raise what the customer's requests decide on. */
  ghost predicate Governed(s: State, who: Who, limit: int)
  {
    && EffectiveLimit(s, who) <= limit && LimitNeverExpires(s, who)
    && forall i :: 0 <= i < |s.calls| ==> DecidesWithin(s.calls[i], who, limit)
  }

  /** A new limit puts at most `limit` in force. */
  predicate SetsWithin(config: Config, l: Label, who: Who, limit: int)
  {
    l.SetLimit? && l.who == who ==> (if l.micros <= 0 then config.fallback else l.micros) <= limit
  }

  lemma GovernedStep(s: State, l: Label, who: Who, limit: int)
    requires Governed(s, who, limit) && Enabled(s, l) && SetsWithin(s.config, l, who, limit)
    ensures Governed(Apply(s, l), who, limit) && Apply(s, l).config == s.config
  {
    forall i | 0 <= i < |Apply(s, l).calls| ensures DecidesWithin(Apply(s, l).calls[i], who, limit) {
      assert i < |s.calls| ==> DecidesWithin(s.calls[i], who, limit);
    }
  }

  lemma {:induction false} GovernedRun(s: State, run: seq<Label>, who: Who, month: nat, limit: int)
    requires Governed(s, who, limit) && Valid(s, run)
    requires forall l :: l in run ==> SetsWithin(s.config, l, who, limit)
    ensures LimitedTo(s, run, who, month, limit)
    decreases |run|
  {
    if run == [] {
    } else {
      if run[0].Spend? {
        assert DecidesWithin(s.calls[run[0].call], who, limit);
      }
      GovernedStep(s, run[0], who, limit);
      GovernedRun(Apply(s, run[0]), run[1..], who, month, limit);
    }
  }

  lemma {:induction false} LimitedConcat(s: State, a: seq<Label>, b: seq<Label>, who: Who, month: nat, limit: int)
    requires Valid(s, a) && Valid(Exec(s, a), b)
    requires LimitedTo(s, a, who, month, limit) && LimitedTo(Exec(s, a), b, who, month, limit)
    ensures Valid(s, a + b) && LimitedTo(s, a + b, who, month, limit)
    decreases |a|
  {
    ExecConcat(s, a, b);
    if a == [] {
      assert a + b == b;
    } else {
      assert (a + b)[1..] == a[1..] + b;
      LimitedConcat(Apply(s, a[0]), a[1..], b, who, month, limit);
    }
  }

  /** Before the month there is nothing to decide on its counter. */
  lemma {:induction false} EarlierRunsAreLimited(s: State, run: seq<Label>, who: Who, month: nat, limit: int)
    requires Valid(s, run) && Month(Exec(s, run).now) < month
    ensures LimitedTo(s, run, who, month, limit)
    decreases |run|
  {
    TimeGrows(s, run);
    MonthMonotone(s.now, Exec(s, run).now);
    if run == [] {
    } else {
      EarlierRunsAreLimited(Apply(s, run[0]), run[1..], who, month, limit);
    }
  }

  /** The limit in force governs: once it is in force and no request still decides on a higher
      one, a month whose counter was not read under a higher one before is bounded by it. No
      month that begins later was (`EarlierRunsAreLimited`), whatever was in force until then. */
  lemma OverspendUnderLimitInForce(now: nat, config: Config, before: seq<Label>, run: seq<Label>,
                                   who: Who, month: nat, limit: int, price: nat)
    requires Valid(Start(now, config), before) && Valid(Exec(Start(now, config), before), run) && 1 <= limit
    requires LimitedTo(Start(now, config), before, who, month, limit)
    requires Governed(Exec(Start(now, config), before), who, limit)
    requires forall l :: l in run ==> SetsWithin(config, l, who, limit)
    requires Valid(Start(now, config), before + run) && PricedTo(Start(now, config), before + run, who, price)
    ensures var s := Exec(Start(now, config), before + run);
            Sum(s.calls, Billed(who, month))
            <= limit - 1 + 240 * price + Sum(s.calls, BilledLate(who, month, s.now))
  {
    var s := Start(now, config);
    ConfigStays(s, before);
    GovernedRun(Exec(s, before), run, who, month, limit);
    LimitedConcat(s, before, run, who, month, limit);
    OverspendIsBounded(now, config, before + run, who, month, limit, price);
  }

  /** A limit that is configured before the customer's first request bounds every month's bill,
      also where it is below the default. */
  lemma OverspendUnderConfiguredLimit(now: nat, config: Config, run: seq<Label>,
                                      who: Who, month: nat, limit: int, price: nat)
    requires 1 <= limit && Valid(Start(now, config), [SetLimit(who, limit)] + run)
    requires forall l :: l in run ==> SetsWithin(config, l, who, limit)
    requires PricedTo(Start(now, config), [SetLimit(who, limit)] + run, who, price)
    ensures var s := Exec(Start(now, config), [SetLimit(who, limit)] + run);
            Sum(s.calls, Billed(who, month))
            <= limit - 1 + 240 * price + Sum(s.calls, BilledLate(who, month, s.now))
  {
    var s := Apply(Start(now, config), SetLimit(who, limit));
    assert ([SetLimit(who, limit)] + run)[1..] == run;
    GovernedRun(s, run, who, month, limit);
    OverspendIsBounded(now, config, [SetLimit(who, limit)] + run, who, month, limit, price);
  }
}
