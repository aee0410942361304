/** The overspend bound cannot be lowered: what is left of a limit can be spent to the last
    micro but one, and then two rate windows of requests can all be let through before the
    first of them is counted. */
module WorstCase {
  import opened Metered
  import opened Calendar
  import opened Sums
  import opened SpendLoop
  import opened Ledgers
  import opened Overspend
  import opened Runs

  predicate Unused(s: State, who: Who, bucket: nat)
  {
    RateKey(who, bucket) !in s.db
  }

  /** At s.now, t has `rates` more requests of the customer than s, which add `billed` to the
      month's bill and `spent` to its counter. */
  ghost predicate Adds(s: State, t: State, who: Who, billed: int, spent: int, rates: int)
  {
    && t.now == s.now && t.config == s.config && s.calls <= t.calls
    && EffectiveLimit(t, who) == EffectiveLimit(s, who)
    && SpentNow(t, who) == SpentNow(s, who) + spent
    && Rates(t, who) == Rates(s, who) + rates
    && Sum(t.calls, Billed(who, Month(s.now))) == Sum(s.calls, Billed(who, Month(s.now))) + billed
    && (LimitNeverExpires(s, who) ==> LimitNeverExpires(t, who))
    && (SpendKeyOk(s, who, Month(s.now)) ==> SpendKeyOk(t, who, Month(s.now)))
    && (forall b: nat :: s.now / RATE_WINDOW < b && Unused(s, who, b) ==> Unused(t, who, b))
  }

  /** The event reached the counter in time. */
  predicate Prompt(c: Call)
  {
    c.ticket.Some? && c.countedAt.Some? && c.countedAt.value < Deadline(c)
  }

  /** The requests t has and s has not were counted in time or, unless `counted`, were rated in
      window `first` or later. */
  ghost predicate NewCalls(s: State, t: State, first: nat, counted: bool)
  {
    forall i :: |s.calls| <= i < |t.calls| ==>
      Prompt(t.calls[i]) || (!counted && t.calls[i].ticket.Some? && first <= t.calls[i].ticket.value.bucket)
  }

  lemma AddsNothing(s: State, who: Who, first: nat, counted: bool)
    ensures Adds(s, s, who, 0, 0, 0) && NewCalls(s, s, first, counted)
  {
  }

  lemma AddsOn(s: State, t: State, u: State, who: Who, a: int, b: int, c: int, d: int, m: int, n: int)
    requires Adds(s, t, who, a, c, m) && Adds(t, u, who, b, d, n)
    ensures Adds(s, u, who, a + b, c + d, m + n)
  {
    forall b: nat | s.now / RATE_WINDOW < b && Unused(s, who, b) ensures Unused(u, who, b) {
      assert Unused(t, who, b);
    }
  }

  lemma NewCallsOn(s: State, t: State, u: State, first: nat, counted: bool)
    requires s.calls <= t.calls <= u.calls && NewCalls(s, t, first, counted) && NewCalls(t, u, first, counted)
    ensures NewCalls(s, u, first, counted)
  {
    forall i | |s.calls| <= i < |t.calls|
      ensures Prompt(u.calls[i]) || (!counted && u.calls[i].ticket.Some? && first <= u.calls[i].ticket.value.bucket)
    {
      assert u.calls[i] == t.calls[i];
    }
  }

  lemma RatingKeeps(s: State, who: Who, c: Call)
    ensures var t := AtStage(s, who, c);
            && (LimitNeverExpires(s, who) ==> LimitNeverExpires(t, who))
            && (SpendKeyOk(s, who, Month(s.now)) ==> SpendKeyOk(t, who, Month(s.now)))
            && (forall b: nat :: s.now / RATE_WINDOW < b && Unused(s, who, b) ==> Unused(t, who, b))
  {
  }

  lemma NewCallIs(s: State, t: State, c: Call, first: nat, counted: bool)
    requires t.calls == s.calls + [c]
    requires Prompt(c) || (!counted && c.ticket.Some? && first <= c.ticket.value.bucket)
    ensures NewCalls(s, t, first, counted)
  {
  }

  lemma LetIsBilled(s: State, who: Who, usage: Usage)
    ensures var bill := Billed(who, Month(s.now));
            Sum(s.calls + [LetEmitted(s, who, usage)], bill) == Sum(s.calls, bill) + s.config.rate(usage)
  {
    SumAppend(s.calls, LetEmitted(s, who, usage), Billed(who, Month(s.now)));
  }

  lemma LetIsNew(s: State, who: Who, usage: Usage)
    ensures NewCalls(s, AfterLet(s, who, usage), s.now / RATE_WINDOW, false)
  {
    NewCallIs(s, AfterLet(s, who, usage), LetEmitted(s, who, usage), s.now / RATE_WINDOW, false);
  }

  /** Only clock, defaults and Redis decide what the customer may do. */
  lemma SameStores(s: State, t: State, u: State, who: Who, billed: int, spent: int, rates: int)
    requires Adds(s, t, who, billed, spent, rates)
    requires u.now == t.now && u.config == t.config && u.db == t.db && u.calls == t.calls
    ensures Adds(s, u, who, billed, spent, rates)
  {
  }

  lemma LetAdds(s: State, who: Who, usage: Usage)
    ensures Adds(s, AfterLet(s, who, usage), who, s.config.rate(usage), 0, 1)
  {
    var t := AtStage(s, who, LetEmitted(s, who, usage));
    assert Adds(s, t, who, s.config.rate(usage), 0, 1) by {
      OtherKeysStay(s, who, LetEmitted(s, who, usage));
      RatingKeeps(s, who, LetEmitted(s, who, usage));
      LetIsBilled(s, who, usage);
    }
    SameStores(s, t, AfterLet(s, who, usage), who, s.config.rate(usage), 0, 1);
  }

  /** The same with the event counted at once. */
  function AfterCount(s: State, who: Who, usage: Usage): State
  {
    Delivered(AfterLet(s, who, usage), |s.copies|)
  }

  lemma DeliveryKeeps(s: State, j: nat, who: Who)
    requires CopyAt(s, j, Queued) && s.copies[j].event.call < |s.calls|
    requires s.copies[j].event.who == who && Month(s.copies[j].event.at) == Month(s.now)
    ensures var t := Delivered(s, j);
            && (LimitNeverExpires(s, who) ==> LimitNeverExpires(t, who))
            && (SpendKeyOk(s, who, Month(s.now)) ==> SpendKeyOk(t, who, Month(s.now)))
            && (forall b: nat :: Unused(s, who, b) ==> Unused(t, who, b))
  {
  }

  lemma CountAdds(s: State, who: Who, usage: Usage)
    ensures var cost := s.config.rate(usage); Adds(s, AfterCount(s, who, usage), who, cost, cost, 1)
    ensures NewCalls(s, AfterCount(s, who, usage), s.now / RATE_WINDOW, true)
  {
    var u, c := AfterLet(s, who, usage), Counted(LetEmitted(s, who, usage), s.now);
    LetAdds(s, who, usage);
    DeliveryCounts(u, |s.copies|, who);
    assert AfterCount(s, who, usage).calls == s.calls + [c];
    SumAppend(s.calls, c, Billed(who, Month(s.now)));
    DeliveryKeeps(u, |s.copies|, who);
    NewCallIs(s, AfterCount(s, who, usage), c, s.now / RATE_WINDOW, true);
  }

  lemma LetOnce(s: State, who: Who, usage: Usage, price: nat) returns (t: State)
    requires 0 <= Rates(s, who) < RATE_MAX && SpentNow(s, who) < EffectiveLimit(s, who)
    requires s.config.rate(usage) == price
    ensures Leads(s, t, price) && Adds(s, t, who, price, 0, 1) && NewCalls(s, t, s.now / RATE_WINDOW, false)
  {
    t := AfterLet(s, who, usage);
    OneLet(s, who, usage, price);
    LetAdds(s, who, usage);
    LetIsNew(s, who, usage);
  }

  /** x taken k times. */
  function Total(k: nat, x: nat): nat
  {
    if k == 0 then 0 else Total(k - 1, x) + x
  }

  lemma {:induction false} TotalIsProduct(k: nat, x: nat)
    ensures Total(k, x) == k * x
  {
    if k == 0 {
    } else {
      TotalIsProduct(k - 1, x);
      assert k * x == (k - 1) * x + x;
    }
  }

  /** k uncounted requests in the current window, which cost `bill`. */
  lemma {:induction false} Burst(s: State, who: Who, usage: Usage, price: nat, bill: nat, k: nat) returns (t: State)
    requires 0 <= Rates(s, who) && Rates(s, who) + k <= RATE_MAX && SpentNow(s, who) < EffectiveLimit(s, who)
    requires s.config.rate(usage) == price && bill == Total(k, price)
    ensures Leads(s, t, price) && Adds(s, t, who, bill, 0, k) && NewCalls(s, t, s.now / RATE_WINDOW, false)
    decreases k
  {
    if k == 0 {
      t := s;
      LeadsNowhere(s, price);
    } else {
      var u := LetOnce(s, who, usage, price);
      t := Burst(u, who, usage, price, bill - price, k - 1);
      LeadsOn(s, u, t, price);
      AddsOn(s, u, t, who, price, bill - price, 0, 0, 1, k - 1);
      NewCallsOn(s, u, t, s.now / RATE_WINDOW, false);
    }
  }

  ghost predicate Charges(rate: Pricer, cost: nat)
  {
    exists usage :: rate(usage) == cost
  }

  /** Every amount up to the price is the cost of some call. */
  ghost predicate Chargeable(rate: Pricer, price: nat)
  {
    forall cost: nat :: cost <= price ==> Charges(rate, cost)
  }

  lemma SpendOnce(s: State, who: Who, price: nat, cost: nat) returns (t: State)
    requires 0 <= Rates(s, who) < RATE_MAX && SpentNow(s, who) < EffectiveLimit(s, who)
    requires cost <= price && Chargeable(s.config.rate, price)
    ensures Leads(s, t, price) && Adds(s, t, who, cost, cost, 1) && NewCalls(s, t, s.now / RATE_WINDOW, true)
  {
    assert Charges(s.config.rate, cost);
    var usage :| s.config.rate(usage) == cost;
    t := AfterCount(s, who, usage);
    OneLet(s, who, usage, price);
    OneDelivery(AfterLet(s, who, usage), |s.copies|, price);
    LeadsOn(s, AfterLet(s, who, usage), t, price);
    CountAdds(s, who, usage);
  }

  /** Spends `amount` in at most k requests of the current window, each counted at once. */
  lemma {:induction false} SpendBurst(s: State, who: Who, price: nat, amount: nat, k: nat) returns (t: State, n: nat)
    requires 0 <= Rates(s, who) && Rates(s, who) + k <= RATE_MAX && amount <= Total(k, price)
    requires SpentNow(s, who) + amount < EffectiveLimit(s, who) && Chargeable(s.config.rate, price)
    ensures n <= k && Leads(s, t, price) && Adds(s, t, who, amount, amount, n)
    ensures NewCalls(s, t, s.now / RATE_WINDOW, true)
    decreases k
  {
    if amount == 0 {
      t, n := s, 0;
      LeadsNowhere(s, price);
      AddsNothing(s, who, s.now / RATE_WINDOW, true);
    } else {
      var cost := if amount <= price then amount else price;
      var u := SpendOnce(s, who, price, cost);
      var m;
      t, m := SpendBurst(u, who, price, amount - cost, k - 1);
      n := m + 1;
      LeadsOn(s, u, t, price);
      AddsOn(s, u, t, who, cost, amount - cost, cost, amount - cost, 1, m);
      NewCallsOn(s, u, t, s.now / RATE_WINDOW, true);
    }
  }

  /** What a customer with an unused next window in the same month can rely on. */
  ghost predicate Settled(s: State, who: Who)
  {
    SpendKeyOk(s, who, Month(s.now)) && LimitNeverExpires(s, who)
  }

  lemma SpendKeyOutlives(s: State, t: State, who: Who)
    requires SpendKeyOk(s, who, Month(s.now)) && t == s.(now := s.now + RATE_WINDOW) && Month(t.now) == Month(s.now)
    ensures SpendKeyOk(t, who, Month(t.now)) && SpentNow(t, who) == SpentNow(s, who)
  {
    assert t.now < MonthStart(Month(s.now) + 1) < KeptUntil(Month(s.now));
  }

  lemma LimitOutlives(s: State, t: State, who: Who)
    requires LimitNeverExpires(s, who) && t == s.(now := s.now + RATE_WINDOW)
    ensures LimitNeverExpires(t, who) && EffectiveLimit(t, who) == EffectiveLimit(s, who)
  {
  }

  /** Into the next window of the month, which is unused; neither the spend key nor the limit
      expires on the way. */
  lemma NextWindow(s: State, who: Who, price: nat) returns (t: State)
    requires Settled(s, who) && Month(s.now + RATE_WINDOW) == Month(s.now)
    requires Unused(s, who, s.now / RATE_WINDOW + 1)
    ensures t == s.(now := s.now + RATE_WINDOW) && Leads(s, t, price)
    ensures Settled(t, who) && Rates(t, who) == 0
    ensures SpentNow(t, who) == SpentNow(s, who) && EffectiveLimit(t, who) == EffectiveLimit(s, who)
  {
    t := s.(now := s.now + RATE_WINDOW);
    LeadsBy(s, Tick(RATE_WINDOW), t, price);
    assert t.now / RATE_WINDOW == s.now / RATE_WINDOW + 1;
    SpendKeyOutlives(s, t, who);
    LimitOutlives(s, t, who);
  }

  lemma MonthStays(now: nat, later: nat, t: nat)
    requires now <= t <= later && Month(later) == Month(now)
    ensures Month(t) == Month(now)
  {
    MonthMonotone(now, t);
    MonthMonotone(t, later);
  }

  ghost predicate AllUnused(s: State, who: Who)
  {
    Rates(s, who) == 0 && forall b: nat :: s.now / RATE_WINDOW < b ==> Unused(s, who, b)
  }

  /** t has spent and counted `amount` more and is, like s, at the start of an unused window. */
  ghost predicate Spends(s: State, t: State, who: Who, price: nat, amount: int)
  {
    && Leads(s, t, price) && s.calls <= t.calls && NewCalls(s, t, 0, true)
    && t.config == s.config && Month(t.now) == Month(s.now)
    && Settled(t, who) && AllUnused(t, who)
    && SpentNow(t, who) == SpentNow(s, who) + amount && EffectiveLimit(t, who) == EffectiveLimit(s, who)
    && Sum(t.calls, Billed(who, Month(s.now))) == Sum(s.calls, Billed(who, Month(s.now))) + amount
  }

  lemma SpendsOn(s: State, t: State, u: State, who: Who, price: nat, a: int, b: int)
    requires Spends(s, t, who, price, a) && Spends(t, u, who, price, b)
    ensures Spends(s, u, who, price, a + b)
  {
    LeadsOn(s, t, u, price);
    NewCallsOn(s, t, u, 0, true);
  }

  lemma SpendOneWindow(s: State, who: Who, price: nat, amount: nat) returns (t: State)
    requires Settled(s, who) && AllUnused(s, who) && Month(s.now + RATE_WINDOW) == Month(s.now)
    requires amount <= 120 * price && SpentNow(s, who) + amount < EffectiveLimit(s, who)
    requires 0 < amount ==> Chargeable(s.config.rate, price)
    ensures t.now == s.now + RATE_WINDOW && Spends(s, t, who, price, amount)
  {
    var u := s;
    if 0 < amount {
      TotalIsProduct(RATE_MAX, price);
      var n;
      u, n := SpendBurst(s, who, price, amount, RATE_MAX);
    } else {
      LeadsNowhere(s, price);
    }
    t := NextWindow(u, who, price);
    LeadsOn(s, u, t, price);
    assert t.now / RATE_WINDOW == s.now / RATE_WINDOW + 1;
    forall b: nat | t.now / RATE_WINDOW < b ensures Unused(t, who, b) {
      assert Unused(s, who, b) && Unused(u, who, b);
    }
  }

  /** From the start of an unused window there is room in the month, and under the limit, to
      spend `amount` in so many windows. */
  ghost predicate CanSpend(s: State, who: Who, price: nat, amount: nat, windows: nat)
  {
    && Settled(s, who) && AllUnused(s, who)
    && Month(s.now + 60 * windows) == Month(s.now)
    && amount <= Total(windows, 120 * price) && SpentNow(s, who) + amount < EffectiveLimit(s, who)
    && (0 < amount ==> Chargeable(s.config.rate, price))
  }

  function FirstPart(price: nat, amount: nat): (part: nat)
    ensures part <= amount && part <= 120 * price
  {
    if amount <= 120 * price then amount else 120 * price
  }

  lemma SpendFirstWindow(s: State, who: Who, price: nat, amount: nat, windows: nat) returns (t: State)
    requires 0 < windows && CanSpend(s, who, price, amount, windows)
    ensures t.now == s.now + RATE_WINDOW && Spends(s, t, who, price, FirstPart(price, amount))
  {
    MonthStays(s.now, s.now + 60 * windows, s.now + RATE_WINDOW);
    t := SpendOneWindow(s, who, price, FirstPart(price, amount));
  }

  lemma CanSpendTheRest(s: State, t: State, who: Who, price: nat, amount: nat, windows: nat)
    requires 0 < windows && CanSpend(s, who, price, amount, windows)
    requires t.now == s.now + RATE_WINDOW && Spends(s, t, who, price, FirstPart(price, amount))
    ensures CanSpend(t, who, price, amount - FirstPart(price, amount), windows - 1)
  {
  }

  lemma SpendsNothing(s: State, who: Who, price: nat)
    requires Settled(s, who) && AllUnused(s, who)
    ensures Spends(s, s, who, price, 0)
  {
    LeadsNowhere(s, price);
  }

  /** Spends `amount` in so many windows, each request counted at once. */
  lemma {:induction false} SpendWindows(s: State, who: Who, price: nat, amount: nat, windows: nat) returns (t: State)
    requires CanSpend(s, who, price, amount, windows)
    ensures Spends(s, t, who, price, amount) && t.now == s.now + 60 * windows
    decreases windows
  {
    if windows == 0 {
      t := s;
      SpendsNothing(s, who, price);
    } else {
      var part := FirstPart(price, amount);
      var u := SpendFirstWindow(s, who, price, amount, windows);
      CanSpendTheRest(s, u, who, price, amount, windows);
      t := SpendWindows(u, who, price, amount - part, windows - 1);
      SpendsOn(s, u, t, who, price, part, amount - part);
    }
  }

  lemma OneWindowCanBeOpen(s: State, who: Who, usage: Usage) returns (t: State)
    requires Settled(s, who) && SpentNow(s, who) < EffectiveLimit(s, who) && Rates(s, who) == 0
    requires Month(s.now + RATE_WINDOW) == Month(s.now) && Unused(s, who, s.now / RATE_WINDOW + 1)
    ensures t.now == s.now + RATE_WINDOW && t.config == s.config && Leads(s, t, s.config.rate(usage))
    ensures Rates(t, who) == 0 && SpentNow(t, who) < EffectiveLimit(t, who)
    ensures s.calls <= t.calls && NewCalls(s, t, s.now / RATE_WINDOW, false)
    ensures var bill := Billed(who, Month(s.now)); Sum(t.calls, bill) == Sum(s.calls, bill) + 120 * s.config.rate(usage)
  {
    TotalIsProduct(RATE_MAX, s.config.rate(usage));
    var u := Burst(s, who, usage, s.config.rate(usage), 120 * s.config.rate(usage), RATE_MAX);
    t := NextWindow(u, who, s.config.rate(usage));
    LeadsOn(s, u, t, s.config.rate(usage));
  }

  /** The worst case: a customer with anything left, and no request in this window or the
      next yet, can run up 240 full-price calls in them, none of which is late by then. */
  lemma TwoWindowsCanBeOpen(s: State, who: Who, usage: Usage) returns (t: State)
    requires Settled(s, who) && SpentNow(s, who) < EffectiveLimit(s, who)
    requires Month(s.now + RATE_WINDOW) == Month(s.now)
    requires Rates(s, who) == 0 && Unused(s, who, s.now / RATE_WINDOW + 1)
    ensures Leads(s, t, s.config.rate(usage))
    ensures var bill := Billed(who, Month(s.now)); Sum(t.calls, bill) == Sum(s.calls, bill) + 240 * s.config.rate(usage)
    ensures s.calls <= t.calls && forall i :: |s.calls| <= i < |t.calls| ==> !Late(t.calls[i], t.now)
  {
    var u := OneWindowCanBeOpen(s, who, usage);
    TotalIsProduct(RATE_MAX, s.config.rate(usage));
    t := Burst(u, who, usage, s.config.rate(usage), 120 * s.config.rate(usage), RATE_MAX);
    LeadsOn(s, u, t, s.config.rate(usage));
    assert NewCalls(u, t, s.now / RATE_WINDOW, false);
    NewCallsOn(s, u, t, s.now / RATE_WINDOW, false);
  }

  lemma SpendTheRest(s: State, u: State, who: Who, usage: Usage, price: nat, amount: nat) returns (t: State)
    requires s.calls == [] && s.config.rate(usage) == price && Spends(s, u, who, price, amount)
    requires SpentNow(u, who) < EffectiveLimit(u, who) && Month(u.now + RATE_WINDOW) == Month(u.now)
    ensures Leads(s, t, price) && Sum(t.calls, Billed(who, Month(s.now))) == amount + 240 * price
    ensures forall i :: 0 <= i < |t.calls| ==> !Late(t.calls[i], t.now)
  {
    t := TwoWindowsCanBeOpen(u, who, usage);
    LeadsOn(s, u, t, price);
    forall i | 0 <= i < |t.calls| ensures !Late(t.calls[i], t.now) {
      assert i < |u.calls| ==> t.calls[i] == u.calls[i];
    }
  }

  lemma StartCanSpend(now: nat, config: Config, who: Who, price: nat, windows: nat)
    requires 1 <= config.fallback <= windows * (120 * price) + 1
    requires 1 < config.fallback ==> Chargeable(config.rate, price)
    requires Month(now + 60 * windows) == Month(now)
    ensures CanSpend(Start(now, config), who, price, config.fallback - 1, windows)
  {
    TotalIsProduct(windows, 120 * price);
  }

  /** The bound limit - 1 + 240 * price is reached, with every event in time, for every limit
      of which all but one micro can be spent at full price in `windows` rate windows. */
  lemma BoundIsReached(now: nat, config: Config, who: Who, usage: Usage, price: nat, windows: nat) returns (t: State)
    requires config.rate(usage) == price && (1 < config.fallback ==> Chargeable(config.rate, price))
    requires 1 <= config.fallback <= windows * (120 * price) + 1
    requires Month(now + 60 * (windows + 1)) == Month(now)
    ensures Leads(Start(now, config), t, price)
    ensures Sum(t.calls, Billed(who, Month(now))) == config.fallback - 1 + 240 * price
    ensures forall i :: 0 <= i < |t.calls| ==> !Late(t.calls[i], t.now)
  {
    MonthStays(now, now + 60 * (windows + 1), now + 60 * windows);
    StartCanSpend(now, config, who, price, windows);
    var u := SpendWindows(Start(now, config), who, price, config.fallback - 1, windows);
    t := SpendTheRest(Start(now, config), u, who, usage, price, config.fallback - 1);
  }
}
