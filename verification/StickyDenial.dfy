/** Once the budget is spent it stays spent: until the month rolls over or the limit is
    raised, no interleaving with metering lets another request of the customer through. */
module StickyDenial {
  import opened Options
  import opened Redis
  import opened Calendar
  import opened Sums
  import opened SpendLoop
  import opened Coherence
  import opened RateLimiter
  import opened Ledgers
  import opened Runs

  predicate KeepsLimit(run: seq<Label>, who: Who)
  {
    forall l :: l in run ==> !(l.SetLimit? && l.who == who)
  }

  predicate HeldBack(c: Call, who: Who, month: nat, limit: int)
  {
    c.who == who && c.ticket.Some? ==>
      && (c.stage == Limited ==> c.limit == limit)
      && (Passed(c) ==> month < Month(c.readAt))
  }

  /** The month's counted spend has reached `limit`, which is in force, and no request from
      number `first` on has been let through by a read of that month's counter. */
  ghost predicate Exhausted(s: State, who: Who, month: nat, limit: int, first: nat)
  {
    && Coherent(s) && LedgerInv(s, who, month) && LimitNeverExpires(s, who)
    && month <= Month(s.now)
    && EffectiveLimit(s, who) == limit <= Sum(s.copies, CountedIn(who, month))
    && first <= |s.calls|
    && (forall i :: first <= i < |s.calls| ==> HeldBack(s.calls[i], who, month, limit))
  }

  /** While the month lasts, a read of its counter finds nothing left. */
  lemma ReadsNothingLeft(s: State, who: Who, month: nat, limit: int, first: nat)
    requires Exhausted(s, who, month, limit, first) && Month(s.now) == month
    ensures limit <= SpentNow(s, who)
  {
  }

  lemma LimitHolds(s: State, l: Label, who: Who)
    requires LimitNeverExpires(s, who) && Enabled(s, l) && !(l.SetLimit? && l.who == who)
    ensures LimitNeverExpires(Apply(s, l), who) && EffectiveLimit(Apply(s, l), who) == EffectiveLimit(s, who)
  {
  }

  lemma RewrittenIsHeldBack(s: State, l: Label, who: Who, month: nat, limit: int)
    requires Enabled(s, l) && EffectiveLimit(s, who) == limit && month <= Month(s.now)
    requires Month(s.now) == month ==> limit <= SpentNow(s, who)
    requires CallOf(s, l).Some? && CallOf(s, l).value < |s.calls|
    requires HeldBack(s.calls[CallOf(s, l).value], who, month, limit)
    ensures CallOf(s, l).value < |Apply(s, l).calls|
    ensures HeldBack(Apply(s, l).calls[CallOf(s, l).value], who, month, limit)
  {
  }

  lemma NewIsHeldBack(s: State, l: Label, who: Who, month: nat, limit: int)
    requires l.Rate? || l.Hit?
    ensures |Apply(s, l).calls| == |s.calls| + 1 && HeldBack(Apply(s, l).calls[|s.calls|], who, month, limit)
  {
  }

  lemma LaterCallStep(s: State, l: Label, i: nat, who: Who, month: nat, limit: int)
    requires Enabled(s, l) && EffectiveLimit(s, who) == limit && month <= Month(s.now)
    requires Month(s.now) == month ==> limit <= SpentNow(s, who)
    requires i < |Apply(s, l).calls| && (i < |s.calls| ==> HeldBack(s.calls[i], who, month, limit))
    ensures HeldBack(Apply(s, l).calls[i], who, month, limit)
  {
    OthersStay(s, l);
    if |s.calls| <= i {
      NewIsHeldBack(s, l, who, month, limit);
    } else if CallOf(s, l) == Some(i) {
      RewrittenIsHeldBack(s, l, who, month, limit);
    }
  }

  lemma LaterCallsStep(s: State, l: Label, who: Who, month: nat, limit: int, first: nat)
    requires Enabled(s, l) && EffectiveLimit(s, who) == limit && month <= Month(s.now)
    requires Month(s.now) == month ==> limit <= SpentNow(s, who)
    requires first <= |s.calls| && forall i :: first <= i < |s.calls| ==> HeldBack(s.calls[i], who, month, limit)
    ensures first <= |Apply(s, l).calls|
    ensures forall i :: first <= i < |Apply(s, l).calls| ==> HeldBack(Apply(s, l).calls[i], who, month, limit)
  {
    forall i | first <= i < |Apply(s, l).calls| ensures HeldBack(Apply(s, l).calls[i], who, month, limit) {
      LaterCallStep(s, l, i, who, month, limit);
    }
  }

  lemma ExhaustedStep(s: State, l: Label, who: Who, month: nat, limit: int, first: nat)
    requires Exhausted(s, who, month, limit, first) && Enabled(s, l) && !(l.SetLimit? && l.who == who)
    ensures Exhausted(Apply(s, l), who, month, limit, first)
  {
    CoherentStep(s, l);
    LedgerStep(s, l, who, month);
    CountedInStep(s, l, who, month);
    MonthMonotone(s.now, Apply(s, l).now);
    LimitHolds(s, l, who);
    if Month(s.now) == month {
      ReadsNothingLeft(s, who, month, limit, first);
    }
    LaterCallsStep(s, l, who, month, limit, first);
  }

  lemma {:induction false} ExhaustedRun(s: State, run: seq<Label>, who: Who, month: nat, limit: int, first: nat)
    requires Exhausted(s, who, month, limit, first) && Valid(s, run)
    requires KeepsLimit(run, who)
    ensures Exhausted(Exec(s, run), who, month, limit, first)
    decreases |run|
  {
    if run == [] {
    } else {
      ExhaustedStep(s, run[0], who, month, limit, first);
      ExhaustedRun(Apply(s, run[0]), run[1..], who, month, limit, first);
    }
  }

  lemma {:induction false} LimitNeverExpiresRun(s: State, run: seq<Label>, who: Who)
    requires LimitNeverExpires(s, who) && Valid(s, run)
    ensures LimitNeverExpires(Exec(s, run), who)
    decreases |run|
  {
    if run == [] {
    } else {
      assert LimitNeverExpires(Apply(s, run[0]), who);
      LimitNeverExpiresRun(Apply(s, run[0]), run[1..], who);
    }
  }

  /** Sticky denial: from a state in which nothing is left of the customer's budget, every
      request that starts later and is let through has read the counter of a later month. */
  lemma DenialIsSticky(now: nat, config: Config, before: seq<Label>, run: seq<Label>, who: Who)
    requires Valid(Start(now, config), before)
    requires var s := Exec(Start(now, config), before);
             && EffectiveLimit(s, who) <= SpentNow(s, who)
             && Valid(s, run) && KeepsLimit(run, who)
    ensures var s := Exec(Start(now, config), before);
            var calls := Exec(s, run).calls;
            forall i :: |s.calls| <= i < |calls| && calls[i].who == who && calls[i].ticket.Some? && Passed(calls[i])
              ==> Month(s.now) < Month(calls[i].readAt)
  {
    var s := Exec(Start(now, config), before);
    LedgerRun(Start(now, config), before, who, Month(s.now));
    LimitNeverExpiresRun(Start(now, config), before, who);
    ExhaustedRun(s, run, who, Month(s.now), EffectiveLimit(s, who), |s.calls|);
    var calls := Exec(s, run).calls;
    assert forall i :: |s.calls| <= i < |calls| ==> HeldBack(calls[i], who, Month(s.now), EffectiveLimit(s, who));
  }

  // ---- Which requests escape the denial ------------------------------------------------

  /** The request's rate check fell in the month and the request was let through. */
  predicate LetThrough(c: Call, who: Who, month: nat)
  {
    c.who == who && c.ticket.Some? && Month(c.ticket.value.bucket * RATE_WINDOW) == month && Passed(c)
  }

  ghost predicate SlipsThrough(s: State, t: State, who: Who)
  {
    exists i :: |s.calls| <= i < |t.calls| && LetThrough(t.calls[i], who, Month(s.now))
  }

  /** A request of the customer that starts after s, but in the same month, can get through
      without the limit being set. */
  ghost predicate CanSlipThrough(s: State, who: Who)
  {
    exists run :: Valid(s, run) && KeepsLimit(run, who) && SlipsThrough(s, Exec(s, run), who)
  }

  /** The rate limiter has room for another request this month: in the open window, or
      because a further window begins in the month. */
  predicate SlotLeft(s: State, who: Who)
  {
    Rates(s, who) < RATE_MAX || (s.now / RATE_WINDOW + 1) * RATE_WINDOW < MonthStart(Month(s.now) + 1)
  }

  lemma DaysAreWindows(start: nat, days: nat)
    requires start % 60 == 0
    ensures (start + days * 86400) % 60 == 0
  {
    assert start + days * 86400 == 60 * (start / 60 + days * 1440);
  }

  lemma {:induction false} MonthStartsWithAWindow(k: nat)
    ensures MonthStart(k) % RATE_WINDOW == 0
  {
    if k == 0 {
    } else {
      MonthStartsWithAWindow(k - 1);
      DaysAreWindows(MonthStart(k - 1), DaysIn(k - 1));
    }
  }

  /** A rate window lies in one month. */
  lemma WindowInMonth(t: nat)
    ensures Month(t / RATE_WINDOW * RATE_WINDOW) == Month(t)
  {
    MonthStartsWithAWindow(Month(t));
    MonthUnique(Month(t), t / RATE_WINDOW * RATE_WINDOW);
  }

  lemma NothingCountedYet(s: State, who: Who, month: nat)
    requires Coherent(s) && Month(s.now) < month
    ensures Sum(s.copies, CountedIn(who, month)) == 0
  {
    forall j | 0 <= j < |s.copies| ensures CountedIn(who, month)(s.copies[j]) == 0 {
      assert CopyOk(s.copies[j], s.calls);
      assert CallOk(s.calls[s.copies[j].event.call], s.now);
      MonthMonotone(s.copies[j].event.at, s.now);
      assert EventIn(who, month)(s.copies[j].event) == 0;
    }
    SumZero(s.copies, CountedIn(who, month));
  }

  /** The customer's next request, rated and limited now, about to read the counter at the
      start of next month. */
  function BeforeRead(s: State, who: Who): State
  {
    AtStage(s, who, LetLimited(s, who)).(now := MonthStart(Month(s.now) + 1))
  }

  function AfterRead(s: State, who: Who): State
  {
    assert CallAt(BeforeRead(s, who), |s.calls|, Limited);
    Apply(BeforeRead(s, who), Spend(|s.calls|))
  }

  lemma AfterReadReached(s: State, who: Who, price: nat)
    requires 0 <= Rates(s, who)
    ensures Leads(s, AfterRead(s, who), price)
  {
    var u := AtStage(s, who, LetLimited(s, who));
    LimitCheck(s, who, price);
    LeadsThenBy(s, u, Tick(MonthStart(Month(s.now) + 1) - s.now), BeforeRead(s, who), price);
    LeadsThenBy(s, BeforeRead(s, who), Spend(|s.calls|), AfterRead(s, who), price);
  }

  lemma AfterReadAdmits(s: State, who: Who)
    requires Coherent(s) && LedgerInv(s, who, Month(s.now) + 1)
    requires 0 < EffectiveLimit(s, who) && Rates(s, who) < RATE_MAX
    ensures |s.calls| < |AfterRead(s, who).calls|
    ensures var c := AfterRead(s, who).calls[|s.calls|];
            LetThrough(c, who, Month(s.now)) && Month(c.readAt) == Month(s.now) + 1
  {
    var next := Month(s.now) + 1;
    var t := BeforeRead(s, who);
    NothingCountedYet(s, who, next);
    MonthStartMonotone(next, next + 1);
    MonthUnique(next, t.now);
    WindowInMonth(s.now);
    assert Value(s.db, SpendKey(who, next), s.now) == 0;
    assert SpentNow(t, who) == 0;
  }

  /** The start of the next window, if it is in the month, is a state with a free slot. */
  lemma NextWindowIsFree(s: State, who: Who) returns (t: State)
    requires Coherent(s) && LimitNeverExpires(s, who)
    requires RateInv(s, who, s.now / RATE_WINDOW + 1)
    requires (s.now / RATE_WINDOW + 1) * RATE_WINDOW < MonthStart(Month(s.now) + 1)
    ensures s.now <= t.now && Step(s, Tick(t.now - s.now), t) && t.calls == s.calls
    ensures Month(t.now) == Month(s.now) && Rates(t, who) == 0 && EffectiveLimit(t, who) == EffectiveLimit(s, who)
  {
    var bucket := s.now / RATE_WINDOW + 1;
    var wait := Tick(bucket * RATE_WINDOW - s.now);
    t := Apply(s, wait);
    RateStep(s, wait, who, bucket);
    MonthUnique(Month(s.now), t.now);
    assert t.now / RATE_WINDOW == bucket;
  }

  /** t is s, or s after a wait within the month, and has a free slot. */
  ghost predicate Opens(s: State, t: State, who: Who)
  {
    && Leads(s, t, 0) && t.calls == s.calls && Month(t.now) == Month(s.now)
    && EffectiveLimit(t, who) == EffectiveLimit(s, who) && 0 <= Rates(t, who) < RATE_MAX
    && Coherent(t) && LedgerInv(t, who, Month(s.now) + 1)
  }

  lemma SlotAfterWait(s: State, who: Who) returns (t: State)
    requires Coherent(s) && LimitNeverExpires(s, who) && LedgerInv(s, who, Month(s.now) + 1)
    requires RateInv(s, who, s.now / RATE_WINDOW + 1)
    requires (s.now / RATE_WINDOW + 1) * RATE_WINDOW < MonthStart(Month(s.now) + 1)
    ensures Opens(s, t, who)
  {
    t := NextWindowIsFree(s, who);
    var wait := Tick(t.now - s.now);
    LeadsBy(s, wait, t, 0);
    CoherentStep(s, wait);
    LedgerStep(s, wait, who, Month(s.now) + 1);
  }

  lemma SlotNow(s: State, who: Who)
    requires Coherent(s) && LedgerInv(s, who, Month(s.now) + 1)
    requires RateInv(s, who, s.now / RATE_WINDOW) && Rates(s, who) < RATE_MAX
    ensures Opens(s, s, who)
  {
    LeadsNowhere(s, 0);
  }

  /** What every reachable state keeps and the escape needs. */
  ghost predicate Accounted(s: State, who: Who)
  {
    && Coherent(s) && LimitNeverExpires(s, who) && LedgerInv(s, who, Month(s.now) + 1)
    && RateInv(s, who, s.now / RATE_WINDOW) && RateInv(s, who, s.now / RATE_WINDOW + 1)
  }

  lemma ReachableRates(now: nat, config: Config, before: seq<Label>, who: Who)
    requires Valid(Start(now, config), before)
    ensures Coherent(Exec(Start(now, config), before))
    ensures forall bucket: nat :: RateInv(Exec(Start(now, config), before), who, bucket)
  {
    forall bucket: nat ensures RateInv(Exec(Start(now, config), before), who, bucket) {
      RateRun(Start(now, config), before, who, bucket);
    }
    RateRun(Start(now, config), before, who, 0);
  }

  lemma ReachableLedger(now: nat, config: Config, before: seq<Label>, who: Who)
    requires Valid(Start(now, config), before)
    ensures forall month: nat :: LedgerInv(Exec(Start(now, config), before), who, month)
    ensures LimitNeverExpires(Exec(Start(now, config), before), who)
  {
    forall month: nat ensures LedgerInv(Exec(Start(now, config), before), who, month) {
      LedgerRun(Start(now, config), before, who, month);
    }
    LimitNeverExpiresRun(Start(now, config), before, who);
  }

  lemma ReachableIsAccounted(now: nat, config: Config, before: seq<Label>, who: Who)
    requires Valid(Start(now, config), before)
    ensures Accounted(Exec(Start(now, config), before), who)
  {
    ReachableLedger(now, config, before, who);
    ReachableRates(now, config, before, who);
  }

  lemma SlotOpens(s: State, who: Who) returns (t: State)
    requires Accounted(s, who) && SlotLeft(s, who)
    ensures Opens(s, t, who)
  {
    if Rates(s, who) < RATE_MAX {
      t := s;
      SlotNow(s, who);
    } else {
      t := SlotAfterWait(s, who);
    }
  }

  /** t has one request more than s: it started in the month of s, was let through, and read
      the counter of a later month. */
  ghost predicate Escapes(s: State, t: State, who: Who)
  {
    && Leads(s, t, 0) && |t.calls| == |s.calls| + 1
    && LetThrough(t.calls[|s.calls|], who, Month(s.now)) && Month(s.now) < Month(t.calls[|s.calls|].readAt)
  }

  lemma EscapeNow(s: State, who: Who) returns (t: State)
    requires Coherent(s) && LedgerInv(s, who, Month(s.now) + 1)
    requires 0 < EffectiveLimit(s, who) && 0 <= Rates(s, who) < RATE_MAX
    ensures Escapes(s, t, who)
  {
    t := AfterRead(s, who);
    AfterReadAdmits(s, who);
    AfterReadReached(s, who, 0);
  }

  lemma EscapeFromSlot(s: State, u: State, who: Who) returns (t: State)
    requires Opens(s, u, who) && 0 < EffectiveLimit(s, who)
    ensures Escapes(s, t, who)
  {
    t := EscapeNow(u, who);
    LeadsOn(s, u, t, 0);
  }

  /** Starting in the month of the denial is not enough to be denied: while the rate limiter
      has room this month, some request that starts in it is let through, because it reads
      the counter only when the next month has begun. */
  lemma RolloverEndsTheDenial(now: nat, config: Config, before: seq<Label>, who: Who) returns (t: State)
    requires Valid(Start(now, config), before)
    requires var s := Exec(Start(now, config), before); 0 < EffectiveLimit(s, who) && SlotLeft(s, who)
    ensures Escapes(Exec(Start(now, config), before), t, who)
  {
    var s := Exec(Start(now, config), before);
    ReachableIsAccounted(now, config, before, who);
    var u := SlotOpens(s, who);
    t := EscapeFromSlot(s, u, who);
  }

  /** A request that came after the window `bucket` had opened, under a constant limit. */
  predicate CameLater(c: Call, who: Who, limit: int, bucket: nat, full: bool)
  {
    c.who == who && c.ticket.Some? ==>
      && (c.stage == Limited ==> c.limit == limit)
      && (Passed(c) ==> 0 < limit)
      && bucket <= c.ticket.value.bucket
      && (full && c.ticket.value.bucket == bucket ==> RATE_MAX < c.ticket.value.n)
  }

  /** The limit has not changed since the window `bucket`, whose slots are used up if `full`. */
  ghost predicate Waiting(s: State, who: Who, limit: int, bucket: nat, full: bool, first: nat)
  {
    && Coherent(s) && LimitNeverExpires(s, who) && EffectiveLimit(s, who) == limit
    && (forall month: nat :: SpendKeyOk(s, who, month))
    && RateInv(s, who, bucket) && (full ==> RATE_MAX <= Sum(s.calls, Attempt(who, bucket)))
    && bucket * RATE_WINDOW <= s.now && first <= |s.calls|
    && (forall i :: first <= i < |s.calls| ==> CameLater(s.calls[i], who, limit, bucket, full))
  }

  lemma RewrittenCameLater(s: State, l: Label, who: Who, limit: int, bucket: nat, full: bool)
    requires Enabled(s, l) && EffectiveLimit(s, who) == limit && 0 <= SpentNow(s, who)
    requires CallOf(s, l).Some? && CallOf(s, l).value < |s.calls|
    requires CameLater(s.calls[CallOf(s, l).value], who, limit, bucket, full)
    ensures CallOf(s, l).value < |Apply(s, l).calls|
    ensures CameLater(Apply(s, l).calls[CallOf(s, l).value], who, limit, bucket, full)
  {
  }

  lemma NewCameLater(s: State, l: Label, who: Who, limit: int, bucket: nat, full: bool)
    requires (l.Rate? || l.Hit?) && bucket * RATE_WINDOW <= s.now
    requires full && s.now / RATE_WINDOW == bucket ==> RATE_MAX <= Value(s.db, RateKey(who, bucket), s.now)
    ensures |Apply(s, l).calls| == |s.calls| + 1 && CameLater(Apply(s, l).calls[|s.calls|], who, limit, bucket, full)
  {
  }

  lemma CameLaterStep(s: State, l: Label, i: nat, who: Who, limit: int, bucket: nat, full: bool)
    requires Enabled(s, l) && EffectiveLimit(s, who) == limit && 0 <= SpentNow(s, who)
    requires bucket * RATE_WINDOW <= s.now
    requires full && s.now / RATE_WINDOW == bucket ==> RATE_MAX <= Value(s.db, RateKey(who, bucket), s.now)
    requires i < |Apply(s, l).calls| && (i < |s.calls| ==> CameLater(s.calls[i], who, limit, bucket, full))
    ensures CameLater(Apply(s, l).calls[i], who, limit, bucket, full)
  {
    OthersStay(s, l);
    if |s.calls| <= i {
      NewCameLater(s, l, who, limit, bucket, full);
    } else if CallOf(s, l) == Some(i) {
      RewrittenCameLater(s, l, who, limit, bucket, full);
    }
  }

  lemma SpendKeysStay(s: State, l: Label, who: Who)
    requires Coherent(s) && Enabled(s, l) && forall month: nat :: SpendKeyOk(s, who, month)
    ensures forall month: nat :: SpendKeyOk(Apply(s, l), who, month)
  {
    if CopyOf(s, l).Some? {
      var c := s.copies[CopyOf(s, l).value];
      assert CopyOk(c, s.calls) && CallOk(s.calls[c.event.call], s.now);
    }
    forall month: nat ensures SpendKeyOk(Apply(s, l), who, month) {
      CounterStep(s, l, who, month);
    }
  }

  lemma WaitingStep(s: State, l: Label, who: Who, limit: int, bucket: nat, full: bool, first: nat)
    requires Waiting(s, who, limit, bucket, full, first) && Enabled(s, l) && !(l.SetLimit? && l.who == who)
    ensures Waiting(Apply(s, l), who, limit, bucket, full, first)
  {
    CoherentStep(s, l);
    LimitHolds(s, l, who);
    SpendKeysStay(s, l, who);
    RateStep(s, l, who, bucket);
    TallyStep(s, l, who, bucket);
    assert SpendKeyOk(s, who, Month(s.now));
    forall i | first <= i < |Apply(s, l).calls| ensures CameLater(Apply(s, l).calls[i], who, limit, bucket, full) {
      CameLaterStep(s, l, i, who, limit, bucket, full);
    }
  }

  lemma {:induction false} WaitingRun(s: State, run: seq<Label>, who: Who, limit: int, bucket: nat, full: bool,
                                      first: nat)
    requires Waiting(s, who, limit, bucket, full, first) && Valid(s, run) && KeepsLimit(run, who)
    ensures Waiting(Exec(s, run), who, limit, bucket, full, first)
    decreases |run|
  {
    if run == [] {
    } else {
      WaitingStep(s, run[0], who, limit, bucket, full, first);
      WaitingRun(Apply(s, run[0]), run[1..], who, limit, bucket, full, first);
    }
  }

  /** Without a positive limit and a slot, none gets through. */
  lemma NoneWithoutSlot(now: nat, config: Config, before: seq<Label>, run: seq<Label>, who: Who)
    requires Valid(Start(now, config), before)
    requires var s := Exec(Start(now, config), before);
             Valid(s, run) && KeepsLimit(run, who) && SlipsThrough(s, Exec(s, run), who)
    ensures var s := Exec(Start(now, config), before); 0 < EffectiveLimit(s, who) && SlotLeft(s, who)
  {
    var s := Exec(Start(now, config), before);
    var bucket, limit, full := s.now / RATE_WINDOW, EffectiveLimit(s, who), RATE_MAX <= Rates(s, who);
    LimitNeverExpiresRun(Start(now, config), before, who);
    RateRun(Start(now, config), before, who, bucket);
    forall month: nat ensures SpendKeyOk(s, who, month) {
      LedgerRun(Start(now, config), before, who, month);
    }
    WaitingRun(s, run, who, limit, bucket, full, |s.calls|);
    var t := Exec(s, run);
    var i :| |s.calls| <= i < |t.calls| && LetThrough(t.calls[i], who, Month(s.now));
    assert CameLater(t.calls[i], who, limit, bucket, full) && CallOk(t.calls[i], t.now);
    if full {
      assert (bucket + 1) * RATE_WINDOW <= t.calls[i].ticket.value.bucket * RATE_WINDOW;
    }
  }

  /** In any reachable state, spent or not, a request that starts later in the month can get
      through without a new limit exactly if the limit in force is positive and the rate
      limiter has room this month. Of a spent budget, by `DenialIsSticky`, every such request
      reads the counter of a later month. */
  lemma SlipsThroughIffSlotLeft(now: nat, config: Config, before: seq<Label>, who: Who)
    requires Valid(Start(now, config), before)
    ensures var s := Exec(Start(now, config), before);
            CanSlipThrough(s, who) <==> 0 < EffectiveLimit(s, who) && SlotLeft(s, who)
  {
    var s := Exec(Start(now, config), before);
    if CanSlipThrough(s, who) {
      var run :| Valid(s, run) && KeepsLimit(run, who) && SlipsThrough(s, Exec(s, run), who);
      NoneWithoutSlot(now, config, before, run, who);
    }
    if 0 < EffectiveLimit(s, who) && SlotLeft(s, who) {
      var t := RolloverEndsTheDenial(now, config, before, who);
      var run :| Valid(s, run) && Exec(s, run) == t && AllModest(s.config.rate, run, 0);
      assert KeepsLimit(run, who) by {
        assert forall l :: l in run ==> Modest(s.config.rate, l, 0);
      }
      assert SlipsThrough(s, t, who);
    }
  }
}
