/** Runs built step by step: a request let through from its rate check to its event, and a
    delivery handled from the topic to both ledgers. */
module Runs {
  import opened Options
  import opened Redis
  import opened Metered
  import opened Calendar
  import opened SpendLoop

  /** No limit is set and no call costs more than `price`. */
  predicate Modest(rate: Pricer, l: Label, price: nat)
  {
    !l.SetLimit? && (l.Complete? ==> rate(l.usage) <= price)
  }

  ghost predicate AllModest(rate: Pricer, run: seq<Label>, price: nat)
  {
    forall l :: l in run ==> Modest(rate, l, price)
  }

  /** Some modest run leads from s to t. */
  ghost predicate Leads(s: State, t: State, price: nat)
  {
    exists run :: Valid(s, run) && Exec(s, run) == t && AllModest(s.config.rate, run, price)
  }

  ghost predicate Step(s: State, l: Label, t: State)
  {
    Enabled(s, l) && Apply(s, l) == t
  }

  /** The limit is set without a TTL. */
  predicate LimitNeverExpires(s: State, who: Who)
  {
    LimitKey(who) in s.db ==> s.db[LimitKey(who)].expiry.None?
  }

  lemma LeadsNowhere(s: State, price: nat)
    ensures Leads(s, s, price)
  {
    assert Valid(s, []) && AllModest(s.config.rate, [], price);
  }

  lemma LeadsBy(s: State, l: Label, t: State, price: nat)
    requires Step(s, l, t) && Modest(s.config.rate, l, price)
    ensures Leads(s, t, price)
  {
    ExecCons(s, l, []);
    assert AllModest(s.config.rate, [l] + [], price);
  }

  lemma {:induction false} ConfigStays(s: State, run: seq<Label>)
    requires Valid(s, run)
    ensures Exec(s, run).config == s.config
    decreases |run|
  {
    if run == [] {
    } else {
      ConfigStays(Apply(s, run[0]), run[1..]);
    }
  }

  lemma LeadsOn(s: State, t: State, u: State, price: nat)
    requires Leads(s, t, price) && Leads(t, u, price)
    ensures Leads(s, u, price)
  {
    var a :| Valid(s, a) && Exec(s, a) == t && AllModest(s.config.rate, a, price);
    var b :| Valid(t, b) && Exec(t, b) == u && AllModest(t.config.rate, b, price);
    ConfigStays(s, a);
    ExecConcat(s, a, b);
    assert AllModest(s.config.rate, a + b, price);
  }

  lemma LeadsThenBy(s: State, t: State, l: Label, u: State, price: nat)
    requires Leads(s, t, price) && Step(t, l, u) && Modest(t.config.rate, l, price)
    ensures Leads(s, u, price)
  {
    LeadsBy(t, l, u, price);
    LeadsOn(s, t, u, price);
  }

  // ---- A request let through ------------------------------------------------------------

  function Rates(s: State, who: Who): int
  {
    Value(s.db, RateKey(who, s.now / RATE_WINDOW), s.now)
  }

  /** The customer's next request when its rate check, its limit read, its decision, the
      provider's answer and its event are done, all of them now. */
  function LetRated(s: State, who: Who): Call
  {
    NewCall(who, Some(NextTicket(s, who)), Rated)
  }

  function LetLimited(s: State, who: Who): Call
  {
    LetRated(s, who).(stage := Limited, limit := EffectiveLimit(s, who))
  }

  function LetAdmitted(s: State, who: Who): Call
  {
    LetLimited(s, who).(stage := Admitted, spent := SpentNow(s, who), readAt := s.now)
  }

  function LetCompleted(s: State, who: Who, usage: Usage): Call
  {
    LetAdmitted(s, who).(stage := Completed, usage := usage, cost := s.config.rate(usage))
  }

  function LetEmitted(s: State, who: Who, usage: Usage): Call
  {
    LetCompleted(s, who, usage).(stage := Emitted, at := s.now, published := true)
  }

  /** s with one more request, at c. */
  function AtStage(s: State, who: Who, c: Call): State
  {
    s.(db := IncrBy(s.db, RateKey(who, s.now / RATE_WINDOW), 1, s.now), calls := s.calls + [c])
  }

  function EventOf(s: State, who: Who, usage: Usage): Event
  {
    Event(|s.calls|, who, usage, s.config.rate(usage), s.now)
  }

  /** s with one more request let through and its event in the topic. */
  function AfterLet(s: State, who: Who, usage: Usage): State
  {
    AtStage(s, who, LetEmitted(s, who, usage))
      .(copies := s.copies + [Copy(EventOf(s, who, usage), false, Queued, false, false)])
  }

  /** INCR raises the rate count and nothing else. */
  lemma OtherKeysStay(s: State, who: Who, c: Call)
    ensures var t := AtStage(s, who, c);
            && EffectiveLimit(t, who) == EffectiveLimit(s, who) && SpentNow(t, who) == SpentNow(s, who)
            && Rates(t, who) == Rates(s, who) + 1
  {
  }

  lemma RateCheck(s: State, who: Who, price: nat)
    requires 0 <= Rates(s, who)
    ensures Leads(s, AtStage(s, who, LetRated(s, who)), price)
  {
    var c := LetRated(s, who);
    var t := AtStage(s, who, c);
    if Rates(s, who) == 0 {
      var s1 := AtStage(s, who, c.(stage := Counting));
      LeadsBy(s, Rate(who, true), s1, price);
      assert s1.calls[|s.calls| := c] == t.calls;
      LeadsThenBy(s, s1, RateTtl(|s.calls|, false), t, price);
    } else {
      LeadsBy(s, Rate(who, true), t, price);
    }
  }

  lemma LimitCheck(s: State, who: Who, price: nat)
    requires 0 <= Rates(s, who)
    ensures Leads(s, AtStage(s, who, LetLimited(s, who)), price)
  {
    var s0, s1 := AtStage(s, who, LetRated(s, who)), AtStage(s, who, LetLimited(s, who));
    OtherKeysStay(s, who, LetRated(s, who));
    RateCheck(s, who, price);
    assert s0.calls[|s.calls| := LetLimited(s, who)] == s1.calls;
    LeadsThenBy(s, s0, Limit(|s.calls|), s1, price);
  }

  lemma BudgetCheck(s: State, who: Who, price: nat)
    requires 0 <= Rates(s, who) < RATE_MAX && SpentNow(s, who) < EffectiveLimit(s, who)
    ensures Leads(s, AtStage(s, who, LetAdmitted(s, who)), price)
  {
    var s0, s1 := AtStage(s, who, LetLimited(s, who)), AtStage(s, who, LetAdmitted(s, who));
    OtherKeysStay(s, who, LetLimited(s, who));
    LimitCheck(s, who, price);
    assert s0.calls[|s.calls| := LetAdmitted(s, who)] == s1.calls;
    LeadsThenBy(s, s0, Spend(|s.calls|), s1, price);
  }

  /** Any request below cap and limit can run to its event before anything of it is counted. */
  lemma OneLet(s: State, who: Who, usage: Usage, price: nat)
    requires 0 <= Rates(s, who) < RATE_MAX && SpentNow(s, who) < EffectiveLimit(s, who)
    requires s.config.rate(usage) <= price
    ensures Leads(s, AfterLet(s, who, usage), price)
  {
    var i := |s.calls|;
    var s0, s1 := AtStage(s, who, LetAdmitted(s, who)), AtStage(s, who, LetCompleted(s, who, usage));
    BudgetCheck(s, who, price);
    assert s0.calls[i := LetCompleted(s, who, usage)] == s1.calls;
    LeadsThenBy(s, s0, Complete(i, usage), s1, price);
    assert s1.calls[i := LetEmitted(s, who, usage)] == AfterLet(s, who, usage).calls;
    LeadsThenBy(s, s1, Emit(i, true), AfterLet(s, who, usage), price);
  }

  // ---- A delivery handled ---------------------------------------------------------------

  /** s after both writes and the EXPIRE for delivery j. */
  function Delivered(s: State, j: nat): State
    requires CopyAt(s, j, Queued) && s.copies[j].event.call < |s.calls|
  {
    var e := s.copies[j].event;
    s.(rows := s.rows + [e],
       db := Expire(IncrBy(s.db, EventKey(e), e.cost, s.now), EventKey(e), SPEND_TTL, s.now),
       calls := s.calls[e.call := Counted(s.calls[e.call], s.now)],
       copies := s.copies[j := s.copies[j].(stage := Handled, rowed := true, counted := true)])
  }

  /** s after the row for delivery j is written. */
  function Recorded(s: State, j: nat): State
    requires CopyAt(s, j, Queued)
  {
    s.(rows := s.rows + [s.copies[j].event],
       copies := s.copies[j := s.copies[j].(stage := Inserted, rowed := true)])
  }

  lemma RowWritten(s: State, j: nat, price: nat)
    requires CopyAt(s, j, Queued)
    ensures Leads(s, Recorded(s, j), price)
  {
    var t := SetCopy(s, j, s.copies[j].(stage := Fetched));
    LeadsBy(s, Fetch(j), t, price);
    assert Recorded(s, j).copies == t.copies[j := Recorded(s, j).copies[j]];
    LeadsThenBy(s, t, Insert(j, true, true), Recorded(s, j), price);
  }

  lemma CounterRaised(s: State, j: nat, price: nat)
    requires CopyAt(s, j, Queued) && s.copies[j].event.call < |s.calls|
    ensures Leads(Recorded(s, j), Delivered(s, j), price)
  {
    var t, u := Recorded(s, j), Delivered(s, j);
    var v := DoIncr(t, j, true, true);
    LeadsBy(t, Incr(j, true, true), v, price);
    assert u.copies == v.copies[j := u.copies[j]];
    LeadsThenBy(t, v, Ttl(j, true), u, price);
  }

  lemma OneDelivery(s: State, j: nat, price: nat)
    requires CopyAt(s, j, Queued) && s.copies[j].event.call < |s.calls|
    ensures Leads(s, Delivered(s, j), price)
  {
    RowWritten(s, j, price);
    CounterRaised(s, j, price);
    LeadsOn(s, Recorded(s, j), Delivered(s, j), price);
  }

  /** What a delivery adds to the counter of the current month. */
  lemma DeliveryCounts(s: State, j: nat, who: Who)
    requires CopyAt(s, j, Queued) && s.copies[j].event.call < |s.calls|
    requires s.copies[j].event.who == who && Month(s.copies[j].event.at) == Month(s.now)
    ensures var t := Delivered(s, j);
            && EffectiveLimit(t, who) == EffectiveLimit(s, who)
            && SpentNow(t, who) == SpentNow(s, who) + s.copies[j].event.cost
            && Rates(t, who) == Rates(s, who)
  {
  }
}
