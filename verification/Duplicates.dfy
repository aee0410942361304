/** Nothing in the loop deduplicates: what a repeated delivery does to the ledgers. */
module Duplicates {
  import opened Metered
  import opened Calendar
  import opened Sums
  import opened SpendLoop
  import opened Coherence
  import opened Ledgers
  import opened DeliveryOrder
  import opened Runs

  /** The number of rows of an event is the number of its deliveries whose insert took effect:
      one exactly if one did, whatever the event's identity. */
  lemma RowsPerEvent(now: nat, config: Config, run: seq<Label>, e: Event)
    requires Valid(Start(now, config), run)
    ensures var s := Exec(Start(now, config), run);
            multiset(s.rows)[e] == Sum(s.copies, RowedBy(Is(e)))
  {
    RowsMirror(Start(now, config), run, Is(e));
    SumIsMultiplicity(Exec(Start(now, config), run).rows, e);
  }

  predicate RepeatsNow(s: State, l: Label, e: Event)
    requires Enabled(s, l)
  {
    l.Redeliver? && s.copies[l.copy].event == e
  }

  /** How often the broker repeats a delivery of the event. */
  function Repeats(s: State, run: seq<Label>, e: Event): nat
    requires Valid(s, run)
    decreases |run|
  {
    if run == [] then 0
    else (if RepeatsNow(s, run[0], e) then 1 else 0) + Repeats(Apply(s, run[0]), run[1..], e)
  }

  function DeliveryOf(e: Event): Copy -> int
  {
    (c: Copy) => if c.event == e then 1 else 0
  }

  /** An event is stamped once, so its first delivery is not one of many. */
  lemma FirstDelivery(s: State, l: Label, e: Event)
    requires Coherent(s) && Enabled(s, l) && l.Emit? && l.delivered
    requires Apply(s, l).copies[|s.copies|].event == e
    ensures Sum(s.copies, DeliveryOf(e)) == 0
  {
    forall j | 0 <= j < |s.copies| ensures DeliveryOf(e)(s.copies[j]) == 0 {
      assert CopyOk(s.copies[j], s.calls);
    }
    SumZero(s.copies, DeliveryOf(e));
  }

  /** Apart from the first one, only the broker's repeats add deliveries of an event. */
  lemma DeliveriesStep(s: State, l: Label, e: Event)
    requires Coherent(s) && Enabled(s, l)
    ensures var n, m := Sum(s.copies, DeliveryOf(e)), Sum(Apply(s, l).copies, DeliveryOf(e));
            if RepeatsNow(s, l, e) then m == n + 1 else m == n || (n == 0 && m == 1)
  {
    CopySum(s, l, DeliveryOf(e));
    if l.Emit? && l.delivered && Apply(s, l).copies[|s.copies|].event == e {
      FirstDelivery(s, l, e);
    }
  }

  lemma {:induction false} DeliveriesRun(s: State, run: seq<Label>, e: Event)
    requires Coherent(s) && Valid(s, run) && 0 <= Sum(s.copies, DeliveryOf(e))
    ensures var n := Sum(s.copies, DeliveryOf(e));
            Sum(Exec(s, run).copies, DeliveryOf(e)) <= (if n == 0 then 1 else n) + Repeats(s, run, e)
    decreases |run|
  {
    if run == [] {
    } else {
      CoherentStep(s, run[0]);
      DeliveriesStep(s, run[0], e);
      DeliveriesRun(Apply(s, run[0]), run[1..], e);
    }
  }

  /** What holds of the promised deduplication: an event has at most one row more than the
      broker repeats it, so at most one if the broker does not repeat it. */
  lemma RowsAreBoundedByRepeats(now: nat, config: Config, run: seq<Label>, e: Event)
    requires Valid(Start(now, config), run)
    ensures multiset(Exec(Start(now, config), run).rows)[e] <= 1 + Repeats(Start(now, config), run, e)
  {
    var s := Exec(Start(now, config), run);
    RowsPerEvent(now, config, run, e);
    DeliveriesRun(Start(now, config), run, e);
    SumLe(s.copies, RowedBy(Is(e)), DeliveryOf(e));
  }

  /** One more request, its event queued twice. */
  function TwiceQueued(s: State, who: Who, usage: Usage): State
  {
    var t := AfterLet(s, who, usage);
    t.(copies := t.copies + [Copy(EventOf(s, who, usage), true, Queued, false, false)])
  }

  lemma TwiceQueuedReached(s: State, who: Who, usage: Usage)
    requires 0 <= Rates(s, who) < RATE_MAX && SpentNow(s, who) < EffectiveLimit(s, who)
    ensures Leads(s, TwiceQueued(s, who, usage), s.config.rate(usage))
    ensures SpentNow(TwiceQueued(s, who, usage), who) == SpentNow(s, who)
  {
    var t := AfterLet(s, who, usage);
    OneLet(s, who, usage, s.config.rate(usage));
    OtherKeysStay(s, who, LetEmitted(s, who, usage));
    LeadsThenBy(s, t, Redeliver(|s.copies|), TwiceQueued(s, who, usage), s.config.rate(usage));
  }

  /** Both deliveries of an event, one after the other. */
  lemma BothDelivered(s: State, j: nat, who: Who, price: nat) returns (t: State)
    requires CopyAt(s, j, Queued) && CopyAt(s, j + 1, Queued) && s.copies[j].event == s.copies[j + 1].event
    requires var e := s.copies[j].event; e.call < |s.calls| && e.who == who && Month(e.at) == Month(s.now)
    ensures Leads(s, t, price) && t == Delivered(Delivered(s, j), j + 1)
    ensures SpentNow(t, who) == SpentNow(s, who) + 2 * s.copies[j].event.cost
  {
    var u := Delivered(s, j);
    t := Delivered(u, j + 1);
    OneDelivery(s, j, price);
    OneDelivery(u, j + 1, price);
    LeadsOn(s, u, t, price);
    DeliveryCounts(s, j, who);
    DeliveryCounts(u, j + 1, who);
  }

  /** Wherever a request can be let through, some run emits its event once and ends with two
      rows of it and twice its cost on the counter. */
  lemma RepeatsAreMeteredTwice(s: State, who: Who, usage: Usage) returns (t: State)
    requires 0 <= Rates(s, who) < RATE_MAX && SpentNow(s, who) < EffectiveLimit(s, who)
    ensures Leads(s, t, s.config.rate(usage))
    ensures |t.calls| == |s.calls| + 1 && t.calls[|s.calls|].stage == Emitted
    ensures var e := EventOf(s, who, usage);
            && t.rows == s.rows + [e, e]
            && t.copies == s.copies + [Copy(e, false, Handled, true, true), Copy(e, true, Handled, true, true)]
    ensures SpentNow(t, who) == SpentNow(s, who) + 2 * s.config.rate(usage)
  {
    var u := TwiceQueued(s, who, usage);
    TwiceQueuedReached(s, who, usage);
    t := BothDelivered(u, |s.copies|, who, s.config.rate(usage));
    LeadsOn(s, u, t, s.config.rate(usage));
  }
}
