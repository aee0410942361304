/** When an event occurred: its time is that of its emission, not of the decision before it. */
module Emission {
  import opened Options
  import opened Metered
  import opened Calendar
  import opened Sums
  import opened SpendLoop
  import opened Coherence
  import opened Ledgers
  import opened DeliveryOrder
  import opened Duplicates
  import opened Overspend
  import opened Runs

  /** The request is emitted, at `at`. */
  predicate EmittedAt(s: State, i: nat, at: nat)
  {
    CallAt(s, i, Emitted) && s.calls[i].at == at
  }

  lemma EmitStamps(s: State, i: nat, delivered: bool)
    requires CallAt(s, i, Completed)
    ensures EmittedAt(Apply(s, Emit(i, delivered)), i, s.now)
  {
  }

  lemma {:induction false} StampStays(s: State, run: seq<Label>, i: nat, at: nat)
    requires Coherent(s) && Valid(s, run) && EmittedAt(s, i, at)
    ensures Coherent(Exec(s, run)) && EmittedAt(Exec(s, run), i, at)
    decreases |run|
  {
    if run == [] {
    } else {
      CallsGrow(s, run[0], i);
      CoherentStep(s, run[0]);
      StampStays(Apply(s, run[0]), run[1..], i, at);
    }
  }

  /** A row is the event of some delivery. */
  lemma RowHasDelivery(now: nat, config: Config, run: seq<Label>, e: Event) returns (j: nat)
    requires Valid(Start(now, config), run) && e in Exec(Start(now, config), run).rows
    ensures j < |Exec(Start(now, config), run).copies| && Exec(Start(now, config), run).copies[j].event == e
  {
    var s := Exec(Start(now, config), run);
    RowsPerEvent(now, config, run, e);
    assert multiset(s.rows)[e] > 0;
    if forall j :: 0 <= j < |s.copies| ==> s.copies[j].event != e {
      SumZero(s.copies, RowedBy(Is(e)));
    }
    j :| 0 <= j < |s.copies| && s.copies[j].event == e;
  }

  /** In every run, the request, every delivery and every row of an event bear the time of the
      step that emitted it. */
  lemma EventsBearTheirEmission(now: nat, config: Config, run: seq<Label>, k: nat, i: nat, delivered: bool)
    requires Valid(Start(now, config), run) && k < |run| && run[k] == Emit(i, delivered)
    ensures Valid(Start(now, config), run[..k])
    ensures var s, at := Exec(Start(now, config), run), Exec(Start(now, config), run[..k]).now;
            && EmittedAt(s, i, at)
            && (forall j :: 0 <= j < |s.copies| && s.copies[j].event.call == i ==> s.copies[j].event.at == at)
            && (forall e :: e in s.rows && e.call == i ==> e.at == at)
  {
    var start := Start(now, config);
    assert run == run[..k] + run[k..];
    Split(start, run[..k], run[k..]);
    var u := Exec(start, run[..k]);
    CoherentRun(start, run[..k]);
    CoherentStep(u, run[k]);
    EmitStamps(u, i, delivered);
    assert run[k..][1..] == run[k + 1..];
    StampStays(Apply(u, run[k]), run[k + 1..], i, u.now);
    var s := Exec(start, run);
    forall j | 0 <= j < |s.copies| && s.copies[j].event.call == i ensures s.copies[j].event.at == u.now {
      assert CopyOk(s.copies[j], s.calls);
    }
    forall e | e in s.rows && e.call == i ensures e.at == u.now {
      var j := RowHasDelivery(now, config, run, e);
    }
  }

  /** A cache hit is metered as its customer's, with its model, no tokens and no cost. */
  lemma HitsAreMeteredFree(s: State, who: Who, model: string) returns (t: State)
    ensures Leads(s, t, 0) && t.db == s.db && |t.calls| == |s.calls| + 1
    ensures t.calls[|s.calls|].ticket == None && t.calls[|s.calls|].cost == 0
    ensures var e := Event(|s.calls|, who, Usage(model, 0, 0), 0, s.now);
            t.copies == s.copies + [Copy(e, false, Queued, false, false)]
  {
    var u := Apply(s, Hit(who, model));
    t := Apply(u, Emit(|s.calls|, true));
    LeadsBy(s, Hit(who, model), u, 0);
    LeadsThenBy(s, u, Emit(|s.calls|, true), t, 0);
  }

  // ---- Over the rollover ----------------------------------------------------------------

  function NextMonth(s: State): nat
  {
    MonthStart(Month(s.now) + 1)
  }

  /** s with a request decided and answered now, at the start of next month. */
  function Waited(s: State, who: Who, usage: Usage): State
  {
    AtStage(s, who, LetCompleted(s, who, usage)).(now := NextMonth(s))
  }

  lemma WaitedReached(s: State, who: Who, usage: Usage, price: nat)
    requires 0 <= Rates(s, who) < RATE_MAX && SpentNow(s, who) < EffectiveLimit(s, who)
    requires s.config.rate(usage) <= price
    ensures Leads(s, Waited(s, who, usage), price)
  {
    var i := |s.calls|;
    var s0, s1 := AtStage(s, who, LetAdmitted(s, who)), AtStage(s, who, LetCompleted(s, who, usage));
    BudgetCheck(s, who, price);
    assert s0.calls[i := LetCompleted(s, who, usage)] == s1.calls;
    LeadsThenBy(s, s0, Complete(i, usage), s1, price);
    LeadsThenBy(s, s1, Tick(NextMonth(s) - s.now), Waited(s, who, usage), price);
  }

  /** The request decided last month, its event emitted now and in the topic. */
  function EmittedLate(s: State, who: Who, usage: Usage): State
  {
    assert CallAt(Waited(s, who, usage), |s.calls|, Completed);
    Apply(Waited(s, who, usage), Emit(|s.calls|, true))
  }

  lemma EmittedLateFacts(s: State, who: Who, usage: Usage)
    ensures var t, i := EmittedLate(s, who, usage), |s.calls|;
            && |t.calls| == i + 1 && t.calls[..i] == s.calls && t.rows == s.rows && t.now == NextMonth(s)
            && t.calls[i].who == who && t.calls[i].cost == s.config.rate(usage)
            && EmittedAt(t, i, NextMonth(s)) && t.calls[i].readAt == s.now
            && CopyAt(t, |s.copies|, Queued)
            && t.copies[|s.copies|].event == Event(i, who, usage, s.config.rate(usage), NextMonth(s))
  {
  }

  lemma NextMonthBegins(s: State)
    ensures Month(NextMonth(s)) == Month(s.now) + 1
  {
    MonthStartMonotone(Month(s.now) + 1, Month(s.now) + 2);
    MonthUnique(Month(s.now) + 1, NextMonth(s));
  }

  /** Wherever a request can be let through, some run lets it through on this month's counter and
      emits its event in the next: row and bill then belong to the next month. */
  lemma LateEmissionIsBilledLate(s: State, who: Who, usage: Usage) returns (t: State)
    requires 0 <= Rates(s, who) < RATE_MAX && SpentNow(s, who) < EffectiveLimit(s, who)
    ensures Leads(s, t, s.config.rate(usage)) && |t.calls| == |s.calls| + 1
    ensures var c := t.calls[|s.calls|];
            && c.who == who && Month(c.readAt) == Month(s.now) && Month(c.at) == Month(s.now) + 1
            && c.cost == s.config.rate(usage)
            && BilledTo(c, who, Month(s.now) + 1) && !BilledTo(c, who, Month(s.now))
    ensures |t.rows| == |s.rows| + 1
    ensures var e := t.rows[|s.rows|];
            e.call == |s.calls| && e.cost == s.config.rate(usage) && Month(e.at) == Month(s.now) + 1
  {
    var price := s.config.rate(usage);
    var u := EmittedLate(s, who, usage);
    WaitedReached(s, who, usage, price);
    LeadsThenBy(s, Waited(s, who, usage), Emit(|s.calls|, true), u, price);
    EmittedLateFacts(s, who, usage);
    NextMonthBegins(s);
    t := Delivered(u, |s.copies|);
    OneDelivery(u, |s.copies|, price);
    LeadsOn(s, u, t, price);
  }
}
