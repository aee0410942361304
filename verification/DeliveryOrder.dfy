/** The order in which a topic delivers its events leaves no trace in either ledger. */
module DeliveryOrder {
  import opened Redis
  import opened Sums
  import opened SpendLoop
  import opened Coherence
  import opened Ledgers

  function Is(e: Event): Event -> int
  {
    (f: Event) => if f == e then 1 else 0
  }

  function EventsOf(copies: seq<Copy>): seq<Event>
  {
    seq(|copies|, i requires 0 <= i < |copies| => copies[i].event)
  }

  /** Every delivery was handled and both its writes took effect. */
  predicate AllHandled(s: State)
  {
    forall j :: 0 <= j < |s.copies| ==> s.copies[j].stage == Handled
  }

  lemma {:induction false} RowsMirror(s: State, run: seq<Label>, w: Event -> int)
    requires Coherent(s) && Valid(s, run) && Sum(s.rows, w) == Sum(s.copies, RowedBy(w))
    ensures Sum(Exec(s, run).rows, w) == Sum(Exec(s, run).copies, RowedBy(w))
    decreases |run|
  {
    if run == [] {
    } else {
      CoherentStep(s, run[0]);
      RowsMirrorStep(s, run[0], w);
      RowsMirror(Apply(s, run[0]), run[1..], w);
    }
  }

  lemma {:induction false} SumIsMultiplicity(events: seq<Event>, e: Event)
    ensures Sum(events, Is(e)) == multiset(events)[e]
  {
    if events == [] {
    } else {
      var k := |events| - 1;
      assert events == events[..k] + [events[k]];
      SumIsMultiplicity(events[..k], e);
    }
  }

  /** A weight over deliveries that looks only at the event is a weight over events. */
  lemma {:induction false} SumOverEvents(copies: seq<Copy>, v: Copy -> int, w: Event -> int)
    requires forall j :: 0 <= j < |copies| ==> v(copies[j]) == w(copies[j].event)
    ensures Sum(copies, v) == Sum(EventsOf(copies), w)
  {
    if copies == [] {
    } else {
      var k := |copies| - 1;
      assert EventsOf(copies)[..k] == EventsOf(copies[..k]);
      forall j | 0 <= j < k ensures v(copies[..k][j]) == w(copies[..k][j].event) {
        assert copies[..k][j] == copies[j];
      }
      SumOverEvents(copies[..k], v, w);
    }
  }

  /** The ledgers of a run that handled everything, in terms of the delivered events alone. */
  lemma HandledLedgers(now: nat, config: Config, run: seq<Label>, who: Who, month: nat)
    requires Valid(Start(now, config), run) && AllHandled(Exec(Start(now, config), run))
    ensures var s := Exec(Start(now, config), run);
            && multiset(s.rows) == multiset(EventsOf(s.copies))
            && (KeptLive(Start(now, config), run, SpendKey(who, month)) ==>
                  Value(s.db, SpendKey(who, month), s.now) == Sum(EventsOf(s.copies), EventIn(who, month)))
  {
    var s := Exec(Start(now, config), run);
    LiveCounterIsComplete(now, config, run, who, month);
    LedgerRun(Start(now, config), run, who, month);
    forall j | 0 <= j < |s.copies| ensures s.copies[j].rowed && s.copies[j].counted {
      assert CopyOk(s.copies[j], s.calls);
    }
    forall e ensures multiset(s.rows)[e] == multiset(EventsOf(s.copies))[e] {
      RowsMirror(Start(now, config), run, Is(e));
      SumOverEvents(s.copies, RowedBy(Is(e)), Is(e));
      SumIsMultiplicity(s.rows, e);
      SumIsMultiplicity(EventsOf(s.copies), e);
    }
    SumOverEvents(s.copies, CountedIn(who, month), EventIn(who, month));
  }

  /** Two runs that handled the same deliveries, in whatever order, partitioning and
      interleaving, end with the same rows and, for keys never found expired, the same
      counters; a repeated event weighs on both ledgers alike. */
  lemma OrderIsIrrelevant(now1: nat, config1: Config, run1: seq<Label>, now2: nat, config2: Config, run2: seq<Label>,
                          who: Who, month: nat)
    requires Valid(Start(now1, config1), run1) && AllHandled(Exec(Start(now1, config1), run1))
    requires Valid(Start(now2, config2), run2) && AllHandled(Exec(Start(now2, config2), run2))
    requires var s, t := Exec(Start(now1, config1), run1), Exec(Start(now2, config2), run2);
             multiset(EventsOf(s.copies)) == multiset(EventsOf(t.copies))
    ensures var s, t := Exec(Start(now1, config1), run1), Exec(Start(now2, config2), run2);
            && multiset(s.rows) == multiset(t.rows)
            && (KeptLive(Start(now1, config1), run1, SpendKey(who, month))
                && KeptLive(Start(now2, config2), run2, SpendKey(who, month)) ==>
                  && Value(s.db, SpendKey(who, month), s.now) == Value(t.db, SpendKey(who, month), t.now)
                  && Value(s.db, SpendKey(who, month), s.now) == Sum(s.rows, EventIn(who, month)))
  {
    var s, t := Exec(Start(now1, config1), run1), Exec(Start(now2, config2), run2);
    HandledLedgers(now1, config1, run1, who, month);
    HandledLedgers(now2, config2, run2, who, month);
    SumPermute(EventsOf(s.copies), EventsOf(t.copies), EventIn(who, month));
    SumPermute(s.rows, EventsOf(s.copies), EventIn(who, month));
  }
}
