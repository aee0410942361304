/** The Redis spend counter against the ClickHouse rows, and where every micro of a run is. */
module Ledgers {
  import opened Options
  import opened Redis
  import opened Calendar
  import opened Sums
  import opened SpendLoop
  import opened Coherence

  function EventIn(who: Who, month: nat): Event -> int
  {
    (e: Event) => if e.who == who && Month(e.at) == month then e.cost else 0
  }

  /** The part of a weight over events that falls on deliveries whose insert took effect. */
  function RowedBy(w: Event -> int): Copy -> int
  {
    (c: Copy) => if c.rowed then w(c.event) else 0
  }

  function CountedIn(who: Who, month: nat): Copy -> int
  {
    (c: Copy) => if c.counted then EventIn(who, month)(c.event) else 0
  }

  function Unmatched(who: Who, month: nat): Copy -> int
  {
    (c: Copy) => if c.rowed && !c.counted then EventIn(who, month)(c.event) else 0
  }

  /** When a month's spend keys may first expire. */
  function KeptUntil(month: nat): nat
  {
    MonthStart(month) + SPEND_TTL
  }

  /** A month's key holds no negative sum and no expiry that the month could live to see. */
  predicate SpendKeyOk(s: State, who: Who, month: nat)
  {
    var key := SpendKey(who, month);
    key in s.db ==>
      && 0 <= s.db[key].value
      && (s.db[key].expiry.Some? ==> KeptUntil(month) <= s.db[key].expiry.value)
  }

  ghost predicate LedgerInv(s: State, who: Who, month: nat)
  {
    var key := SpendKey(who, month);
    var counted := Sum(s.copies, CountedIn(who, month));
    && 0 <= Value(s.db, key, s.now) <= counted
    && (s.now < KeptUntil(month) ==> Value(s.db, key, s.now) == counted)
    && SpendKeyOk(s, who, month)
    && Sum(s.rows, EventIn(who, month)) == Sum(s.copies, RowedBy(EventIn(who, month)))
  }

  /** Only an effective increment moves the counted sum. */
  lemma CountedInStep(s: State, l: Label, who: Who, month: nat)
    requires Coherent(s) && Enabled(s, l)
    ensures Sum(Apply(s, l).copies, CountedIn(who, month)) == Sum(s.copies, CountedIn(who, month)) +
              if l.Incr? && l.effect then EventIn(who, month)(s.copies[l.copy].event) else 0
  {
    CopySum(s, l, CountedIn(who, month));
    if CopyOf(s, l).Some? {
      assert CopyOk(s.copies[CopyOf(s, l).value], s.calls);
    }
  }

  /** Only increments and expiries write spend keys. */
  lemma SpendKeyUntouched(s: State, l: Label, key: Key)
    requires Enabled(s, l) && !l.Incr? && !l.Ttl? && key.SpendKey?
    ensures key in Apply(s, l).db <==> key in s.db
    ensures key in s.db ==> Apply(s, l).db[key] == s.db[key]
  {
  }

  /** The counter moves with the counted sum, or restarts from less after an expiry. */
  lemma CounterStep(s: State, l: Label, who: Who, month: nat)
    requires SpendKeyOk(s, who, month) && Enabled(s, l)
    requires CopyOf(s, l).Some? ==> s.copies[CopyOf(s, l).value].event.at <= s.now
    ensures var t := Apply(s, l);
            var key := SpendKey(who, month);
            var added := if l.Incr? && l.effect then EventIn(who, month)(s.copies[l.copy].event) else 0;
            && SpendKeyOk(t, who, month)
            && 0 <= Value(t.db, key, t.now) <= Value(s.db, key, s.now) + added
            && (t.now < KeptUntil(month) ==> Value(t.db, key, t.now) == Value(s.db, key, s.now) + added)
  {
    if !l.Incr? && !l.Ttl? {
      SpendKeyUntouched(s, l, SpendKey(who, month));
    }
  }

  lemma CopyRowed(s: State, l: Label, w: Event -> int)
    requires Enabled(s, l) && CopyOf(s, l).Some? && CopyOk(s.copies[CopyOf(s, l).value], s.calls)
    ensures CopyOf(s, l).value < |Apply(s, l).copies|
    ensures var j := CopyOf(s, l).value;
            RowedBy(w)(Apply(s, l).copies[j]) == RowedBy(w)(s.copies[j]) +
              if l.Insert? && l.effect then w(s.copies[j].event) else 0
  {
  }

  lemma CopiesRowed(s: State, l: Label, w: Event -> int)
    requires Coherent(s) && Enabled(s, l)
    ensures Sum(Apply(s, l).copies, RowedBy(w)) == Sum(s.copies, RowedBy(w)) +
              if l.Insert? && l.effect then w(s.copies[l.copy].event) else 0
  {
    CopySum(s, l, RowedBy(w));
    if CopyOf(s, l).Some? {
      assert CopyOk(s.copies[CopyOf(s, l).value], s.calls);
      CopyRowed(s, l, w);
    }
  }

  lemma RowsGrow(s: State, l: Label, w: Event -> int)
    requires Enabled(s, l)
    ensures Sum(Apply(s, l).rows, w) == Sum(s.rows, w) +
              if l.Insert? && l.effect then w(s.copies[l.copy].event) else 0
  {
    if l.Insert? && l.effect {
      SumAppend(s.rows, s.copies[l.copy].event, w);
    }
  }

  /** Any weight over the rows is that weight over the deliveries whose insert took effect. */
  lemma RowsMirrorStep(s: State, l: Label, w: Event -> int)
    requires Coherent(s) && Enabled(s, l) && Sum(s.rows, w) == Sum(s.copies, RowedBy(w))
    ensures Sum(Apply(s, l).rows, w) == Sum(Apply(s, l).copies, RowedBy(w))
  {
    CopiesRowed(s, l, w);
    RowsGrow(s, l, w);
  }

  lemma LedgerStep(s: State, l: Label, who: Who, month: nat)
    requires Coherent(s) && LedgerInv(s, who, month) && Enabled(s, l)
    ensures LedgerInv(Apply(s, l), who, month)
  {
    if CopyOf(s, l).Some? {
      var c := s.copies[CopyOf(s, l).value];
      assert CopyOk(c, s.calls) && CallOk(s.calls[c.event.call], s.now);
    }
    CountedInStep(s, l, who, month);
    CounterStep(s, l, who, month);
    RowsMirrorStep(s, l, EventIn(who, month));
  }

  lemma {:induction false} LedgerRun(s: State, run: seq<Label>, who: Who, month: nat)
    requires Coherent(s) && LedgerInv(s, who, month) && Valid(s, run)
    ensures Coherent(Exec(s, run)) && LedgerInv(Exec(s, run), who, month)
    decreases |run|
  {
    if run == [] {
    } else {
      CoherentStep(s, run[0]);
      LedgerStep(s, run[0], who, month);
      LedgerRun(Apply(s, run[0]), run[1..], who, month);
    }
  }

  /** The key is never found expired: in every state of the run it is live if it exists. */
  predicate KeptLive(s: State, run: seq<Label>, key: Key)
    requires Valid(s, run)
    decreases |run|
  {
    && (key in s.db ==> Live(s.db, key, s.now))
    && (run == [] || KeptLive(Apply(s, run[0]), run[1..], key))
  }

  /** Between two states in which the key is not expired, the counter moves by the increment. */
  lemma LiveStep(s: State, l: Label, who: Who, month: nat)
    requires Enabled(s, l)
    requires var key := SpendKey(who, month);
             && (key in s.db ==> Live(s.db, key, s.now))
             && (key in Apply(s, l).db ==> Live(Apply(s, l).db, key, Apply(s, l).now))
    ensures var key := SpendKey(who, month);
            Value(Apply(s, l).db, key, Apply(s, l).now) == Value(s.db, key, s.now) +
              if l.Incr? && l.effect then EventIn(who, month)(s.copies[l.copy].event) else 0
  {
  }

  lemma {:induction false} LiveRun(s: State, run: seq<Label>, who: Who, month: nat)
    requires Coherent(s) && Valid(s, run) && KeptLive(s, run, SpendKey(who, month))
    requires Value(s.db, SpendKey(who, month), s.now) == Sum(s.copies, CountedIn(who, month))
    ensures var t := Exec(s, run); Value(t.db, SpendKey(who, month), t.now) == Sum(t.copies, CountedIn(who, month))
    decreases |run|
  {
    if run == [] {
    } else {
      var t := Apply(s, run[0]);
      assert KeptLive(t, run[1..], SpendKey(who, month));
      CoherentStep(s, run[0]);
      LiveStep(s, run[0], who, month);
      CountedInStep(s, run[0], who, month);
      LiveRun(t, run[1..], who, month);
    }
  }

  lemma {:induction false} TimeGrows(s: State, run: seq<Label>)
    requires Valid(s, run)
    ensures s.now <= Exec(s, run).now
    decreases |run|
  {
    if run == [] {
    } else {
      TimeGrows(Apply(s, run[0]), run[1..]);
    }
  }

  lemma {:induction false} EarlyKeysAreLive(s: State, run: seq<Label>, who: Who, month: nat)
    requires Coherent(s) && LedgerInv(s, who, month) && Valid(s, run)
    requires Exec(s, run).now < KeptUntil(month)
    ensures KeptLive(s, run, SpendKey(who, month))
    decreases |run|
  {
    TimeGrows(s, run);
    if run == [] {
    } else {
      CoherentStep(s, run[0]);
      LedgerStep(s, run[0], who, month);
      EarlyKeysAreLive(Apply(s, run[0]), run[1..], who, month);
    }
  }

  /** Live counters are complete: in every run that never finds the key expired, the counter
      is the sum of every increment ever applied to it. That is so at least until 45 days
      after the month has begun, when the month is over. */
  lemma LiveCounterIsComplete(now: nat, config: Config, run: seq<Label>, who: Who, month: nat)
    requires Valid(Start(now, config), run)
    ensures var s := Exec(Start(now, config), run);
            KeptLive(Start(now, config), run, SpendKey(who, month)) ==>
              Value(s.db, SpendKey(who, month), s.now) == Sum(s.copies, CountedIn(who, month))
    ensures MonthStart(month + 1) < KeptUntil(month)
    ensures Exec(Start(now, config), run).now < KeptUntil(month) ==>
              KeptLive(Start(now, config), run, SpendKey(who, month))
  {
    if KeptLive(Start(now, config), run, SpendKey(who, month)) {
      LiveRun(Start(now, config), run, who, month);
    }
    if Exec(Start(now, config), run).now < KeptUntil(month) {
      EarlyKeysAreLive(Start(now, config), run, who, month);
    }
  }

  /** Two ledgers: at every step, whatever failed, was repeated or has expired, the counter
      is at most the rows' sum; if the key was never found expired, the gap is exactly the
      rows whose increment did not take effect. */
  lemma CounterNeverExceedsRows(now: nat, config: Config, run: seq<Label>, who: Who, month: nat)
    requires Valid(Start(now, config), run)
    ensures var s := Exec(Start(now, config), run);
            var counter := Value(s.db, SpendKey(who, month), s.now);
            var total := Sum(s.rows, EventIn(who, month));
            && 0 <= counter <= total
            && (KeptLive(Start(now, config), run, SpendKey(who, month)) ==>
                  total - counter == Sum(s.copies, Unmatched(who, month)))
  {
    var s := Exec(Start(now, config), run);
    LedgerRun(Start(now, config), run, who, month);
    LiveCounterIsComplete(now, config, run, who, month);
    var counted, rowed, open := CountedIn(who, month), RowedBy(EventIn(who, month)), Unmatched(who, month);
    forall j | 0 <= j < |s.copies|
      ensures rowed(s.copies[j]) == Plus(counted, 1, open)(s.copies[j]) && 0 <= open(s.copies[j])
    {
      assert CopyOk(s.copies[j], s.calls);
    }
    SumLe(s.copies, rowed, Plus(counted, 1, open));
    SumLe(s.copies, Plus(counted, 1, open), rowed);
    SumPlus(s.copies, counted, 1, open);
    SumLe(s.copies, counted, rowed);
  }

  // ---- Conservation -------------------------------------------------------------------

  function Incurred(): Call -> int
  {
    (c: Call) => if c.stage in {Completed, Emitted, Crashed} then c.cost else 0
  }

  function NotYetEmitted(): Call -> int
  {
    (c: Call) => if c.stage == Completed then c.cost else 0
  }

  function NeverPublished(): Call -> int
  {
    (c: Call) => if c.stage == Crashed || (c.stage == Emitted && !c.published) then c.cost else 0
  }

  function Repeated(): Copy -> int
  {
    (c: Copy) => if c.extra then c.event.cost else 0
  }

  function InFlight(): Copy -> int
  {
    (c: Copy) => if c.stage in {Queued, Fetched} then c.event.cost else 0
  }

  function Lost(): Copy -> int
  {
    (c: Copy) => if c.stage == Abandoned && !c.rowed then c.event.cost else 0
  }

  function Cost(): Event -> int
  {
    (e: Event) => e.cost
  }

  ghost predicate Balanced(s: State)
  {
    Sum(s.calls, Incurred()) + Sum(s.copies, Repeated())
    == Sum(s.rows, Cost())
       + Sum(s.calls, NotYetEmitted()) + Sum(s.copies, InFlight())
       + Sum(s.calls, NeverPublished()) + Sum(s.copies, Lost())
  }

  function HandedOver(): Call -> int
  {
    Plus(Plus(Incurred(), -1, NotYetEmitted()), -1, NeverPublished())
  }

  function CallSide(s: State): int
  {
    Sum(s.calls, HandedOver())
  }

  lemma CallSideParts(s: State)
    ensures CallSide(s) == Sum(s.calls, Incurred()) - Sum(s.calls, NotYetEmitted()) - Sum(s.calls, NeverPublished())
  {
    SumPlus(s.calls, Plus(Incurred(), -1, NotYetEmitted()), -1, NeverPublished());
    SumPlus(s.calls, Incurred(), -1, NotYetEmitted());
  }

  function CopySide(s: State): int
  {
    Sum(s.copies, InFlight()) + Sum(s.copies, Lost()) - Sum(s.copies, Repeated())
  }

  lemma HandedOverStep(s: State, l: Label, i: nat)
    requires Enabled(s, l) && CallOf(s, l) == Some(i) && i < |s.calls|
    ensures i < |Apply(s, l).calls|
    ensures HandedOver()(Apply(s, l).calls[i]) == HandedOver()(s.calls[i]) +
              if l.Emit? && l.delivered then s.calls[i].cost else 0
  {
  }

  /** Only a delivered publication hands a cost over to the broker. */
  lemma CallSideStep(s: State, l: Label)
    requires Enabled(s, l)
    ensures CallSide(Apply(s, l)) == CallSide(s) +
              if l.Emit? && l.delivered then s.calls[l.call].cost else 0
  {
    CallSum(s, l, HandedOver());
    if CallOf(s, l).Some? {
      HandedOverStep(s, l, CallOf(s, l).value);
    }
  }

  /** Only an effective insert moves a cost from the deliveries to the rows. */
  lemma CopySideStep(s: State, l: Label)
    requires Coherent(s) && Enabled(s, l)
    ensures CopySide(Apply(s, l)) == CopySide(s)
              + (if l.Emit? && l.delivered then s.calls[l.call].cost else 0)
              - (if l.Insert? && l.effect then s.copies[l.copy].event.cost else 0)
  {
    CopySum(s, l, Repeated());
    CopySum(s, l, InFlight());
    CopySum(s, l, Lost());
    if CopyOf(s, l).Some? {
      assert CopyOk(s.copies[CopyOf(s, l).value], s.calls);
    }
  }

  lemma BalancedStep(s: State, l: Label)
    requires Coherent(s) && Balanced(s) && Enabled(s, l)
    ensures Balanced(Apply(s, l))
  {
    CallSideParts(s);
    CallSideParts(Apply(s, l));
    CallSideStep(s, l);
    CopySideStep(s, l);
    if l.Insert? && l.effect {
      SumAppend(s.rows, s.copies[l.copy].event, Cost());
    }
  }

  lemma {:induction false} BalancedRun(s: State, run: seq<Label>)
    requires Coherent(s) && Balanced(s) && Valid(s, run)
    ensures Balanced(Exec(s, run))
    decreases |run|
  {
    if run == [] {
    } else {
      CoherentStep(s, run[0]);
      BalancedStep(s, run[0]);
      BalancedRun(Apply(s, run[0]), run[1..]);
    }
  }

  /** Conservation: at every step of every run, what the provider calls cost plus what repeated
      deliveries repeat is what was metered, what is still on its way and what was lost. */
  lemma CostIsConserved(now: nat, config: Config, run: seq<Label>)
    requires Valid(Start(now, config), run)
    ensures var s := Exec(Start(now, config), run);
            Sum(s.calls, Incurred()) + Sum(s.copies, Repeated())
            == Sum(s.rows, Cost())
               + Sum(s.calls, NotYetEmitted()) + Sum(s.copies, InFlight())
               + Sum(s.calls, NeverPublished()) + Sum(s.copies, Lost())
  {
    BalancedRun(Start(now, config), run);
  }

  /** After the EXPIRE of a handled delivery its key lives exactly 45 days, if not written. */
  lemma SpendKeyLives45Days(s: State, j: nat, t: nat)
    requires CopyAt(s, j, Incremented) && Live(s.db, EventKey(s.copies[j].event), s.now)
    ensures Live(Apply(s, Ttl(j, true)).db, EventKey(s.copies[j].event), t) <==> t < s.now + 45 * 24 * 60 * 60
  {
  }
}
