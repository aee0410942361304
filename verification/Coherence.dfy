/** What every step keeps about single requests and deliveries. */
module Coherence {
  import opened Options
  import opened Metered
  import opened SpendLoop
  import opened Sums

  /** The request was let through, or was answered from the cache. */
  predicate Passed(c: Call)
  {
    c.stage in {Admitted, Completed, Emitted, Crashed}
  }

  predicate CallOk(c: Call, now: nat)
  {
    && (c.ticket.Some? ==> c.ticket.value.bucket * RATE_WINDOW <= now)
    && (c.ticket.None? ==> c.cost == 0 && c.stage in {Completed, Emitted, Crashed})
    && (c.ticket.Some? && Passed(c) ==>
          && c.ticket.value.n <= RATE_MAX && c.spent < c.limit
          && c.ticket.value.bucket * RATE_WINDOW <= c.readAt <= now)
    && (c.stage == Emitted ==> c.at <= now && (c.ticket.Some? ==> c.readAt <= c.at))
    && (c.countedAt.Some? ==> c.stage == Emitted && c.at <= c.countedAt.value <= now)
  }

  /** A delivery carries the event its request emitted, its row precedes its count, and the
      stage tells which of the two writes have been tried. */
  predicate CopyOk(c: Copy, calls: seq<Call>)
  {
    && c.event.call < |calls|
    && (var call := calls[c.event.call];
        && call.stage == Emitted
        && c.event.who == call.who && c.event.at == call.at
        && c.event.usage == call.usage && c.event.cost == call.cost
        && (c.counted ==> call.countedAt.Some?))
    && (c.counted ==> c.rowed)
    && (c.stage in {Queued, Fetched} ==> !c.rowed)
    && (c.stage == Inserted ==> c.rowed && !c.counted)
    && (c.stage in {Incremented, Handled} ==> c.counted)
  }

  /** An answered request costs what the pricer makes of its usage, any other nothing. */
  predicate PricedOk(c: Call, rate: Pricer)
  {
    c.cost == if c.stage in {Completed, Emitted, Crashed} then rate(c.usage) else 0
  }

  ghost predicate Coherent(s: State)
  {
    && (forall i :: 0 <= i < |s.calls| ==> CallOk(s.calls[i], s.now) && PricedOk(s.calls[i], s.config.rate))
    && (forall j :: 0 <= j < |s.copies| ==> CopyOk(s.copies[j], s.calls))
  }

  /** The request a step rewrites, if any. */
  function CallOf(s: State, l: Label): Option<nat>
    requires Enabled(s, l)
  {
    match l
    case RateTtl(i, _) => Some(i)
    case Limit(i) => Some(i)
    case Spend(i) => Some(i)
    case Fail(i) => Some(i)
    case Complete(i, _) => Some(i)
    case Emit(i, _) => Some(i)
    case Crash(i) => Some(i)
    case Incr(j, true, _) =>
      if s.copies[j].event.call < |s.calls| then Some(s.copies[j].event.call) else None
    case _ => None
  }

  /** A step leaves the requests it does not rewrite alone, and adds one or none. */
  lemma OthersStay(s: State, l: Label)
    requires Enabled(s, l)
    ensures |Apply(s, l).calls| == |s.calls| + if l.Rate? || l.Hit? then 1 else 0
    ensures forall i :: 0 <= i < |s.calls| && CallOf(s, l) != Some(i) ==> Apply(s, l).calls[i] == s.calls[i]
  {
  }

  lemma NewCallOk(s: State, l: Label)
    requires Enabled(s, l) && (l.Rate? || l.Hit?)
    ensures |Apply(s, l).calls| == |s.calls| + 1 && CallOk(Apply(s, l).calls[|s.calls|], s.now)
  {
  }

  lemma RewrittenCallOk(s: State, l: Label)
    requires Enabled(s, l) && !l.Incr? && CallOf(s, l).Some? && CallOk(s.calls[CallOf(s, l).value], s.now)
    ensures CallOf(s, l).value < |Apply(s, l).calls| && CallOk(Apply(s, l).calls[CallOf(s, l).value], s.now)
  {
  }

  lemma OldCallOk(s: State, l: Label, i: nat)
    requires Enabled(s, l) && i < |s.calls| && CallOk(s.calls[i], s.now)
    requires l.Incr? ==> CopyOk(s.copies[l.copy], s.calls)
    ensures CallOk(Apply(s, l).calls[i], Apply(s, l).now)
  {
    if CallOf(s, l) != Some(i) {
      OthersStay(s, l);
    } else if !l.Incr? {
      RewrittenCallOk(s, l);
    }
  }

  lemma CallOkStep(s: State, l: Label, i: nat)
    requires Enabled(s, l) && i < |Apply(s, l).calls|
    requires i < |s.calls| ==> CallOk(s.calls[i], s.now)
    requires l.Incr? ==> CopyOk(s.copies[l.copy], s.calls)
    ensures CallOk(Apply(s, l).calls[i], Apply(s, l).now)
  {
    if i < |s.calls| {
      OldCallOk(s, l, i);
    } else {
      NewCallOk(s, l);
    }
  }

  /** A step keeps a request's identity and ticket, and the event once it is stamped. */
  lemma CallsGrow(s: State, l: Label, i: nat)
    requires Enabled(s, l) && i < |s.calls|
    ensures var t := Apply(s, l);
            && i < |t.calls| && t.calls[i].who == s.calls[i].who && t.calls[i].ticket == s.calls[i].ticket
            && (s.calls[i].stage in {Denied, Emitted, Crashed, Failed} ==>
                  && t.calls[i].stage == s.calls[i].stage && t.calls[i].at == s.calls[i].at
                  && t.calls[i].usage == s.calls[i].usage && t.calls[i].cost == s.calls[i].cost)
            && (s.calls[i].countedAt.Some? ==> t.calls[i].countedAt == s.calls[i].countedAt)
  {
  }

  lemma PricedOkStep(s: State, l: Label, i: nat)
    requires Enabled(s, l) && i < |Apply(s, l).calls|
    requires i < |s.calls| ==> PricedOk(s.calls[i], s.config.rate)
    ensures PricedOk(Apply(s, l).calls[i], Apply(s, l).config.rate)
  {
  }

  lemma CopyOkStep(s: State, l: Label, j: nat)
    requires Enabled(s, l) && j < |Apply(s, l).copies|
    requires j < |s.copies| ==> CopyOk(s.copies[j], s.calls)
    requires l.Redeliver? ==> CopyOk(s.copies[l.copy], s.calls)
    ensures CopyOk(Apply(s, l).copies[j], Apply(s, l).calls)
  {
    if j < |s.copies| {
      CallsGrow(s, l, s.copies[j].event.call);
    }
  }

  lemma CoherentStep(s: State, l: Label)
    requires Coherent(s) && Enabled(s, l)
    ensures Coherent(Apply(s, l))
  {
    forall i | 0 <= i < |Apply(s, l).calls|
      ensures CallOk(Apply(s, l).calls[i], Apply(s, l).now)
      ensures PricedOk(Apply(s, l).calls[i], Apply(s, l).config.rate)
    {
      assert i < |s.calls| ==> CallOk(s.calls[i], s.now);
      CallOkStep(s, l, i);
      PricedOkStep(s, l, i);
    }
    forall j | 0 <= j < |Apply(s, l).copies| ensures CopyOk(Apply(s, l).copies[j], Apply(s, l).calls) {
      assert j < |s.copies| ==> CopyOk(s.copies[j], s.calls);
      CopyOkStep(s, l, j);
    }
  }

  function CopyOf(s: State, l: Label): Option<nat>
    requires Enabled(s, l)
  {
    match l
    case Drop(j) => Some(j)
    case Fetch(j) => Some(j)
    case Insert(j, _, _) => Some(j)
    case Incr(j, _, _) => Some(j)
    case Ttl(j, _) => Some(j)
    case _ => None
  }

  /** How a step moves a ledger kept over requests: by the one record it adds or rewrites. */
  lemma CallSum(s: State, l: Label, w: Call -> int)
    requires Enabled(s, l)
    ensures var t := Apply(s, l);
            Sum(t.calls, w) == Sum(s.calls, w) +
              if l.Rate? || l.Hit? then w(t.calls[|s.calls|])
              else if CallOf(s, l).Some? then w(t.calls[CallOf(s, l).value]) - w(s.calls[CallOf(s, l).value])
              else 0
  {
    var t := Apply(s, l);
    if l.Rate? || l.Hit? {
      SumAppend(s.calls, t.calls[|s.calls|], w);
    } else if CallOf(s, l).Some? {
      var i := CallOf(s, l).value;
      assert t.calls == s.calls[i := t.calls[i]];
      SumUpdate(s.calls, i, t.calls[i], w);
    }
  }

  lemma CopySum(s: State, l: Label, w: Copy -> int)
    requires Enabled(s, l)
    ensures var t := Apply(s, l);
            Sum(t.copies, w) == Sum(s.copies, w) +
              if |t.copies| > |s.copies| then w(t.copies[|s.copies|])
              else if CopyOf(s, l).Some? then w(t.copies[CopyOf(s, l).value]) - w(s.copies[CopyOf(s, l).value])
              else 0
  {
    var t := Apply(s, l);
    if |t.copies| > |s.copies| {
      assert t.copies == s.copies + [t.copies[|s.copies|]];
      SumAppend(s.copies, t.copies[|s.copies|], w);
    } else if CopyOf(s, l).Some? {
      var j := CopyOf(s, l).value;
      assert t.copies == s.copies[j := t.copies[j]];
      SumUpdate(s.copies, j, t.copies[j], w);
    }
  }

  lemma {:induction false} CoherentRun(s: State, run: seq<Label>)
    requires Coherent(s) && Valid(s, run)
    ensures Coherent(Exec(s, run))
    decreases |run|
  {
    if run == [] {
    } else {
      CoherentStep(s, run[0]);
      CoherentRun(Apply(s, run[0]), run[1..]);
    }
  }
}
