/** The services' own methods as clients of the shared stores. Between any two of their
    commands the rest of the platform takes whatever steps the environment schedules. */
module Services {
  import opened Options
  import opened Redis
  import opened Calendar
  import opened SpendLoop
  import opened Coherence
  import opened StickyDenial
  import opened Runs

  /** The request or the delivery a goroutine works on, and nobody else does. */
  datatype Mine = Nothing | MyCall(call: nat) | MyCopy(copy: nat)

  predicate Touches(l: Label, m: Mine)
  {
    match m
    case Nothing => false
    case MyCall(i) =>
      l in {Limit(i), Spend(i), Fail(i), Crash(i)}
      || ((l.RateTtl? || l.Complete? || l.Emit?) && l.call == i)
    case MyCopy(j) =>
      l in {Drop(j), Fetch(j)} || ((l.Insert? || l.Incr? || l.Ttl?) && l.copy == j)
  }

  /** A run by the others. */
  predicate Foreign(run: seq<Label>, m: Mine)
  {
    forall l :: l in run ==> !Touches(l, m)
  }

  /** Nobody else changes a request before its event is emitted. */
  lemma {:induction false} CallUntouched(s: State, run: seq<Label>, i: nat)
    requires Coherent(s) && Valid(s, run) && Foreign(run, MyCall(i))
    requires i < |s.calls| && s.calls[i].stage in {Counting, Rated, Limited}
    ensures i < |Exec(s, run).calls| && Exec(s, run).calls[i] == s.calls[i]
    decreases |run|
  {
    if run == [] {
    } else {
      assert run[0] in run;
      if run[0].Incr? {
        assert CopyOk(s.copies[run[0].copy], s.calls);
      }
      CoherentStep(s, run[0]);
      CallUntouched(Apply(s, run[0]), run[1..], i);
    }
  }

  lemma {:induction false} CopyUntouched(s: State, run: seq<Label>, j: nat)
    requires Valid(s, run) && Foreign(run, MyCopy(j)) && j < |s.copies|
    ensures j < |Exec(s, run).copies| && Exec(s, run).copies[j] == s.copies[j]
    decreases |run|
  {
    if run == [] {
    } else {
      assert run[0] in run;
      CopyUntouched(Apply(s, run[0]), run[1..], j);
    }
  }

  lemma {:induction false} FinishedStays(s: State, run: seq<Label>, j: nat)
    requires Valid(s, run) && j < |s.copies|
    ensures j < |Exec(s, run).copies|
    ensures s.copies[j].stage in {Handled, Abandoned} ==> Exec(s, run).copies[j].stage == s.copies[j].stage
    decreases |run|
  {
    if run == [] {
    } else {
      FinishedStays(Apply(s, run[0]), run[1..], j);
    }
  }

  datatype Decision =
    | StoreError
    | Decision(allowed: bool, remaining: int, reason: string)

  /** The decision on a ticket, a limit and a spend: the rate cap first, then the budget. */
  ghost predicate DecidedOn(d: Decision, n: int, limit: int, spent: int)
  {
    && d.Decision? && d.remaining == limit - spent
    && (d.reason == "rate_limit" <==> n > 120)
    && (d.reason == "budget" <==> n <= 120 && limit - spent <= 0)
    && (d.reason == "" <==> n <= 120 && spent < limit)
    && (d.allowed <==> d.reason == "")
  }

  /** Which commands of one `Allow` fail, and what the others attempt between them. */
  datatype AllowEnv = AllowEnv(
    incrWorks: bool, incrReplies: bool, expireWorks: bool, limitReplies: bool, spendReplies: bool,
    afterIncr: seq<Label>, beforeLimit: seq<Label>, beforeSpend: seq<Label>)

  /** Which writes of one `handle` take effect, which report success, and what the others
      attempt before and between them. */
  datatype HandleEnv = HandleEnv(
    priced: bool, insertWorks: bool, insertOk: bool, incrWorks: bool, incrOk: bool, expireWorks: bool,
    beforeFetch: seq<Label>, beforeInsert: seq<Label>, beforeIncr: seq<Label>, beforeExpire: seq<Label>)

  /** A step taken between `start` and `end`. */
  lemma TakenSince(start: seq<Label>, mid: seq<Label>, l: Label, end: seq<Label>)
    requires start <= mid && mid + [l] <= end
    ensures l in end[|start|..]
  {
    assert end[|start|..][|mid| - |start|] == l;
  }

  predicate NothingQueued(s: State)
  {
    forall j :: 0 <= j < |s.copies| ==> s.copies[j].stage != Queued
  }

  /** At step `mark` of the run a consumer took delivery `got`, which ended as the environment
      let it, or found nothing queued. */
  ghost predicate Turn(start: State, run: seq<Label>, mark: nat, got: Option<nat>, env: HandleEnv)
  {
    && Valid(start, run) && mark <= |run| && Valid(start, run[..mark])
    && (got.None? ==> NothingQueued(Exec(start, run[..mark])))
    && (got.Some? ==>
          && mark < |run| && run[mark] == Fetch(got.value)
          && got.value < |Exec(start, run).copies|
          && Exec(start, run).copies[got.value].stage
             == if env.priced && env.insertOk && env.incrOk then Handled else Abandoned)
  }

  /** Later steps do not change what a turn came to. */
  lemma TurnStays(start: State, run: seq<Label>, more: seq<Label>, mark: nat, got: Option<nat>, env: HandleEnv)
    requires Turn(start, run, mark, got, env) && Valid(start, run + more)
    ensures Turn(start, run + more, mark, got, env)
  {
    Split(start, run, more);
    assert (run + more)[..mark] == run[..mark];
    if got.Some? {
      FinishedStays(Exec(start, run), more, got.value);
    }
  }

  class Platform {
    const config: Config
    var now: nat
    var db: map<Key, Cell>
    var rows: seq<Event>
    var copies: seq<Copy>
    var calls: seq<Call>
    ghost const origin: nat
    ghost var trace: seq<Label>

    function View(): State
      reads this
    {
      State(now, config, db, rows, calls, copies)
    }

    /** The fields are what the steps so far have made of an empty platform. */
    ghost predicate Reached()
      reads this
    {
      Valid(Start(origin, config), trace) && Exec(Start(origin, config), trace) == View()
    }

    constructor (now: nat, config: Config)
      ensures Reached() && View() == Start(now, config) && trace == [] && origin == now
    {
      this.now, this.config, this.origin := now, config, now;
      db, rows, copies, calls, trace := map[], [], [], [], [];
    }

    lemma Extend(before: State, l: Label)
      requires Valid(Start(origin, config), trace) && Exec(Start(origin, config), trace) == before
      requires Enabled(before, l)
      ensures Valid(Start(origin, config), trace + [l])
      ensures Exec(Start(origin, config), trace + [l]) == Apply(before, l)
    {
      ExecConcat(Start(origin, config), trace, [l]);
    }

    /** Appends a step to the trace. */
    ghost method Record(before: State, l: Label)
      requires Valid(Start(origin, config), trace) && Exec(Start(origin, config), trace) == before
      requires Enabled(before, l) && Apply(before, l) == View()
      modifies `trace
      ensures Reached() && trace == old(trace) + [l]
    {
      Extend(before, l);
      trace := trace + [l];
    }

    method Take(l: Label)
      requires Reached() && Enabled(View(), l)
      modifies this
      ensures Reached() && trace == old(trace) + [l] && View() == Apply(old(View()), l)
    {
      ghost var before := View();
      var next := Apply(View(), l);
      now, db, rows, calls, copies := next.now, next.db, next.rows, next.calls, next.copies;
      Record(before, l);
    }

    /** What the rest of the platform does in the meantime: of the scheduled steps, those
        that can be taken and are not the goroutine's own. */
    method Interfere(mine: Mine, others: seq<Label>)
      requires Reached()
      modifies this
      ensures Reached() && old(trace) <= trace && Foreign(trace[|old(trace)|..], mine)
    {
      for n := 0 to |others|
        invariant Reached() && old(trace) <= trace && Foreign(trace[|old(trace)|..], mine)
      {
        if Enabled(View(), others[n]) && !Touches(others[n], mine) {
          Take(others[n]);
        }
      }
    }

    /** After interference the goroutine's own record is as it left it. */
    twostate lemma StillMine(mine: Mine)
      requires old(Reached()) && Reached() && old(trace) <= trace && Foreign(trace[|old(trace)|..], mine)
      ensures mine.MyCall? && mine.call < |old(calls)| && old(calls)[mine.call].stage in {Counting, Rated, Limited} ==>
                mine.call < |calls| && calls[mine.call] == old(calls)[mine.call]
      ensures mine.MyCopy? && mine.copy < |old(copies)| ==>
                mine.copy < |copies| && copies[mine.copy] == old(copies)[mine.copy]
    {
      var start := Start(origin, config);
      var run := trace[|old(trace)|..];
      assert trace == old(trace) + run;
      Split(start, old(trace), run);
      CoherentRun(start, old(trace));
      if mine.MyCall? && mine.call < |old(calls)| && old(calls)[mine.call].stage in {Counting, Rated, Limited} {
        CallUntouched(old(View()), run, mine.call);
      }
      if mine.MyCopy? && mine.copy < |old(copies)| {
        CopyUntouched(old(View()), run, mine.copy);
      }
    }

    /** Interference that leaves the goroutine's own record alone. */
    method Pause(mine: Mine, others: seq<Label>)
      requires Reached()
      modifies this
      ensures Reached() && old(trace) <= trace
      ensures mine.MyCall? && mine.call < |old(calls)| && old(calls)[mine.call].stage in {Counting, Rated, Limited} ==>
                mine.call < |calls| && calls[mine.call] == old(calls)[mine.call]
      ensures mine.MyCopy? && mine.copy < |old(copies)| ==>
                mine.copy < |copies| && copies[mine.copy] == old(copies)[mine.copy]
    {
      Interfere(mine, others);
      StillMine(mine);
    }

    /** INCR on the rate key; the count is known only to a caller who gets the reply. */
    method CountAttempt(who: Who, replies: bool) returns (n: int, id: nat)
      requires Reached()
      modifies this
      ensures Reached() && trace == old(trace) + [Rate(who, replies)] && id == |old(calls)| == |calls| - 1
      ensures calls[id].who == who && calls[id].ticket == Some(NextTicket(old(View()), who))
      ensures n == calls[id].ticket.value.n && now == old(now)
      ensures calls[id].stage == if !replies then Failed else if n == 1 then Counting else Rated
    {
      ghost var before := View();
      id := |calls|;
      var bucket := now / RATE_WINDOW;
      var key := RateKey(who, bucket);
      db := IncrBy(db, key, 1, now);
      n := Value(db, key, now);
      var stage := if !replies then Failed else if n == 1 then Counting else Rated;
      calls := calls + [NewCall(who, Some(Ticket(bucket, n)), stage)];
      Record(before, Rate(who, replies));
    }

    /** EXPIRE on the rate key of the request's bucket, its error ignored. */
    method ExpireWindow(id: nat, who: Who, bucket: nat, works: bool)
      requires Reached() && CallAt(View(), id, Counting) && calls[id].who == who
      requires calls[id].ticket.Some? && calls[id].ticket.value.bucket == bucket
      modifies `db, `calls, `trace
      ensures Reached() && trace == old(trace) + [RateTtl(id, works)]
      ensures db == if works then Expire(old(db), RateKey(who, bucket), RATE_WINDOW, now) else old(db)
      ensures |calls| == |old(calls)| && calls[id] == old(calls[id]).(stage := Rated)
    {
      ghost var before := View();
      if works {
        db := Expire(db, RateKey(who, bucket), RATE_WINDOW, now);
      }
      calls := calls[id := calls[id].(stage := Rated)];
      Record(before, RateTtl(id, works));
    }

    /** Store.AllowRate: INCR and, on the first hit, EXPIRE. */
    method AllowRate(who: Who, env: AllowEnv) returns (err: bool, ok: bool, id: nat)
      requires Reached()
      modifies this
      requires env.incrReplies ==> env.incrWorks
      ensures Reached() && old(trace) <= trace && id == |old(calls)|
      ensures err == !env.incrReplies
      ensures !env.incrWorks ==> View() == old(View()) && trace == old(trace)
      ensures env.incrWorks ==> id < |calls| && calls[id].who == who
      ensures env.incrWorks ==> calls[id].ticket == Some(NextTicket(old(View()), who))
      ensures !err ==> calls[id].stage == Rated && (ok <==> calls[id].ticket.value.n <= RATE_MAX)
      // INCR comes first, and only a first hit sends EXPIRE.
      ensures env.incrWorks ==> old(trace) + [Rate(who, env.incrReplies)] <= trace
      ensures !err ==> if calls[id].ticket.value.n == 1 then trace[|trace| - 1] == RateTtl(id, env.expireWorks)
                       else trace == old(trace) + [Rate(who, true)]
    {
      if !env.incrWorks {
        return true, false, |calls|;
      }
      var bucket, n := now / RATE_WINDOW, 0;
      n, id := CountAttempt(who, env.incrReplies);
      if !env.incrReplies {
        return true, false, id;
      }
      if n == 1 {
        Pause(MyCall(id), env.afterIncr);
        ExpireWindow(id, who, bucket, env.expireWorks);
      }
      return false, n <= RATE_MAX, id;
    }

    /** A store error ends the request. */
    method Abort(id: nat)
      requires Reached() && (CallAt(View(), id, Rated) || CallAt(View(), id, Limited))
      modifies `calls, `trace
      ensures Reached() && trace == old(trace) + [Label.Fail(id)]
      ensures |calls| == |old(calls)| && calls[id] == old(calls[id]).(stage := Failed)
    {
      ghost var before := View();
      calls := calls[id := calls[id].(stage := Failed)];
      Record(before, Label.Fail(id));
    }

    /** The k-th step was the request's read of its limit, and the limit is what it found. */
    ghost predicate ReadLimit(k: nat, id: nat, who: Who)
      reads this
    {
      && k < |trace| && trace[k] == Limit(id) && Valid(Start(origin, config), trace[..k])
      && id < |calls| && calls[id].limit == EffectiveLimit(Exec(Start(origin, config), trace[..k]), who)
    }

    /** Store.Limit with the enforcer's fallback for an unset limit. */
    method ResolveLimit(who: Who, id: nat) returns (limit: int)
      requires Reached() && CallAt(View(), id, Rated) && calls[id].who == who
      modifies `calls, `trace
      ensures Reached() && trace == old(trace) + [Limit(id)]
      ensures limit == EffectiveLimit(View(), who)
      ensures |calls| == |old(calls)| && calls[id] == old(calls[id]).(stage := Limited, limit := limit)
    {
      ghost var before := View();
      limit := Value(db, LimitKey(who), now);
      if limit <= 0 {
        limit := config.fallback;
      }
      calls := calls[id := calls[id].(stage := Limited, limit := limit)];
      Record(before, Limit(id));
    }

    /** Store.Spend and the decision it completes. */
    method Decide(who: Who, okRate: bool, limit: int, id: nat) returns (d: Decision)
      requires Reached() && CallAt(View(), id, Limited) && calls[id].who == who && calls[id].limit == limit
      requires calls[id].ticket.Some? && (okRate <==> calls[id].ticket.value.n <= RATE_MAX)
      modifies `calls, `trace
      ensures Reached() && trace == old(trace) + [Spend(id)] && |calls| == |old(calls)|
      ensures calls[id].who == who && calls[id].ticket == old(calls[id].ticket)
      ensures DecidedOn(d, calls[id].ticket.value.n, limit, calls[id].spent)
      ensures calls[id].stage == (if d.allowed then Admitted else Denied) && calls[id].readAt == now
      ensures calls[id].limit == limit && calls[id].spent == SpentNow(View(), who)
    {
      ghost var before := View();
      var spent := Value(db, SpendKey(who, Month(now)), now);
      var remaining := limit - spent;
      if !okRate {
        d := Decision(false, remaining, "rate_limit");
      } else if remaining <= 0 {
        d := Decision(false, remaining, "budget");
      } else {
        d := Decision(true, remaining, "");
      }
      calls := calls[id := calls[id].(stage := if d.allowed then Admitted else Denied, spent := spent, readAt := now)];
      Record(before, Spend(id));
    }

    /** The part of `Allow` after the rate check: limit, spend, decision. */
    method CheckBudget(who: Who, okRate: bool, id: nat, env: AllowEnv) returns (d: Decision)
      requires Reached() && CallAt(View(), id, Rated) && calls[id].who == who && calls[id].ticket.Some?
      requires okRate <==> calls[id].ticket.value.n <= RATE_MAX
      modifies this
      ensures Reached() && old(trace) <= trace && id < |calls|
      ensures d.StoreError? <==> !(env.limitReplies && env.spendReplies)
      ensures d.Decision? ==> calls[id].who == who && calls[id].ticket == old(calls[id].ticket)
      ensures d.Decision? ==> DecidedOn(d, calls[id].ticket.value.n, calls[id].limit, calls[id].spent)
      ensures d.Decision? ==> calls[id].stage == (if d.allowed then Admitted else Denied) && calls[id].readAt == now
      ensures d.Decision? ==> exists k :: |old(trace)| <= k < |trace| && ReadLimit(k, id, who)
      ensures d.Decision? ==> trace[|trace| - 1] == Spend(id) && calls[id].spent == SpentNow(View(), who)
    {
      Pause(MyCall(id), env.beforeLimit);
      if !env.limitReplies {
        Abort(id);
        return StoreError;
      }
      ghost var before := trace;
      var limit := ResolveLimit(who, id);
      Pause(MyCall(id), env.beforeSpend);
      if !env.spendReplies {
        Abort(id);
        return StoreError;
      }
      d := Decide(who, okRate, limit, id);
      assert trace[..|before|] == before;
      assert ReadLimit(|before|, id, who);
    }

    /** Enforcer.Allow. Whatever happens between its commands, the decision is the one the
        step system takes for the request. */
    method Allow(who: Who, env: AllowEnv) returns (d: Decision, id: nat)
      requires Reached() && (env.incrReplies ==> env.incrWorks)
      modifies this
      ensures Reached() && old(trace) <= trace && id == |old(calls)|
      ensures d.StoreError? && !env.incrWorks ==> View() == old(View())
      ensures d.StoreError? <==> !(env.incrReplies && env.limitReplies && env.spendReplies)
      ensures d.Decision? ==> id < |calls| && calls[id].who == who && calls[id].ticket.Some?
      ensures d.Decision? ==> calls[id].readAt == now
      // More than 120 requests in the window are a rate refusal, a spent budget is a budget one.
      ensures d.Decision? ==> (d.reason == "rate_limit" <==> calls[id].ticket.value.n > 120)
      ensures d.Decision? ==>
                (d.reason == "budget" <==> calls[id].ticket.value.n <= 120 && calls[id].limit - calls[id].spent <= 0)
      ensures d.Decision? ==>
                (d.allowed <==> calls[id].ticket.value.n <= 120 && calls[id].spent < calls[id].limit)
      ensures d.Decision? ==> (d.allowed <==> d.reason == "") && d.remaining == calls[id].limit - calls[id].spent
      ensures d.Decision? ==> calls[id].stage == (if d.allowed then Admitted else Denied)
      // It is about the ticket INCR gave, a limit read in between and the spend read last.
      ensures d.Decision? ==> calls[id].ticket == Some(NextTicket(old(View()), who))
      ensures d.Decision? ==> exists k :: |old(trace)| < k < |trace| && ReadLimit(k, id, who)
      ensures d.Decision? ==> trace[|trace| - 1] == Spend(id) && calls[id].spent == SpentNow(View(), who)
    {
      var err, okRate;
      err, okRate, id := AllowRate(who, env);
      if err {
        return StoreError, id;
      }
      d := CheckBudget(who, okRate, id, env);
    }

    /** If nothing is left of the customer's budget and the limit is not set meanwhile, `Allow`
        allows nothing until the month is over. */
    method AllowWhenSpent(who: Who, env: AllowEnv) returns (d: Decision)
      requires Reached() && (env.incrReplies ==> env.incrWorks)
      requires EffectiveLimit(View(), who) <= SpentNow(View(), who)
      modifies this
      ensures Reached() && old(trace) <= trace
      ensures (forall l :: l in trace[|old(trace)|..] ==> !(l.SetLimit? && l.who == who)) ==>
                d.Decision? && d.allowed ==> Month(old(now)) < Month(now)
    {
      var id;
      d, id := Allow(who, env);
      ghost var run := trace[|old(trace)|..];
      if d.Decision? && d.allowed && forall l :: l in run ==> !(l.SetLimit? && l.who == who) {
        assert trace == old(trace) + run;
        Split(Start(origin, config), old(trace), run);
        DenialIsSticky(origin, config, old(trace), run, who);
      }
    }

    /** Enforcer.SetLimit. A SET that reports an error may still have worked. */
    method ConfigureLimit(who: Who, micros: int, works: bool, ok: bool) returns (err: bool)
      requires Reached() && (ok ==> works)
      modifies this
      ensures Reached() && err == !ok
      ensures !works ==> View() == old(View()) && trace == old(trace)
      ensures works ==> trace == old(trace) + [SetLimit(who, micros)]
      ensures works ==> EffectiveLimit(View(), who) == if micros <= 0 then config.fallback else micros
      ensures forall k :: k != LimitKey(who) ==> (k in db <==> k in old(db)) && (k in db ==> db[k] == old(db)[k])
    {
      if works {
        ghost var before := View();
        db := Put(db, LimitKey(who), micros);
        Record(before, SetLimit(who, micros));
      }
      return !ok;
    }

    /** A fetched delivery has not been written anywhere, and its event bears the price of its
        usage. */
    lemma FetchedCopyIsBlank(before: State, j: nat)
      requires Valid(Start(origin, config), trace) && Exec(Start(origin, config), trace) == before
      requires CopyAt(before, j, Fetched)
      ensures !before.copies[j].rowed && !before.copies[j].counted
      ensures before.copies[j].event.cost == config.rate(before.copies[j].event.usage)
    {
      CoherentRun(Start(origin, config), trace);
      ConfigStays(Start(origin, config), trace);
      var c := before.copies[j];
      assert CopyOk(c, before.calls) && PricedOk(before.calls[c.event.call], config.rate);
    }

    /** INCRBY on the spend key. */
    method Count(j: nat, e: Event, cost: nat, works: bool, ok: bool)
      requires Reached() && CopyAt(View(), j, Inserted) && copies[j].event == e && cost == e.cost && (ok ==> works)
      modifies `db, `calls, `copies, `trace
      ensures Reached() && trace == old(trace) + [Incr(j, works, ok)] && |copies| == |old(copies)|
      ensures db == if works then IncrBy(old(db), EventKey(e), cost, now) else old(db)
      ensures copies[j] == old(copies[j]).(stage := if ok then Incremented else Abandoned, counted := works)
    {
      ghost var before := View();
      if works {
        db := IncrBy(db, EventKey(e), cost, now);
        calls := if e.call < |calls| then calls[e.call := Counted(calls[e.call], now)] else calls;
      }
      copies := copies[j := copies[j].(stage := if ok then Incremented else Abandoned, counted := works)];
      Record(before, Incr(j, works, ok));
    }

    /** EXPIRE on the spend key, its error ignored. */
    method Refresh(j: nat, e: Event, works: bool)
      requires Reached() && CopyAt(View(), j, Incremented) && copies[j].event == e
      modifies `db, `copies, `trace
      ensures Reached() && trace == old(trace) + [Ttl(j, works)] && |copies| == |old(copies)|
      ensures db == if works then Expire(old(db), EventKey(e), SPEND_TTL, now) else old(db)
      ensures copies[j] == old(copies[j]).(stage := Handled)
    {
      ghost var before := View();
      if works {
        db := Expire(db, EventKey(e), SPEND_TTL, now);
      }
      copies := copies[j := copies[j].(stage := Handled)];
      Record(before, Ttl(j, works));
    }

    /** What `handle` does once the row is written. */
    method Settle(j: nat, e: Event, cost: nat, env: HandleEnv) returns (ok: bool)
      requires Reached() && CopyAt(View(), j, Inserted) && copies[j].event == e && cost == e.cost
      requires env.incrOk ==> env.incrWorks
      modifies this
      ensures Reached() && old(trace) <= trace && j < |copies| && ok == env.incrOk
      ensures copies[j] == old(copies[j]).(stage := if ok then Handled else Abandoned, counted := env.incrWorks)
      ensures Incr(j, env.incrWorks, env.incrOk) in trace[|old(trace)|..]
      ensures ok ==> trace[|trace| - 1] == Ttl(j, env.expireWorks)
    {
      Pause(MyCopy(j), env.beforeIncr);
      ghost var before := trace;
      Count(j, e, cost, env.incrWorks, env.incrOk);
      if env.incrOk {
        Pause(MyCopy(j), env.beforeExpire);
        Refresh(j, e, env.expireWorks);
      }
      TakenSince(old(trace), before, Incr(j, env.incrWorks, env.incrOk), trace);
      return env.incrOk;
    }

    /** ClickHouse.Insert: the row is the event with its price. */
    method WriteRow(j: nat, e: Event, cost: nat, works: bool, ok: bool)
      requires Reached() && CopyAt(View(), j, Fetched) && copies[j].event == e && cost == e.cost && (ok ==> works)
      modifies `rows, `copies, `trace
      ensures Reached() && trace == old(trace) + [Insert(j, works, ok)] && |copies| == |old(copies)|
      ensures rows == if works then old(rows) + [e.(cost := cost)] else old(rows)
      ensures copies[j] == Copy(e, old(copies[j].extra), if ok then Inserted else Abandoned, works, false)
    {
      ghost var before := View();
      FetchedCopyIsBlank(before, j);
      if works {
        rows := rows + [e.(cost := cost)];
      }
      copies := copies[j := copies[j].(stage := if ok then Inserted else Abandoned, rowed := works)];
      Record(before, Insert(j, works, ok));
    }

    /** Consumer.handle for one fetched delivery: price, insert, increment, expire. The first
        step that reports an error ends it; what has taken effect by then stays. */
    method Handle(j: nat, env: HandleEnv) returns (ok: bool)
      requires Reached() && CopyAt(View(), j, Fetched)
      requires (env.insertOk ==> env.insertWorks) && (env.incrOk ==> env.incrWorks)
      modifies this
      ensures Reached() && old(trace) <= trace && j < |copies| && copies[j].event == old(copies[j].event)
      ensures ok <==> env.priced && env.insertOk && env.incrOk
      ensures copies[j].stage == if ok then Handled else Abandoned
      ensures copies[j].rowed <==> env.priced && env.insertWorks
      ensures copies[j].counted <==> env.priced && env.insertOk && env.incrWorks
      // The event's cost in both ledgers is what the pricer makes of its usage.
      ensures copies[j].event.cost == config.rate(copies[j].event.usage)
      // The writes come in this order, each only after the one before it has succeeded.
      ensures old(trace) + [Insert(j, env.priced && env.insertWorks, env.priced && env.insertOk)] <= trace
      ensures env.priced && env.insertOk ==> Incr(j, env.incrWorks, env.incrOk) in trace[|old(trace)|..]
      ensures ok ==> trace[|trace| - 1] == Ttl(j, env.expireWorks)
    {
      var e := copies[j].event;
      var cost := config.rate(e.usage);
      FetchedCopyIsBlank(View(), j);
      // An event the pricer refuses is an insert that neither works nor reports success.
      WriteRow(j, e, cost, env.priced && env.insertWorks, env.priced && env.insertOk);
      if !(env.priced && env.insertOk) {
        return false;
      }
      ok := Settle(j, e, cost, env);
    }

    /** One turn of the loop. It changes nothing about the turns before it. */
    method ServeOne(env: HandleEnv) returns (got: Option<nat>, ghost mark: nat)
      requires Reached() && (env.insertOk ==> env.insertWorks) && (env.incrOk ==> env.incrWorks)
      modifies this
      ensures Reached() && old(trace) <= trace && Turn(Start(origin, config), trace, mark, got, env)
    {
      Interfere(Nothing, env.beforeFetch);
      ghost var before := trace;
      mark, got := |before|, None;
      if j :| 0 <= j < |copies| && copies[j].stage == Queued {
        Take(Fetch(j));
        Pause(MyCopy(j), env.beforeInsert);
        var ok := Handle(j, env);
        got := Some(j);
      }
      assert trace[..mark] == before;
    }

    /** Consumer.Run for as many turns as there are before it is cancelled: a message that
        cannot be handled is given up, and the loop goes on. */
    method Run(envs: seq<HandleEnv>) returns (read: seq<Option<nat>>, ghost marks: seq<nat>)
      requires Reached()
      requires forall env :: env in envs ==> (env.insertOk ==> env.insertWorks) && (env.incrOk ==> env.incrWorks)
      modifies this
      ensures Reached() && old(trace) <= trace && |read| == |marks| == |envs|
      ensures forall n :: 0 <= n < |envs| ==> Turn(Start(origin, config), trace, marks[n], read[n], envs[n])
    {
      read, marks := [], [];
      for n := 0 to |envs|
        invariant Reached() && old(trace) <= trace && |read| == |marks| == n
        invariant forall k :: 0 <= k < n ==> Turn(Start(origin, config), trace, marks[k], read[k], envs[k])
      {
        var got;
        ghost var mark;
        ghost var before := trace;
        got, mark := ServeOne(envs[n]);
        assert trace == before + trace[|before|..];
        forall k | 0 <= k < n ensures Turn(Start(origin, config), trace, marks[k], read[k], envs[k]) {
          TurnStays(Start(origin, config), before, trace[|before|..], marks[k], read[k], envs[k]);
        }
        read, marks := read + [got], marks + [mark];
      }
    }
  }
}
