/** The metering and budget loop as a step system.

    Every Redis command, ClickHouse insert, provider call, publication and delivery is a
    step of its own, so `Enforcer.Allow` and `Consumer.handle` interleave freely with each
    other and with a broker that repeats, drops and reorders events. A write may fail with
    or without having taken effect. */
module SpendLoop {
  import opened Options
  import opened Redis
  import opened Calendar
  import opened Metered

  const RATE_WINDOW: nat := 60
  const RATE_MAX: nat := 120
  const SPEND_TTL: nat := 3_888_000 // 45 days

  datatype Who = Who(tenant: string, customer: string)

  datatype Key =
    | SpendKey(who: Who, month: nat)
    | LimitKey(who: Who)
    | RateKey(who: Who, bucket: nat)

  /** What INCR answered on the call's rate key. */
  datatype Ticket = Ticket(bucket: nat, n: int)

  datatype Stage =
    | Counting  // INCR answered 1, EXPIRE not yet sent
    | Rated     // AllowRate has returned
    | Limited   // Limit has returned
    | Denied    // Allow has returned a refusal
    | Admitted  // Allow has returned a permission
    | Completed // the provider, or the cache, has answered
    | Emitted   // the usage event is stamped and was handed to the publisher
    | Crashed   // the process died between the answer and the event
    | Failed    // a store or provider error ended the request before any cost

  /** One request, from its rate check to its usage event. A cache hit has no ticket.
      `countedAt` is when the request's event first reached the spend counter. */
  datatype Call = Call(
    who: Who, ticket: Option<Ticket>, stage: Stage,
    limit: int, spent: int, readAt: nat,
    usage: Usage, cost: nat, at: nat, published: bool, countedAt: Option<nat>)

  /** A request when its rate check answers; the rest of its record is filled in later. */
  function NewCall(who: Who, ticket: Option<Ticket>, stage: Stage): Call
  {
    Call(who, ticket, stage, 0, 0, 0, NO_USAGE, 0, 0, false, None)
  }

  /** A usage event: the request it reports, what it used, when it occurred, and the cost the
      pricer will put on its row, which the message itself does not carry. */
  datatype Event = Event(call: nat, who: Who, usage: Usage, cost: nat, at: nat)

  datatype CopyStage =
    | Queued      // in the topic
    | Fetched     // read by a consumer
    | Inserted    // Insert has returned
    | Incremented // IncrBy has returned
    | Handled     // handle has returned nil
    | Abandoned   // dropped by the broker, or handle returned an error

  /** One delivery of an event, with the writes that took effect on its behalf. */
  datatype Copy = Copy(event: Event, extra: bool, stage: CopyStage, rowed: bool, counted: bool)

  /** The enforcer's default limit and metering's pricer. */
  datatype Config = Config(fallback: int, rate: Pricer)

  datatype State = State(
    now: nat,
    config: Config,
    db: map<Key, Cell>,  // Redis
    rows: seq<Event>,    // ClickHouse
    calls: seq<Call>,
    copies: seq<Copy>)

  datatype Label =
    | Tick(seconds: nat)
    | SetLimit(who: Who, micros: int)
    | Rate(who: Who, replied: bool)
    | RateTtl(call: nat, effect: bool)
    | Limit(call: nat)
    | Spend(call: nat)
    | Fail(call: nat)
    | Complete(call: nat, usage: Usage)
    | Hit(who: Who, model: string)
    | Emit(call: nat, delivered: bool)
    | Crash(call: nat)
    | Redeliver(copy: nat)
    | Drop(copy: nat)
    | Fetch(copy: nat)
    | Insert(copy: nat, effect: bool, ok: bool)
    | Incr(copy: nat, effect: bool, ok: bool)
    | Ttl(copy: nat, effect: bool)

  function Start(now: nat, config: Config): State
  {
    State(now, config, map[], [], [], [])
  }

  predicate CallAt(s: State, i: nat, stage: Stage)
  {
    i < |s.calls| && s.calls[i].stage == stage
  }

  predicate CopyAt(s: State, j: nat, stage: CopyStage)
  {
    j < |s.copies| && s.copies[j].stage == stage
  }

  predicate Enabled(s: State, l: Label)
  {
    match l
    case Tick(_) => true
    case SetLimit(_, _) => true
    case Rate(_, _) => true
    case RateTtl(i, _) => CallAt(s, i, Counting)
    case Limit(i) => CallAt(s, i, Rated)
    case Spend(i) => CallAt(s, i, Limited)
    case Fail(i) => CallAt(s, i, Rated) || CallAt(s, i, Limited) || CallAt(s, i, Admitted)
    case Complete(i, _) => CallAt(s, i, Admitted)
    case Hit(_, _) => true
    case Emit(i, _) => CallAt(s, i, Completed)
    case Crash(i) => CallAt(s, i, Completed)
    case Redeliver(j) => j < |s.copies|
    case Drop(j) => CopyAt(s, j, Queued)
    case Fetch(j) => CopyAt(s, j, Queued)
    case Insert(j, effect, ok) => CopyAt(s, j, Fetched) && (ok ==> effect)
    case Incr(j, effect, ok) => CopyAt(s, j, Inserted) && (ok ==> effect)
    case Ttl(j, _) => CopyAt(s, j, Incremented)
  }

  /** The limit `Allow` resolves: the configured one if positive, else the default. */
  function EffectiveLimit(s: State, who: Who): int
  {
    var limit := Value(s.db, LimitKey(who), s.now);
    if limit <= 0 then s.config.fallback else limit
  }

  function EventKey(e: Event): Key
  {
    SpendKey(e.who, Month(e.at))
  }

  function SpentNow(s: State, who: Who): int
  {
    Value(s.db, SpendKey(who, Month(s.now)), s.now)
  }

  function SetCall(s: State, i: nat, c: Call): State
    requires i < |s.calls|
  {
    s.(calls := s.calls[i := c])
  }

  function SetCopy(s: State, j: nat, c: Copy): State
    requires j < |s.copies|
  {
    s.(copies := s.copies[j := c])
  }

  /** What INCR is about to answer. */
  function NextTicket(s: State, who: Who): Ticket
  {
    Ticket(s.now / RATE_WINDOW, Value(s.db, RateKey(who, s.now / RATE_WINDOW), s.now) + 1)
  }

  /** INCR on the current window's key opens a call. A reply lost on the way back ends it. */
  function DoRate(s: State, who: Who, replied: bool): State
  {
    var bucket := s.now / RATE_WINDOW;
    var key := RateKey(who, bucket);
    var n := Value(s.db, key, s.now) + 1;
    var stage := if !replied then Failed else if n == 1 then Counting else Rated;
    s.(db := IncrBy(s.db, key, 1, s.now),
       calls := s.calls + [NewCall(who, Some(Ticket(bucket, n)), stage)])
  }

  function DoRateTtl(s: State, i: nat, effect: bool): State
    requires CallAt(s, i, Counting)
  {
    var c := s.calls[i];
    var t := SetCall(s, i, c.(stage := Rated));
    if effect && c.ticket.Some? then
      t.(db := Expire(s.db, RateKey(c.who, c.ticket.value.bucket), RATE_WINDOW, s.now))
    else t
  }

  /** The read of the spend counter completes `Allow` and fixes its decision. */
  function DoSpend(s: State, i: nat): State
    requires CallAt(s, i, Limited)
  {
    var c := s.calls[i];
    var spent := SpentNow(s, c.who);
    var okRate := c.ticket.Some? && c.ticket.value.n <= RATE_MAX;
    var stage := if !okRate || c.limit - spent <= 0 then Denied else Admitted;
    SetCall(s, i, c.(stage := stage, spent := spent, readAt := s.now))
  }

  /** The event is stamped with the current time; a failed publication is only logged. */
  function DoEmit(s: State, i: nat, delivered: bool): State
    requires CallAt(s, i, Completed)
  {
    var c := s.calls[i];
    var t := SetCall(s, i, c.(stage := Emitted, at := s.now, published := delivered));
    if delivered then
      t.(copies := s.copies + [Copy(Event(i, c.who, c.usage, c.cost, s.now), false, Queued, false, false)])
    else t
  }

  function DoInsert(s: State, j: nat, effect: bool, ok: bool): State
    requires CopyAt(s, j, Fetched)
  {
    var c := s.copies[j];
    SetCopy(s, j, c.(stage := if ok then Inserted else Abandoned, rowed := effect))
      .(rows := if effect then s.rows + [c.event] else s.rows)
  }

  function Counted(c: Call, now: nat): Call
  {
    if c.countedAt.None? then c.(countedAt := Some(now)) else c
  }

  function DoIncr(s: State, j: nat, effect: bool, ok: bool): State
    requires CopyAt(s, j, Inserted)
  {
    var c := s.copies[j];
    var t := SetCopy(s, j, c.(stage := if ok then Incremented else Abandoned, counted := effect));
    if effect then
      t.(db := IncrBy(s.db, EventKey(c.event), c.event.cost, s.now),
         calls := if c.event.call < |s.calls|
                  then s.calls[c.event.call := Counted(s.calls[c.event.call], s.now)] else s.calls)
    else t
  }

  function DoTtl(s: State, j: nat, effect: bool): State
    requires CopyAt(s, j, Incremented)
  {
    var c := s.copies[j];
    SetCopy(s, j, c.(stage := Handled))
      .(db := if effect then Expire(s.db, EventKey(c.event), SPEND_TTL, s.now) else s.db)
  }

  function Apply(s: State, l: Label): State
    requires Enabled(s, l)
  {
    match l
    case Tick(d) => s.(now := s.now + d)
    case SetLimit(who, micros) => s.(db := Put(s.db, LimitKey(who), micros))
    case Rate(who, replied) => DoRate(s, who, replied)
    case RateTtl(i, effect) => DoRateTtl(s, i, effect)
    case Limit(i) => SetCall(s, i, s.calls[i].(stage := Limited, limit := EffectiveLimit(s, s.calls[i].who)))
    case Spend(i) => DoSpend(s, i)
    case Fail(i) => SetCall(s, i, s.calls[i].(stage := Failed))
    case Complete(i, usage) =>
      SetCall(s, i, s.calls[i].(stage := Completed, usage := usage, cost := s.config.rate(usage)))
    case Hit(who, model) =>
      s.(calls := s.calls + [NewCall(who, None, Completed).(usage := Usage(model, 0, 0))])
    case Emit(i, delivered) => DoEmit(s, i, delivered)
    case Crash(i) => SetCall(s, i, s.calls[i].(stage := Crashed))
    case Redeliver(j) => s.(copies := s.copies + [Copy(s.copies[j].event, true, Queued, false, false)])
    case Drop(j) => SetCopy(s, j, s.copies[j].(stage := Abandoned))
    case Fetch(j) => SetCopy(s, j, s.copies[j].(stage := Fetched))
    case Insert(j, effect, ok) => DoInsert(s, j, effect, ok)
    case Incr(j, effect, ok) => DoIncr(s, j, effect, ok)
    case Ttl(j, effect) => DoTtl(s, j, effect)
  }

  predicate Valid(s: State, run: seq<Label>)
    decreases |run|
  {
    run == [] || (Enabled(s, run[0]) && Valid(Apply(s, run[0]), run[1..]))
  }

  function Exec(s: State, run: seq<Label>): State
    requires Valid(s, run)
    decreases |run|
  {
    if run == [] then s else Exec(Apply(s, run[0]), run[1..])
  }

  lemma {:induction false} ExecConcat(s: State, a: seq<Label>, b: seq<Label>)
    requires Valid(s, a) && Valid(Exec(s, a), b)
    ensures Valid(s, a + b) && Exec(s, a + b) == Exec(Exec(s, a), b)
    decreases |a|
  {
    if a == [] {
      assert a + b == b;
    } else {
      assert (a + b)[1..] == a[1..] + b;
      ExecConcat(Apply(s, a[0]), a[1..], b);
    }
  }

  lemma {:induction false} Split(s: State, a: seq<Label>, b: seq<Label>)
    requires Valid(s, a + b)
    ensures Valid(s, a) && Valid(Exec(s, a), b) && Exec(s, a + b) == Exec(Exec(s, a), b)
    decreases |a|
  {
    if a == [] {
      assert a + b == b;
    } else {
      assert (a + b)[0] == a[0] && (a + b)[1..] == a[1..] + b;
      Split(Apply(s, a[0]), a[1..], b);
    }
  }

  lemma ExecCons(s: State, l: Label, run: seq<Label>)
    requires Enabled(s, l) && Valid(Apply(s, l), run)
    ensures Valid(s, [l] + run) && Exec(s, [l] + run) == Exec(Apply(s, l), run)
  {
    assert ([l] + run)[1..] == run;
  }
}
