/** The fixed-window limiter of `AllowRate`, under every interleaving. */
module RateLimiter {
  import opened Redis
  import opened Sums
  import opened SpendLoop
  import opened Coherence

  function Attempt(who: Who, bucket: nat): Call -> int
  {
    (c: Call) => if c.who == who && c.ticket.Some? && c.ticket.value.bucket == bucket then 1 else 0
  }

  function InCap(who: Who, bucket: nat): Call -> int
  {
    (c: Call) => if c.who == who && c.ticket.Some? && c.ticket.value.bucket == bucket
                    && c.ticket.value.n <= RATE_MAX then 1 else 0
  }

  function Min(a: int, b: int): int { if a <= b then a else b }

  predicate RateKeyOk(s: State, who: Who, bucket: nat)
  {
    var key := RateKey(who, bucket);
    key in s.db && s.db[key].expiry.Some? ==> (bucket + 1) * RATE_WINDOW <= s.db[key].expiry.value
  }

  /** The key counts its bucket's attempts for as long as the bucket is open, because its
      expiry, restarted at most once, never falls inside the bucket. */
  ghost predicate RateInv(s: State, who: Who, bucket: nat)
  {
    var key := RateKey(who, bucket);
    var attempts := Sum(s.calls, Attempt(who, bucket));
    && 0 <= attempts
    && Sum(s.calls, InCap(who, bucket)) == Min(attempts, RATE_MAX)
    && (s.now < bucket * RATE_WINDOW ==> attempts == 0)
    && (s.now < (bucket + 1) * RATE_WINDOW ==> Value(s.db, key, s.now) == attempts)
    && RateKeyOk(s, who, bucket)
  }

  /** An INCR of the customer's key for the bucket. */
  predicate Hits(s: State, l: Label, who: Who, bucket: nat)
  {
    l.Rate? && l.who == who && s.now / RATE_WINDOW == bucket
  }

  lemma TallyStep(s: State, l: Label, who: Who, bucket: nat)
    requires Enabled(s, l)
    ensures var t := Apply(s, l);
            var hit := if Hits(s, l, who, bucket) then 1 else 0;
            && Sum(t.calls, Attempt(who, bucket)) == Sum(s.calls, Attempt(who, bucket)) + hit
            && Sum(t.calls, InCap(who, bucket)) == Sum(s.calls, InCap(who, bucket))
                 + if Value(s.db, RateKey(who, bucket), s.now) + 1 <= RATE_MAX then hit else 0
  {
    CallSum(s, l, Attempt(who, bucket));
    CallSum(s, l, InCap(who, bucket));
    if CallOf(s, l).Some? {
      CallsGrow(s, l, CallOf(s, l).value);
    }
  }

  /** Only the two commands of `AllowRate` write rate keys. */
  lemma RateKeyUntouched(s: State, l: Label, key: Key)
    requires Enabled(s, l) && !l.Rate? && !l.RateTtl? && key.RateKey?
    ensures key in Apply(s, l).db <==> key in s.db
    ensures key in s.db ==> Apply(s, l).db[key] == s.db[key]
  {
  }

  lemma RateKeyStep(s: State, l: Label, who: Who, bucket: nat)
    requires Coherent(s) && RateKeyOk(s, who, bucket) && Enabled(s, l)
    ensures var t := Apply(s, l);
            && RateKeyOk(t, who, bucket)
            && (t.now < (bucket + 1) * RATE_WINDOW ==>
                  Value(t.db, RateKey(who, bucket), t.now) == Value(s.db, RateKey(who, bucket), s.now)
                    + if Hits(s, l, who, bucket) then 1 else 0)
  {
    if l.RateTtl? {
      assert CallOk(s.calls[l.call], s.now);
    } else if !l.Rate? {
      RateKeyUntouched(s, l, RateKey(who, bucket));
    }
  }

  lemma RateStep(s: State, l: Label, who: Who, bucket: nat)
    requires Coherent(s) && RateInv(s, who, bucket) && Enabled(s, l)
    ensures RateInv(Apply(s, l), who, bucket)
  {
    TallyStep(s, l, who, bucket);
    RateKeyStep(s, l, who, bucket);
  }

  lemma {:induction false} RateRun(s: State, run: seq<Label>, who: Who, bucket: nat)
    requires Coherent(s) && RateInv(s, who, bucket) && Valid(s, run)
    ensures Coherent(Exec(s, run)) && RateInv(Exec(s, run), who, bucket)
    decreases |run|
  {
    if run == [] {
    } else {
      CoherentStep(s, run[0]);
      RateStep(s, run[0], who, bucket);
      RateRun(Apply(s, run[0]), run[1..], who, bucket);
    }
  }

  /** Every bucket lets through exactly the first RATE_MAX of the attempts made in it. */
  lemma BucketAdmitsExactlyTheCap(now: nat, config: Config, run: seq<Label>, who: Who, bucket: nat)
    requires Valid(Start(now, config), run)
    ensures var calls := Exec(Start(now, config), run).calls;
            Sum(calls, InCap(who, bucket)) == Min(Sum(calls, Attempt(who, bucket)), RATE_MAX)
  {
    RateRun(Start(now, config), run, who, bucket);
  }

  function InCapAny(who: Who): Call -> int
  {
    (c: Call) => if c.who == who && c.ticket.Some? && c.ticket.value.n <= RATE_MAX then 1 else 0
  }

  function InRange(who: Who, first: nat, count: nat): Call -> int
  {
    (c: Call) => if c.who == who && c.ticket.Some? && c.ticket.value.n <= RATE_MAX
                    && first <= c.ticket.value.bucket < first + count then 1 else 0
  }

  lemma {:induction false} RangeCap(s: State, who: Who, first: nat, count: nat)
    requires forall b: nat :: RateInv(s, who, b)
    ensures Sum(s.calls, InRange(who, first, count)) <= RATE_MAX * count
  {
    if count == 0 {
      SumZero(s.calls, InRange(who, first, 0));
    } else {
      RangeCap(s, who, first, count - 1);
      var last := first + count - 1;
      assert RateInv(s, who, last);
      SumLe(s.calls, InRange(who, first, count), Plus(InRange(who, first, count - 1), 1, InCap(who, last)));
      SumPlus(s.calls, InRange(who, first, count - 1), 1, InCap(who, last));
    }
  }

  /** A step adds to all admissions what it adds to those of the windows around it. */
  lemma AdmissionInRange(s: State, l: Label, who: Who, first: nat, count: nat)
    requires Enabled(s, l) && first * RATE_WINDOW <= s.now < (first + count) * RATE_WINDOW
    ensures Sum(Apply(s, l).calls, InCapAny(who)) - Sum(s.calls, InCapAny(who))
         == Sum(Apply(s, l).calls, InRange(who, first, count)) - Sum(s.calls, InRange(who, first, count))
  {
    CallSum(s, l, InCapAny(who));
    CallSum(s, l, InRange(who, first, count));
    if CallOf(s, l).Some? {
      CallsGrow(s, l, CallOf(s, l).value);
    }
  }

  lemma {:induction false} AdmissionsInRange(s: State, run: seq<Label>, who: Who, first: nat, count: nat)
    requires Valid(s, run)
    requires first * RATE_WINDOW <= s.now && Exec(s, run).now < (first + count) * RATE_WINDOW
    ensures s.now <= Exec(s, run).now
    ensures Sum(Exec(s, run).calls, InCapAny(who)) - Sum(s.calls, InCapAny(who))
         == Sum(Exec(s, run).calls, InRange(who, first, count)) - Sum(s.calls, InRange(who, first, count))
    decreases |run|
  {
    if run == [] {
    } else {
      AdmissionsInRange(Apply(s, run[0]), run[1..], who, first, count);
      AdmissionInRange(s, run[0], who, first, count);
    }
  }

  lemma SumZeroOrMore(calls: seq<Call>, w: Call -> int)
    requires forall i :: 0 <= i < |calls| ==> 0 <= w(calls[i])
    ensures 0 <= Sum(calls, w)
  {
    var zero := (c: Call) => 0;
    SumZero(calls, zero);
    SumLe(calls, zero, w);
  }

  /** Any stretch of a run that lasts less than `seconds` passes at most
      RATE_MAX * (ceil(seconds / 60) + 1) of a customer's requests through the limiter. */
  lemma IntervalCap(now: nat, config: Config, before: seq<Label>, run: seq<Label>, who: Who, seconds: nat)
    requires Valid(Start(now, config), before) && Valid(Exec(Start(now, config), before), run)
    requires var s := Exec(Start(now, config), before); Exec(s, run).now < s.now + seconds
    ensures var s := Exec(Start(now, config), before);
            Sum(Exec(s, run).calls, InCapAny(who)) - Sum(s.calls, InCapAny(who))
            <= RATE_MAX * ((seconds + RATE_WINDOW - 1) / RATE_WINDOW + 1)
  {
    var s := Exec(Start(now, config), before);
    var first := s.now / RATE_WINDOW;
    var count := (seconds + RATE_WINDOW - 1) / RATE_WINDOW + 1;
    RateRun(Start(now, config), before, who, first);
    AdmissionsInRange(s, run, who, first, count);
    var t := Exec(s, run);
    forall b: nat ensures RateInv(t, who, b) {
      RateRun(Start(now, config), before, who, b);
      RateRun(s, run, who, b);
    }
    RangeCap(t, who, first, count);
    SumZeroOrMore(s.calls, InRange(who, first, count));
  }

  /** After the EXPIRE of a first hit its key lives exactly one minute. */
  lemma RateKeyLivesOneMinute(s: State, i: nat, t: nat)
    requires CallAt(s, i, Counting) && s.calls[i].ticket.Some?
    requires Live(s.db, RateKey(s.calls[i].who, s.calls[i].ticket.value.bucket), s.now)
    ensures Live(Apply(s, RateTtl(i, true)).db, RateKey(s.calls[i].who, s.calls[i].ticket.value.bucket), t)
       <==> t < s.now + 60
  {
  }
}
