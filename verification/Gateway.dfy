/** The request path of the gateway: guardrail, cache, budget, provider, usage event. */
module Gateway {
  import opened Metered
  import opened Text
  import opened Sums
  import opened Guardrail
  import opened PolicyModel
  import opened CacheKey
  import opened Echo

  const CACHE_TTL: nat := 3600

  datatype Entry = Entry(response: Response, expiry: nat)

  datatype UsageEvent = UsageEvent(provider: string, usage: Usage, at: nat)

  datatype Budget = Allowed | Refused | BudgetUnavailable

  datatype Outcome = Answered(response: Response) | Blocked | BudgetExceeded | BudgetError

  /** What the environment decides during one request: the budget's answer, and which of the
      best-effort calls fail. A failed Set may still have stored the entry. */
  datatype Env = Env(now: nat, budget: Budget, getFails: bool, setStores: bool, publishes: bool)

  function EventOf(response: Response, hit: bool, now: nat): UsageEvent
  {
    if hit then UsageEvent("cache", Usage(response.model, 0, 0), now)
    else UsageEvent("echo", Usage(response.model, response.promptTokens, response.completionTokens), now)
  }

  function ChargedBy(rate: Pricer): UsageEvent -> int
  {
    (e: UsageEvent) => rate(e.usage)
  }

  /** Under any pricer, a hit's event adds nothing to what the events are charged, and a
      provider answer's adds the price of its tokens. */
  lemma EventCharge(events: seq<UsageEvent>, response: Response, hit: bool, now: nat, rate: Pricer)
    ensures Sum(events + [EventOf(response, hit, now)], ChargedBy(rate)) == Sum(events, ChargedBy(rate)) +
              if hit then 0 else rate(Usage(response.model, response.promptTokens, response.completionTokens))
  {
    SumAppend(events, EventOf(response, hit, now), ChargedBy(rate));
  }

  class Service {
    const guard: Policy
    const space: char -> bool
    const hash: string -> string
    var cache: map<string, Entry>
    var events: seq<UsageEvent>
    /** The keys whose entry was stored for a plain request. */
    ghost var plain: set<string>

    ghost predicate Injective()
    {
      forall a, b :: hash(a) == hash(b) ==> a == b
    }

    /** The entry answers some plain request with the key's text. */
    ghost predicate Explained(key: string, response: Response)
    {
      exists r :: Plain(space, r) && hash(PreImage(space, r)) == key && response == Answer(space, r)
    }

    ghost predicate Valid()
      reads this
    {
      && guard.Valid() && space(' ') && Injective()
      && (forall key :: key in cache && key in plain ==> Explained(key, cache[key].response))
    }

    constructor (guard: Policy, space: char -> bool, hash: string -> string)
      requires guard.Valid() && space(' ') && forall a, b :: hash(a) == hash(b) ==> a == b
      ensures Valid() && fresh(this) && cache == map[] && events == [] && plain == {}
      ensures this.guard == guard && this.space == space && this.hash == hash
    {
      this.guard, this.space, this.hash := guard, space, hash;
      cache, events, plain := map[], [], {};
    }

    /** A plain request is served from an entry stored for one as the provider would serve it. */
    lemma HitsAnswerLikeTheProvider(r: Request)
      requires Valid() && Plain(space, r) && hash(PreImage(space, r)) in cache && hash(PreImage(space, r)) in plain
      ensures SameAnswer(space, cache[hash(PreImage(space, r))].response, Answer(space, r))
    {
      var key := hash(PreImage(space, r));
      assert Explained(key, cache[key].response);
      var q :| Plain(space, q) && hash(PreImage(space, q)) == key && cache[key].response == Answer(space, q);
      SameTextSameAnswer(space, q, r);
    }

    predicate WasHit(before: map<string, Entry>, r: Request, env: Env)
    {
      var key := hash(PreImage(space, r));
      !env.getFails && key in before && env.now < before[key].expiry
    }

    /** What the rest of `Proxy` does with a request that passed the guardrail. */
    ghost predicate Served(cache0: map<string, Entry>, events0: seq<UsageEvent>, plain0: set<string>,
                           r: Request, env: Env, outcome: Outcome)
      reads this
    {
      var key := hash(PreImage(space, r));
      var hit := WasHit(cache0, r, env);
      var stored := outcome.Answered? && !hit && env.setStores;
      // The budget decides exactly the misses.
      && (outcome.Answered? <==> hit || env.budget == Allowed)
      && (!hit && env.budget == Refused ==> outcome == BudgetExceeded)
      && (!hit && env.budget == BudgetUnavailable ==> outcome == BudgetError)
      // A miss is answered by the provider, a hit by the stored response. That is the provider's
      // answer if both the request and the one it was stored for are plain.
      && (outcome.Answered? && !hit ==> outcome.response == Answer(space, r))
      && (hit ==> outcome == Answered(cache0[key].response))
      && (hit && Plain(space, r) && key in plain0 ==> SameAnswer(space, outcome.response, Answer(space, r)))
      // Only an answered miss can change the cache, at its own key.
      && cache == (if stored then cache0[key := Entry(outcome.response, env.now + CACHE_TTL)] else cache0)
      && plain == (if !stored then plain0 else if Plain(space, r) then plain0 + {key} else plain0 - {key})
      // One event for each answer: the real usage after a miss, nothing after a hit.
      && events == events0
                   + if outcome.Answered? && env.publishes then [EventOf(outcome.response, hit, env.now)] else []
    }

    /** cache.Set after a provider call. */
    method Store(key: string, response: Response, env: Env, ghost request: Request)
      requires Valid() && key == hash(PreImage(space, request)) && response == Answer(space, request)
      modifies `cache, `plain
      ensures Valid()
      ensures cache == if env.setStores then old(cache)[key := Entry(response, env.now + CACHE_TTL)] else old(cache)
      ensures plain == if !env.setStores then old(plain)
                       else if Plain(space, request) then old(plain) + {key} else old(plain) - {key}
    {
      if env.setStores {
        cache := cache[key := Entry(response, env.now + CACHE_TTL)];
        plain := if Plain(space, request) then plain + {key} else plain - {key};
      }
    }

    /** Best-effort publication. */
    method Emit(response: Response, hit: bool, env: Env)
      modifies `events
      ensures events == if env.publishes then old(events) + [EventOf(response, hit, env.now)] else old(events)
    {
      if env.publishes {
        events := events + [EventOf(response, hit, env.now)];
      }
    }

    method Serve(request: Request, env: Env) returns (outcome: Outcome)
      requires Valid()
      modifies this
      ensures Valid() && outcome != Blocked
      ensures Served(old(cache), old(events), old(plain), request, env, outcome)
    {
      var text := Print(space, request);
      var key := hash(text);
      if !env.getFails && key in cache && env.now < cache[key].expiry {
        var cached := cache[key].response;
        if key in plain && Plain(space, request) {
          HitsAnswerLikeTheProvider(request);
        }
        Emit(cached, true, env);
        return Answered(cached);
      }
      match env.budget
      case BudgetUnavailable => return BudgetError;
      case Refused => return BudgetExceeded;
      case Allowed =>
        var response := Complete(space, request);
        Store(key, response, env, request);
        Emit(response, false, env);
        return Answered(response);
    }

    /** The same request again: within the hour it is a hit, told to metering as "cache" and
        without tokens; from then on it is a miss, told as "echo" with its tokens. */
    method ServeAgain(request: Request, env: Env, later: Env) returns (one: Outcome, two: Outcome)
      requires Valid() && hash(PreImage(space, request)) !in cache
      requires env.budget == Allowed && env.setStores && env.publishes
      requires later.budget == Allowed && !later.getFails && later.publishes
      modifies this
      ensures Valid() && one.Answered? && two.Answered?
      ensures |events| == |old(events)| + 2
      ensures var usage := Usage(one.response.model, one.response.promptTokens, one.response.completionTokens);
              && events[|events| - 2] == UsageEvent("echo", usage, env.now)
              && events[|events| - 1] == if later.now < env.now + 60 * 60
                                         then UsageEvent("cache", Usage(one.response.model, 0, 0), later.now)
                                         else UsageEvent("echo", usage, later.now)
      ensures two.response == one.response
    {
      one := Serve(request, env);
      two := Serve(request, later);
    }

    method Proxy(model: string, messages: array<Message>, env: Env) returns (outcome: Outcome)
      requires Valid()
      modifies this, messages
      ensures Valid()
      // A blocked request leaves no trace in the cache or the events.
      ensures outcome == Blocked <==> exists i :: 0 <= i < messages.Length && guard.Rejects(old(messages[i].content))
      ensures outcome == Blocked ==> cache == old(cache) && events == old(events) && plain == old(plain)
      // What is looked up, sent and stored is the redacted request.
      ensures outcome != Blocked ==> forall i :: 0 <= i < messages.Length ==>
                messages[i] == Message(old(messages[i].role), Redact(old(messages[i].content)))
      ensures outcome != Blocked ==>
                Served(old(cache), old(events), old(plain), Request(model, messages[..]), env, outcome)
    {
      var ok := guard.Check(messages);
      if !ok {
        return Blocked;
      }
      outcome := Serve(Request(model, messages[..]), env);
    }

    /** A plain request, while every stored entry comes from one. */
    method ServePlain(request: Request, env: Env) returns (outcome: Outcome)
      requires Valid() && cache.Keys <= plain && Plain(space, request)
      modifies this
      ensures Valid() && cache.Keys <= plain
      ensures outcome.Answered? ==> SameAnswer(space, outcome.response, Answer(space, request))
      ensures env.budget == Allowed ==> outcome.Answered?
    {
      outcome := Serve(request, env);
    }

    /** Any sequence of plain requests, one after the other. */
    method ServeAll(requests: seq<Request>, envs: seq<Env>) returns (outcomes: seq<Outcome>)
      requires Valid() && cache.Keys <= plain
      requires |requests| == |envs| && forall r :: r in requests ==> Plain(space, r)
      modifies this
      ensures Valid() && cache.Keys <= plain && |outcomes| == |requests|
      // Transparency: every answer is the provider's, whatever hits, expires or fails.
      ensures forall k :: 0 <= k < |requests| && outcomes[k].Answered? ==>
                SameAnswer(space, outcomes[k].response, Answer(space, requests[k]))
      ensures forall k :: 0 <= k < |requests| && envs[k].budget == Allowed ==> outcomes[k].Answered?
    {
      outcomes := [];
      for n := 0 to |requests|
        invariant Valid() && cache.Keys <= plain && |outcomes| == n
        invariant forall k :: 0 <= k < n && outcomes[k].Answered? ==>
                    SameAnswer(space, outcomes[k].response, Answer(space, requests[k]))
        invariant forall k :: 0 <= k < n && envs[k].budget == Allowed ==> outcomes[k].Answered?
      {
        var outcome := ServePlain(requests[n], envs[n]);
        outcomes := outcomes + [outcome];
      }
    }

    /** The failure without plainness: within the TTL of a request whose content swallows a
        newline and the start of an empty second message, the request with the two messages is
        answered, and not as the provider would answer it. */
    method ServeCollision(model: string, first: Message, role: string, env: Env, later: Env)
      returns (one: Outcome, two: Outcome)
      requires Valid() && !space('e') && space('\n')
      requires first.content != [] && !space(first.content[0]) && Trim(space, first.content) == first.content
      requires var joined := first.content + "\n" + role + ":"; Trim(space, joined) == joined
      requires hash(PreImage(space, Request(model, [first, Message(role, "")]))) !in cache
      requires env.budget == Allowed && env.setStores && !later.getFails && later.now < env.now + CACHE_TTL
      modifies this
      ensures Valid() && one.Answered? && two.Answered?
      ensures !SameAnswer(space, two.response, Answer(space, Request(model, [first, Message(role, "")])))
    {
      CollidingTextsDifferentAnswers(space, model, first, role);
      one := Serve(Request(model, [first.(content := first.content + "\n" + role + ":")]), env);
      two := Serve(Request(model, [first, Message(role, "")]), later);
    }
  }
}
