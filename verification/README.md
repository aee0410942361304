# MarginPilot in Dafny

MarginPilot meters what a SaaS vendor's customers spend on language models and holds them to
monthly budgets. A gateway asks the budget service whether a customer may spend, calls the
provider and publishes a usage event; metering prices the event, appends a row to ClickHouse and
increments a Redis counter; the budget service reads that counter before the next call. This
project models that loop and the algorithms around it, and proves what holds of them for every
input, every interleaving and every run.

`dafny verify dfyconfig.toml` checks everything.

## The parts

**The spend loop as a step system** (`SpendLoop`, on `Redis`, `Calendar`, `Metered` and
`Sums`; `Gregorian` ties the calendar to closed forms). Each Redis command, ClickHouse insert, provider call, publication and delivery is one step. Steps of any
number of requests and consumers interleave. The broker may repeat, drop and reorder events; a
write may fail with or without having taken effect; a process may die between the answer and the
event. A run is a sequence of steps, and the theorems quantify over all runs from an empty
platform: `RateLimiter`, `Ledgers`, `Overspend`, `StickyDenial` and `DeliveryOrder`, all on the
invariant of `Coherence`. `Emission` says which time an event bears. `Runs` builds runs step by step; `WorstCase` has one that reaches the
overspend bound, `Duplicates` one that meters an event twice.

**The services as clients of that system** (`Services`). The class `Platform` holds the shared
stores as fields; `Allow`, `AllowRate`, `SetLimit`, `handle` and `Run` are methods that update
them command by command and let the others take any scheduled steps in between. Each method keeps
the invariant that the fields are what some run of the step system produces, so every theorem
about runs is a theorem about these methods.

**The guardrail** (`Regex`, `Replace`, `Guardrail`, `Patterns`, `Longest`, `PolicyModel`). The
matcher is a backtracking search in the preference order of Go's `regexp`, over characters, with
the ASCII word boundary. The question is whether three replacement passes, each changing the word
boundaries the next one sees, leave a text without any match of any pattern. They do.

**The gateway's cache** (`Text`, `CacheKey`, `Echo`, `Gateway`). Whether a cache keyed by the
trimmed messages answers as the echo provider would.

**Prices, keys, billing views** (`Pricing`, `Pricers`, `Keys`, `Cogs`) and **the anomaly rule** (`Anomaly`,
`AnomalyLaws`, `AnomalyService`), the latter in exact integers: with n values, S their sum and Q
the sum of their squares, a value v exceeds mean + 3 * pstdev iff d > 0 and d * d > 9 * V for
d = n * v - S and V = n * Q - S * S.

## What the proofs found

- **Repeated deliveries are metered again.** `consumer.go:48-50` and `docs/ARCHITECTURE.md:49-51`
  promise that ClickHouse inserts dedupe on the event id, but the table is a plain MergeTree
  (`clickhouse.go:44`) and billing sums it as it is (`cogs.go:31`). In every run in which the
  broker does not repeat an event it has at most one row (`RowsAreBoundedByRepeats`); and wherever a request can get through, some run with one
  repeat ends with two rows of it and twice its cost on the counter (`RepeatsAreMeteredTwice`).
- **Denials end at the month's rollover, even for requests that started before it.** `Allow`
  reads the clock again when it reads the counter. Of a spent budget, a request that starts later
  in the month can get through, without the limit being set, exactly if the limit is positive and
  the rate limiter has a slot left in the month (`SlipsThroughIffSlotLeft`); every such request
  has read the counter of a later month (`DenialIsSticky`).
- **The overspend bound is tight** as far as a month has room for it: limit - 1 + 240 * price is
  reached, with every event in time, for every default limit with limit - 1 <= 120 * windows * price, if
  `windows` and two more rate windows fit in the rest of the month (`BoundIsReached`).
- **Only limits that are read count.** The bound is by the largest limit on which a request was
  decided in that month, not by the default or by what was in force at other times
  (`OverspendIsBounded`, `OverspendUnderConfiguredLimit`).
- **Crashes are on the bill.** A call whose process dies before the event is emitted costs money
  that no counter sees. The bound holds with these calls included, those past their deadline in
  the ledger of late calls (`OverspendIsBounded`).
- **The cache is transparent as long as every entry comes from a plain request** (`ServeAll`),
  one without newlines in model and trimmed contents and without newlines or colons in roles. A
  content with a newline can share its key with another request, which then gets the wrong answer
  (`ServeCollision`). A key text reads back as its request exactly if the request is plain
  (`RoundTripIffPlain`).
- **A colon in a tenant id** is exactly what lets two customers share a spend counter
  (`SharedIffColonInTenant`).
- **Customers with ten or fewer days of history can never be flagged**: of n days fewer than n/10
  are, and every such number occurs. The service's guards for short and constant histories
  therefore change nothing (`GuardsAreRedundant`).

Two further places where the code and its comments disagree, and where the model follows the
code: a failed `handle` is logged and not retried (`consumer.go:62-64`), so a loss is possible and
`CostIsConserved` carries it in a ledger of its own; and `echo.go:11-12` says that the provider
echoes the last user message, while the code echoes the last message of any role.

## Model

| member | source | states |
|---|---|---|
| Calendar.Month | shared/spend/spend.go:12-15 | the month found for a second contains that second |
| Calendar.MonthUnique | shared/spend/spend.go:12-15 | no second lies in two months |
| Calendar.MonthMonotone | shared/spend/spend.go:12-15 | months are ordered as the times in them |
| Gregorian.YearsBegin | shared/spend/spend.go:12-15 | years begin 365 days a year and the leap days y/4 - y/100 + y/400 after 1970 |
| Gregorian.MonthsBegin | shared/spend/spend.go:12-15 | within a year counted from March months begin by the rule (153 * m + 2) / 5, with no month's length assumed |
| Gregorian.FourCenturies | shared/spend/spend.go:12-15 | the calendar repeats itself after 4800 months, which are 146097 days |
| Gregorian.MonthOfDate | shared/spend/spend.go:12-15 | a second between the firsts of two consecutive months of the Gregorian calendar lies in the first |
| Gregorian.PeriodOfMonth | services/billing/internal/cogs/cogs.go:66-69 | month m of year y is numbered 100 * y + m, by billing and by the spend key's label |
| Coherence.CallsGrow | services/gateway/internal/app/service.go:71-112 | no step of anyone changes whose request it is, its rate ticket or, once stamped, its event |
| Emission.EventsBearTheirEmission | services/gateway/internal/app/service.go:95-112 | in every run the request, every delivery and every row of an event bear the time of the step that emitted it, not that of the decision or the answer |
| Emission.LateEmissionIsBilledLate | services/gateway/internal/app/service.go:71-107 | wherever a request can get through, some run decides it on this month's counter and emits it in the next, to which row and bill then belong |
| Emission.HitsAreMeteredFree | services/gateway/internal/app/service.go:62-68 | a cache hit becomes an event of the customer who made it, with its model, no tokens and no cost |
| Coherence.CoherentStep | services/metering/internal/consumer/consumer.go:68-92 | every step keeps: a permitted request was under the rate cap and below its limit when it read the counter; an answered one costs what the pricer makes of its usage; a delivery carries the event its request emitted, at that cost; it is counted only after its row was written |
| RateLimiter.RateStep | services/budget/internal/adapter/redisstore/redisstore.go:46-57 | while a bucket is open its key holds the number of attempts made in it, whether or not EXPIRE failed or came late, because the key cannot expire before the bucket ends |
| RateLimiter.RateKeyLivesOneMinute | services/budget/internal/adapter/redisstore/redisstore.go:53-55 | after the EXPIRE of a first hit its key lives exactly one minute |
| RateLimiter.BucketAdmitsExactlyTheCap | services/budget/internal/adapter/redisstore/redisstore.go:18-21 | after every run, exactly min(attempts, 120) of a bucket's attempts were under the cap |
| RateLimiter.IntervalCap | services/budget/internal/adapter/redisstore/redisstore.go:44-57 | any stretch of a run shorter than T seconds lets at most 120 * (ceil(T/60) + 1) of a customer's requests through the limiter |
| Ledgers.CounterStep | services/metering/internal/consumer/consumer.go:83-87 | a step moves a month's counter by the increment it applies and nothing else until the month's keys may expire; afterwards the counter can only fall short |
| Ledgers.LedgerStep | services/metering/internal/consumer/consumer.go:79-87 | every step keeps the counter between zero and the increments applied, equal to them while the key is safe from expiry, and the rows equal to the effective inserts |
| Ledgers.LiveCounterIsComplete | services/metering/internal/consumer/consumer.go:21-21 | in every run that never finds the key expired the counter is the sum of every increment ever applied; the 45-day TTL sees to that at least until the month is over, even if later EXPIREs fail |
| Ledgers.SpendKeyLives45Days | services/metering/internal/consumer/consumer.go:21-21 | after the EXPIRE of a handled delivery its key lives exactly 45 days, if not written |
| Ledgers.CounterNeverExceedsRows | services/metering/internal/consumer/consumer.go:79-87 | in every reachable state the Redis spend is at most the ClickHouse sum; in every run that never finds the key expired the gap is exactly the rows whose increment did not take effect |
| Ledgers.CostIsConserved | services/metering/internal/consumer/consumer.go:62-92 | in every reachable state, cost of provider answers plus cost of repeated deliveries = metered rows + not yet emitted + queued or being handled + never published + dropped or abandoned before the row |
| Overspend.BilledCountedStep | services/metering/internal/consumer/consumer.go:83-86 | the bill that has reached the counter grows only by increments that were applied |
| Overspend.ExposureStep | services/gateway/internal/app/service.go:71-92 | no step but a permission raises what punctual requests can still put on the month's bill |
| Overspend.AdmissionStep | services/budget/internal/enforcer/enforcer.go:41-69 | right after a permission on a limit of at most `limit` the counted bill is below `limit` and at most two rate windows of calls are open, wherever the month boundary falls |
| Overspend.OverspendIsBounded | services/budget/internal/enforcer/enforcer.go:41-69 | over every run, if the reads of the month's counter decide on limits of at most `limit` (no other limit matters) and the customer's calls cost at most `price`, what they cost in the month, emitted, not yet emitted or lost in a crash, is at most limit - 1 + 240 * price plus the cost of the calls not counted by the end of the rate window after their own |
| Overspend.PunctualOverspend | services/budget/internal/enforcer/enforcer.go:41-69 | with no call late, crashed ones included, that cost is at most limit - 1 + 240 * price |
| Overspend.GovernedRun | services/budget/internal/enforcer/enforcer.go:47-53 | once a limit is in force, be it the default or a configured one above or below it, later requests decide on no higher one unless a higher one is set |
| Overspend.OverspendUnderLimitInForce | services/budget/internal/enforcer/enforcer.go:41-74 | so a limit in force bounds every month whose counter was not read under a higher one before |
| Overspend.EarlierRunsAreLimited | services/budget/internal/enforcer/enforcer.go:55-59 | no month is read before it begins, so limits of earlier months do not count |
| Overspend.OverspendUnderConfiguredLimit | services/budget/internal/enforcer/enforcer.go:71-74 | a limit configured before the customer's first request bounds every month's bill, also where the default is higher |
| Runs.OneLet | services/budget/internal/enforcer/enforcer.go:41-69 | any request below cap and limit can run to its emitted event before anything of it is counted |
| Runs.OneDelivery | services/metering/internal/consumer/consumer.go:68-92 | any queued delivery can be handled to the end at once, adding its row and its cost to the counter |
| WorstCase.TwoWindowsCanBeOpen | services/budget/internal/adapter/redisstore/redisstore.go:46-57 | from any state with something left and two unused windows, some run adds 240 full-price calls to the bill with no event late |
| WorstCase.SpendWindows | services/budget/internal/adapter/redisstore/redisstore.go:46-57 | any amount that so many windows can hold and the limit leaves can be spent and counted in them to the micro |
| WorstCase.BoundIsReached | services/budget/internal/enforcer/enforcer.go:59-68 | the bound limit - 1 + 240 * price is attained, with every event in time, for every price and every default limit of which all but one micro can be spent at that price in rate windows of the month before the last two |
| Pricers.EveryAmountIsCharged | services/rating/internal/catalog/catalog.go:56-64 | under the catalog's prices every amount is the cost of some call, as the attainment asks |
| StickyDenial.ExhaustedStep | services/budget/internal/enforcer/enforcer.go:47-68 | once a month's counted spend has reached the limit in force, no step of metering or of any request changes that or lets a later request through on that month's counter |
| StickyDenial.DenialIsSticky | services/budget/internal/enforcer/enforcer.go:47-68 | with nothing left and the limit not set again, every request that starts later and is permitted has read the counter of a later month |
| StickyDenial.RolloverEndsTheDenial | services/budget/internal/adapter/redisstore/redisstore.go:29-32 | with a positive limit and room left in the rate limiter this month, now or in a later window, some run from the reachable state lets through a request whose rate check is in this month and whose counter read is in a later one, spent budget or not |
| StickyDenial.NoneWithoutSlot | services/budget/internal/enforcer/enforcer.go:41-69 | without a positive limit, or with no rate slot left in the month, no request that starts in the rest of the month gets through in any run that sets no limit |
| StickyDenial.SlipsThroughIffSlotLeft | services/budget/internal/enforcer/enforcer.go:41-69 | so a request can start later in the month and get through exactly if the limit in force is positive and a rate slot is left in the month |
| DeliveryOrder.RowsMirror | services/metering/internal/consumer/consumer.go:79-81 | over every run, any weight summed over the rows equals that weight summed over the deliveries whose insert took effect |
| DeliveryOrder.HandledLedgers | services/metering/internal/consumer/consumer.go:51-92 | if every delivery was handled, the rows and, for a key never found expired, the counter are functions of the multiset of delivered events |
| DeliveryOrder.OrderIsIrrelevant | services/metering/internal/consumer/consumer.go:51-92 | two runs that handled the same multiset of deliveries end with the same rows and, for keys never found expired, the same counters; a repeat raises both ledgers alike |
| Duplicates.RowsPerEvent | services/metering/internal/sink/clickhouse.go:44-44 | in every reachable state an event has as many rows as deliveries whose insert took effect |
| Duplicates.RowsAreBoundedByRepeats | services/metering/internal/consumer/consumer.go:48-66 | in every run an event has at most one row more than the broker repeats deliveries of it, so at most one if it repeats none |
| Duplicates.RepeatsAreMeteredTwice | services/metering/internal/consumer/consumer.go:48-66 | wherever a request can get through, some run emits its event once, delivers it twice, and ends with two rows of it and twice its cost on the counter |
| Services.CallUntouched | services/budget/internal/enforcer/enforcer.go:41-69 | whatever others do between its commands, a request's record is as it left it |
| Services.CopyUntouched | services/metering/internal/consumer/consumer.go:68-92 | whatever others do between its writes, a delivery's record is as its consumer left it |
| Services.FinishedStays | services/metering/internal/consumer/consumer.go:62-64 | no later step of anyone reopens a delivery that was handled or given up: there is no retry |
| Services.Platform.constructor | services/budget/internal/enforcer/enforcer.go:32-36 | an empty platform with the default limit |
| Services.Platform.Interfere | services/metering/internal/consumer/consumer.go:51-66 | the others' steps between two commands form a run that leaves the own record alone |
| Services.Platform.CountAttempt | services/budget/internal/adapter/redisstore/redisstore.go:47-52 | INCR answers the number of attempts and opens the request's record with it, known to the caller or not |
| Services.Platform.ExpireWindow | services/budget/internal/adapter/redisstore/redisstore.go:53-55 | EXPIRE restarts the bucket's key at 60 seconds; failure is ignored |
| Services.Platform.AllowRate | services/budget/internal/adapter/redisstore/redisstore.go:44-57 | INCR comes first, EXPIRE only after a first hit, its error ignored; the answer is whether the count is at most 120; an INCR that did not take effect leaves everything as it was |
| Services.Platform.ResolveLimit | services/budget/internal/enforcer/enforcer.go:47-53 | the limit in force: the configured one if positive, else the default |
| Services.Platform.Decide | services/budget/internal/enforcer/enforcer.go:55-68 | "rate_limit" iff the ticket is above 120, else "budget" iff limit - spent is not positive, else allowed with no reason; the remainder is limit - spent |
| Services.Platform.CheckBudget | services/budget/internal/enforcer/enforcer.go:47-68 | after the rate check, that decision on the ticket, a limit in force at its read and the spend in force at the last read |
| Services.Platform.Allow | services/budget/internal/enforcer/enforcer.go:38-69 | under every interleaving: "rate_limit" iff the ticket its INCR got is above 120; "budget" iff it is not and limit - spent <= 0; allowed iff neither; remaining is limit - spent, for a limit that was in force in between and the spend in force at its last read; an error is returned iff a command gave no reply |
| Services.Platform.AllowWhenSpent | services/budget/internal/enforcer/enforcer.go:38-69 | called with nothing left, it can allow only after the month has rolled over or the limit was set meanwhile |
| Services.Platform.ConfigureLimit | services/budget/internal/enforcer/enforcer.go:71-74 | an error iff the store reports one; a SET that worked puts the value in force, or the default for a non-positive one; no other key changes |
| Services.Platform.WriteRow | services/metering/internal/sink/clickhouse.go:48-62 | one row with the given price is appended or none, independently of whether success is reported |
| Services.Platform.Count | services/metering/internal/consumer/consumer.go:83-86 | one increment by the given price of the event's own month is applied or none |
| Services.Platform.Refresh | services/metering/internal/consumer/consumer.go:87-87 | the TTL restarts at 45 days; failure is ignored |
| Services.Platform.Settle | services/metering/internal/consumer/consumer.go:83-91 | after the row: increment, then expire, each only after the one before reported success |
| Services.Platform.Handle | services/metering/internal/consumer/consumer.go:68-92 | price, insert, increment, expire in this order, each only after the one before reported success; both writes bear what the pricer makes of the event's model and tokens; what took effect before an error stays |
| Services.Platform.ServeOne | services/metering/internal/consumer/consumer.go:54-64 | one turn takes a queued message and ends it as handled or given up, or finds nothing queued |
| Services.Platform.Run | services/metering/internal/consumer/consumer.go:48-66 | every turn of the loop does so whatever became of the turns before it |
| Regex.EndsAreMatches | services/gateway/internal/adapter/outbound/guardrail/policy.go:22-26 | the backtracking matcher finds exactly the matches of the declarative semantics |
| Regex.MatchMoves | services/gateway/internal/adapter/outbound/guardrail/policy.go:22-26 | a match depends only on its own characters and the word boundaries inside it |
| Replace.Find | services/gateway/internal/adapter/outbound/guardrail/policy.go:58-60 | the leftmost match from a position, with the matcher's preferred end; none is missed |
| Replace.OccursIffNotClean | services/gateway/internal/adapter/outbound/guardrail/policy.go:58-58 | MatchString is true iff some substring matches |
| Replace.ReplacesExactlyTheMatches | services/gateway/internal/adapter/outbound/guardrail/policy.go:60-60 | ReplaceAllString cuts out disjoint matches, keeps everything else, and no match starts in what it keeps |
| Replace.OneReplacement | services/gateway/internal/adapter/outbound/guardrail/policy.go:60-60 | a single match gives way to "[REDACTED]" and the rest stays |
| Replace.ReplaceKeepsClean | services/gateway/internal/adapter/outbound/guardrail/policy.go:57-62 | replacing one pattern leaves no match of it and brings back none of a pattern absent before |
| Guardrail.PatternsDoNotInterfere | services/gateway/internal/adapter/outbound/guardrail/policy.go:22-26 | no pattern can match across the marker, and each sees the boundaries of kept text as before a later replacement |
| Guardrail.RedactionIsComplete | services/gateway/internal/adapter/outbound/guardrail/policy.go:56-62 | for every text, no pattern matches anywhere in the redacted text |
| Guardrail.FoundNothing | services/gateway/internal/adapter/outbound/guardrail/policy.go:56-63 | `found` is set iff a pattern occurs in the original text, and otherwise the text is unchanged |
| Guardrail.RedactIsIdempotent | services/gateway/internal/adapter/outbound/guardrail/policy.go:56-62 | a second redaction changes nothing |
| Guardrail.ThreePasses | services/gateway/internal/adapter/outbound/guardrail/policy.go:56-62 | asking first whether a pattern matches changes nothing: the text goes through the email, card and phone replacements in that order |
| Patterns.EmailMatches | services/gateway/internal/adapter/outbound/guardrail/policy.go:23-23 | the first pattern matches exactly local@domain.tld as spelled out without regular expressions |
| Patterns.CardMatches | services/gateway/internal/adapter/outbound/guardrail/policy.go:24-24 | the second matches exactly 13 to 16 digits, each with at most one blank or hyphen behind it, between word boundaries |
| Patterns.PhoneMatches | services/gateway/internal/adapter/outbound/guardrail/policy.go:25-25 | the third matches exactly 3-3-4 digits with at most one gap character between groups, between word boundaries |
| Patterns.ClassesAre | services/gateway/internal/adapter/outbound/guardrail/policy.go:22-26 | the character classes, character by character |
| Patterns.BoundariesAre | services/gateway/internal/adapter/outbound/guardrail/policy.go:24-25 | a word boundary lies where exactly one side is an ASCII letter, digit or underscore |
| Patterns.RedactedTextHasNoPii | services/gateway/internal/adapter/outbound/guardrail/policy.go:56-62 | no substring of a redacted text is an email address, card or phone number in that spelled-out sense |
| Patterns.RedactedIffPii | services/gateway/internal/adapter/outbound/guardrail/policy.go:56-68 | a text counts as containing PII iff some substring is one of the three, and is untouched otherwise |
| Longest.EmailFalls | services/gateway/internal/adapter/outbound/guardrail/policy.go:23-23 | the matcher tries the ends of email matches from the longest down |
| Longest.CardFalls | services/gateway/internal/adapter/outbound/guardrail/policy.go:24-24 | likewise for cards, although groups have optional gaps |
| Longest.PhoneFalls | services/gateway/internal/adapter/outbound/guardrail/policy.go:25-25 | likewise for phone numbers |
| Longest.LeftmostLongest | services/gateway/internal/adapter/outbound/guardrail/policy.go:60-60 | what is cut out is always the longest match at the leftmost position that has one |
| Longest.EmailIsRedacted | services/gateway/internal/adapter/outbound/guardrail/policy.go:56-62 | a text that is an email address comes out as "[REDACTED]" and nothing else |
| PolicyModel.Policy.constructor | services/gateway/internal/adapter/outbound/guardrail/policy.go:34-43 | the denylist is made of the trimmed, lowered, non-blank terms |
| PolicyModel.Policy.DenylistMeans | services/gateway/internal/adapter/outbound/guardrail/policy.go:34-54 | searching the lowered content for the denylist finds exactly the configured terms, trimmed and not blank, that stand in the content character by character up to case |
| PolicyModel.Policy.IsDenied | services/gateway/internal/adapter/outbound/guardrail/policy.go:49-54 | denied iff some configured term, trimmed and not blank, stands in the content up to case |
| PolicyModel.Policy.Scan | services/gateway/internal/adapter/outbound/guardrail/policy.go:56-62 | `found` iff the original text has PII, and the text returned is the redacted one |
| PolicyModel.Policy.Check | services/gateway/internal/adapter/outbound/guardrail/policy.go:45-71 | refuses iff some original content holds a configured term up to case or, in block mode, PII; else redacts every content in place, keeping roles and order; on a refusal at message k only contents before k have changed |
| PolicyModel.CheckTwice | services/gateway/internal/adapter/outbound/guardrail/policy.go:45-71 | what any redacting policy has accepted, a blocking policy without denylist accepts unchanged |
| Text.FieldsSplitAtSpace | services/gateway/internal/adapter/outbound/provider/echo.go:55-60 | a text splits into fields at any space |
| Text.FieldsAreWords | services/gateway/internal/adapter/outbound/provider/echo.go:55-60 | a text consists of its fields, in order, which hold no space, and of blank gaps between them |
| Text.TrimIs | services/gateway/internal/app/service.go:122-122 | TrimSpace takes away blank ends and leaves no space at either end |
| Text.TrimIsUnique | services/gateway/internal/app/service.go:122-122 | texts that differ in blank ends only have the same trimmed text |
| Text.FieldsIgnoreTrim | services/gateway/internal/app/service.go:122-122 | TrimSpace does not change the fields of a text |
| CacheKey.Print | services/gateway/internal/app/service.go:114-124 | the printer's loop writes the model line and one role:content line per trimmed message |
| CacheKey.RoundTripIffPlain | services/gateway/internal/app/service.go:114-127 | a parser recovers exactly the normalised request from the text iff model and trimmed contents hold no newline and roles no newline or colon |
| CacheKey.EqualTextsEqualRequests | services/gateway/internal/app/service.go:114-127 | plain requests with equal texts have the same model, the same roles and the same trimmed contents in order |
| CacheKey.NewlinesCollide | services/gateway/internal/app/service.go:119-124 | otherwise one message with a newline can have the text of two |
| Echo.Complete | services/gateway/internal/adapter/outbound/provider/echo.go:23-53 | the reply is "echo: " and the last content; prompt tokens are the fields of all contents, at least 1; completion tokens are 1 and the fields of the last content; the total is their sum; the model is as given, or `echo-1` if empty |
| Echo.PromptFields | services/gateway/internal/adapter/outbound/provider/echo.go:25-34 | the prompt's tokens are the messages' tokens in order |
| Echo.AnswerIgnoresTrimming | services/gateway/internal/adapter/outbound/provider/echo.go:23-60 | trimming contents changes neither model nor token counts nor the fields of the reply |
| Echo.SameTextSameAnswer | services/gateway/internal/adapter/outbound/provider/echo.go:23-60 | plain requests with one cache text get the same answer |
| Echo.CollidingTextsDifferentAnswers | services/gateway/internal/app/service.go:114-127 | a whole family of colliding pairs gets different answers, so plainness is needed |
| Gateway.Service.constructor | services/gateway/internal/app/service.go:44-47 | a service with an empty cache |
| Gateway.Service.Proxy | services/gateway/internal/app/service.go:49-93 | blocked iff the guardrail rejects, then leaving cache and events alone; else what is looked up, sent and stored is the redacted request |
| Gateway.Service.Serve | services/gateway/internal/app/service.go:61-92 | a miss is answered by the provider, a hit by the stored response; if that was stored for a plain request and the request is plain, by the provider's model, counts and reply fields; only an answered miss changes the cache, at its own key; the budget decides exactly the misses; one event per published answer |
| Gateway.Service.ServeAll | services/gateway/internal/app/service.go:61-92 | transparency over histories: if all stored entries and all requests are plain, every answer in the sequence is the provider's, whatever hits, expires or fails |
| Gateway.Service.ServeAgain | services/gateway/internal/app/service.go:62-92 | the same request again is within the hour a hit, told to metering as "cache" without tokens, and later a miss, told as "echo" with its tokens |
| Gateway.Service.ServeCollision | services/gateway/internal/app/service.go:61-69 | without plainness: after a request that swallows a newline, the request that shares its key is answered within the hour, and wrongly |
| Gateway.Service.HitsAnswerLikeTheProvider | services/gateway/internal/app/service.go:62-69 | an entry stored for a plain request is, for every plain request with its key, the answer the provider would give |
| Gateway.Service.Store | services/gateway/internal/adapter/outbound/cache/redis.go:43-50 | the entry lives one hour under the request's key, or nothing is stored; entries stored for plain requests stay answers of the provider |
| Gateway.EventCharge | services/gateway/internal/app/service.go:62-68 | under any pricer a hit's event adds nothing to what the events are charged, an answer's event the price of its tokens |
| Pricing.Catalog.Seed | services/rating/internal/catalog/catalog.go:43-54 | existing rows survive, missing ones are added, nothing else appears |
| Pricing.SeededCatalog | services/rating/internal/catalog/catalog.go:66-81 | in a freshly seeded table every model, known or not, has the built-in table's rates |
| Pricing.Catalog.Charge | services/rating/internal/catalog/catalog.go:56-81 | the price is taken from the model's row, else from the default row, and is an error iff both are missing |
| Pricing.SeededPricersAgree | services/rating/internal/catalog/catalog.go:56-64 | for every model name and all tokens the seeded catalog's price is the exact cost rounded down, and the built-in table's cost is that or one micro more |
| Pricing.RoundingIsFree | services/metering/internal/pricing/pricing.go:20-28 | the built-in table too charges nothing for no tokens, whatever its errors elsewhere |
| Pricers.RowsArePriced | services/metering/internal/consumer/consumer.go:74-81 | in every reachable state each row bears the pricer's price of its own model and tokens |
| Pricers.MonthlyTotalsStayClose | services/metering/internal/pricing/pricing.go:20-28 | over any row log the two pricers' totals of a customer-month differ by at most one micro a row |
| Pricing.PricersAgree | services/metering/internal/pricing/pricing.go:20-28 | for any float error up to 1/2 the rounding price is the integer price or one micro more |
| Pricing.ExactRounding | services/metering/internal/pricing/pricing.go:26-27 | without float error the extra micro is charged exactly from half a micro on |
| Pricing.NoTokensNoCost | services/gateway/internal/app/service.go:65-67 | a cache hit's event costs nothing under either pricer |
| Pricing.TotalsStayClose | services/rating/internal/catalog/catalog.go:56-64 | over N calls the two totals differ by at most N micros, and the integer total is at most the exact cost and short by less than one micro per call |
| Pricing.SplittingNeverRaises | services/rating/internal/catalog/catalog.go:63-63 | splitting a call never raises its price and saves at most one micro |
| Pricing.MillionMoreTokens | services/rating/internal/catalog/catalog.go:56-64 | a further million input tokens adds exactly the input rate, a further million output tokens the output rate |
| Pricing.ListedPrices | services/rating/internal/catalog/catalog.go:32-41 | a million input and a million output tokens of each listed model, and of the default, cost what the catalog says |
| Pricing.PriceFitsInt64 | services/rating/internal/catalog/catalog.go:63-63 | no intermediate value leaves int64 for tokens below 2^32 and rates up to 10^9 |
| Keys.LabelIsPeriodInt | shared/spend/spend.go:12-15 | the spend key's label is the six-digit decimal of billing's month number, up to the year 9999 |
| Keys.PeriodsAreMonotone | services/billing/internal/cogs/cogs.go:66-69 | month numbers grow with time, strictly from month to month |
| Keys.PeriodIntIsInjective | services/billing/internal/cogs/cogs.go:66-69 | different months have different numbers |
| Keys.PrintIsInjective | services/budget/internal/adapter/redisstore/redisstore.go:48-48 | for tenants without a colon and four-digit years no two spend, limit or rate keys print alike, whatever the customer ids hold |
| Keys.ColonsInTenantsCollide | shared/spend/spend.go:17-21 | with a colon in the tenant two customers share a key |
| Keys.SharedIffColonInTenant | shared/spend/spend.go:17-21 | a spend key of a four-digit year is shared with another key of a colon-free tenant exactly if its own tenant holds a colon |
| Keys.SomeKeys | services/budget/internal/adapter/redisstore/redisstore.go:48-72 | what a spend, a limit and a rate key look like |
| Cogs.ByCustomer | services/billing/internal/cogs/cogs.go:28-50 | the map has an entry exactly for customers with rows this month, each equal to what `Customer` answers, and its values add up to the tenant's month |
| Cogs.CustomerIsTheRowSum | services/billing/internal/cogs/cogs.go:52-64 | billing's calendar month selects the rows of the spend key's month |
| Cogs.BillingCoversBudget | services/billing/internal/cogs/cogs.go:52-64 | in every reachable state billing reports at least what the budget service enforces against, and the difference is the rows not counted |
| Anomaly.Cauchy | services/analytics/app/main.py:100-104 | the squared sum of deviations on either side of the threshold is at most the side's size times its sum of squares |
| Anomaly.FlaggedSum | services/analytics/app/main.py:104-104 | flagged deviations add up to more than three standard deviations each |
| Anomaly.FewerThanATenth | services/analytics/app/main.py:94-104 | of n days fewer than n/10 exceed mean + 3 * pstdev |
| AnomalyLaws.FlagCountsAreExactlyThoseBelowATenth | services/analytics/app/main.py:94-104 | a number of flagged days is possible among n iff it is below n/10 |
| AnomalyLaws.GuardsAreRedundant | services/analytics/app/main.py:98-103 | the guards for short and constant histories suppress no flag; ten or fewer days are never flagged |
| AnomalyLaws.FlagsIgnoreOrder | services/analytics/app/main.py:100-105 | a flag depends only on the multiset of the history |
| AnomalyLaws.FlagsIgnoreOffsetAndUnit | services/analytics/app/main.py:100-105 | flags survive any shift and any positive change of unit |
| AnomalyLaws.RuleIsThreeSigma | services/analytics/app/main.py:100-104 | for the real population deviation sigma of the values, the integer rule holds of v iff v > mean + 3 * sigma |
| AnomalyService.HistorySelectivity | services/analytics/app/main.py:96-113 | of a customer's points fewer than a tenth are reported |
| AnomalyService.HistoryIsInOrder | services/analytics/app/main.py:91-93 | a customer's history is the rows of that customer, all of them, in the query's order |
| AnomalyService.ReportIsInOrder | services/analytics/app/main.py:103-113 | the reported days are the flagged ones, all of them, in order |
| AnomalyService.Group | services/analytics/app/main.py:91-93 | each customer's series is exactly its rows in the query's order, and each customer is visited once |
| AnomalyService.FlagHistory | services/analytics/app/main.py:97-105 | one customer's loop, with its early exits, reports exactly the flagged points in order |
| AnomalyService.Anomalies | services/analytics/app/main.py:80-113 | for every customer the report lists exactly its flagged days in order, fewer than a tenth of its history |

## Left out

- Services.Platform.Run: is the endless loop for as many turns as the caller passes; a read error of the reader is a turn in which nothing is queued.
- Services.Platform.Handle: a pricer error or malformed payload is an insert that neither works nor reports success, and the pricer does not change during a run.
- Services.Platform.AllowRate: choosing the bucket and INCR are one step, as are choosing the month and GET in the spend read; all services share one clock.
- Services.Platform.Interfere: the environment schedules whole steps; nothing preempts a Redis command.
- Ledgers.CounterNeverExceedsRows: costs are non-negative, as both pricers' are for non-negative tokens and rates.
- Pricing.PricersAgree: tokens and rates are non-negative, and the float product is an exact real plus an error of at most 1/2, not IEEE arithmetic.
- Anomaly.FewerThanATenth: exact arithmetic; rounding of Python floats in mean, pstdev and the dollar fields is not modelled.
- Gateway.Service.Serve: the hash is taken to be injective, the echo provider cannot fail, and latency and ids of responses and events are not modelled.
- Cogs.ByCustomer: the query's scan and grouping is the method's loop; query errors are not modelled.
- The widths of Redis integers, ClickHouse columns and tokens, parse errors of counter values and loss of Redis data; only the catalog's int64 range is treated.
- Unicode: which characters are space and how each is lowered are parameters; texts are sequences of characters, so invalid UTF-8 is not modelled.
- The request-level gateway and the step system are two models; they meet in the pricer, which charges nothing for a cache hit in both.
- Exactly-once metering, since no code dedupes events.
- Internals of Kafka, Redis, ClickHouse and PostgreSQL, SHA-256, random ids, JSON and protobuf encoding, gRPC, HTTP, configuration and logging.
- The notifier, budget alerts, Stripe export, identity lookup, dashboard, margin, forecast and usage timeseries: look-ups and one-line formulas.
