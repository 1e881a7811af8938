# The request engine of Aegis Gateway, proved

A Dafny model of the part of Aegis Gateway that decides what happens to a request:
the candidate loops of `generate` and `stream`, and the state machines they drive -
circuit breakers, token buckets, the semantic cache, the policy router, releases with
their evidence ledger, and the server-sent-events parser of the provider adapters.

Check it with `dafny verify dfyconfig.toml`.

## How the model is built

Each collaborator is a class with the fields and loops of its Python counterpart. A
method is proved against a function of the old state, and the properties are lemmas
about that function, mostly about whole histories of calls: `CircuitBreaker`,
`RateLimit`, `Cache` (with `Embedding`), `Router`, `Release` (with `Percentile`), `Sse`.

`Engine` is one request as a state machine. Whatever a request learns - clock
readings, admissions, provider replies, stream events - is an arbitrary observation,
and whatever it does goes into a journal: circuit calls, provider calls, ledger rows,
cache writes, client events, background tasks. `EngineProofs` has what every step
keeps and what follows for whole calls.

`Service` is the gateway itself, over the shared collaborators. Wherever the source
awaits a collaborator or a provider, other calls may act: the methods take an arbitrary
sequence of effects of other calls at each such point, and the clock has a reading of its
own wherever the source reads it. (The limiter, the cache and the circuits hold their locks
without awaiting anything, so in one event loop a call on them never waits, and a routing
decision asks all circuits without a break.) `SharedLog` names
those effects, and the shared state is the replay of their log. `Generate` and `Stream`
are proved to end as the engine says and to have had exactly two groups of effects of
their own: first what they ask before the loop, in the order of the code, each answered
by the shared state at that point of the log (`Sightings`); then the effects of their
journal. The other calls are assumed to have only effects that calls of the gateway can have,
and each call is proved to have only such effects itself.

What the engine computes is also said in the words of its inputs, without the functions
that compute it: `Contracts` for routes and their reasons, `Answers` for answers, failures,
rows and writes, `Rollout` for what a release does to a call, `Lanes` for who may share
cached answers.

`Runs` has the properties of whole runs of calls: what a cache hit may return, which
rows judge a release, what runs in the background. `Histories` has what holds between the
effects of all calls in the log, and the deadlines of a call by the clock of its world.
`Speakers`, `LostProbe`, `Transcripts` and `SseStandard` have the exact conditions of
promises that do not hold in general. `LimiterClock` has the exact condition on the clock
under which a tenant never gets more than a burst plus the refill of a window: monotonic
time, as `docs/reliability.md:65` has it, is enough, but a clock may also go back, as long
as between any two readings its steps forwards add up to no more than the two are apart.

Times, scores and money are reals, so rounding is not modelled. The clock, the prompt
renderer, the JSON decoder, the schema validator, the digest and the square root are
parameters. The hashes of the cache key are injective: a scope hash is the scope, a
fingerprint is scope plus transcript.

## What the code does that its documents do not say

- `docs/decisions/0002-no-midstream-provider-switch.md:20` gives every exposed stream one
  provenance. Deltas and the final event have one; start events of abandoned routes may
  precede them. All events name one route exactly when at most one of the candidates tried
  speaks (`Speakers.StreamNamesOneRouteIff`).
- `docs/reliability.md:96-97` lets a probe fail or succeed. A third outcome exists: an answer
  that does not meet the schema records nothing, and the route then refuses everything until
  some other call records an outcome (`LostProbe.SchemaViolationLosesTheProbe`).
- A schema on which the validator itself fails is not rejected on arrival. The exception
  leaves the loop: no fallback, no circuit record, no row of evidence
  (`EngineProofs.GenerateReturnsIff`, `EngineProofs.GenerateAccounting`).
- A success that comes back late closes an OPEN circuit at once
  (`CircuitBreaker.LateSuccessCloses`).
- `docs/request-lifecycle.md:52-65` draws the cache before the release assignment. The code
  assigns first, and the assignment decides the cache namespace; the model follows the code.
- `create` stores any release state, so one ACTIVE release per name holds exactly as long as
  nothing is created ACTIVE beside another (`Release.CreateKeepsSingleActiveIff`).
- A shadow call renders its prompt a second time, so the shadow model is asked something else
  than the user's model whenever a prompt is used (`Runs.ShadowAsksTheSameIff`).
- The transcript of the cache key leaves out names and does not show where a message ends
  (`Transcripts.DeterminedIff`, `Transcripts.CleanTextsShowTheirLines`). What depends on the
  length of the messages (context window, predicted cost) is promised for a hit exactly when
  the request that was answered is estimated at least as long (`Router.BudgetCarriesOverIff`,
  `Runs.HitsFromLongerRequestsFitWhole`, `Runs.HitsFitWholeIff`).
- The namespace of a release joins its id and its preferred route by ":route:". Two releases
  that read alike would share answers; that takes a preferred route with a colon in it, which
  the id of a route never has but the release record does not forbid (`Lanes.UnmistakableIff`,
  `Lanes.RouteIdsTellReleasesApart`).
- A failed request whose schema is the empty object leaves a row that says nothing of a schema,
  though its answer would have been checked (`Answers.GenerateFailureLeaves`).
- An assessment rolls back what it read as a candidate even if it has been promoted meanwhile
  (`Release.StillCandidateIff`).
- The fallback count of a failure after the first delta leaves out the candidate that failed
  (`EngineProofs.StreamAccounting`).

## Model

| member | source | states |
|---|---|---|
| Service.GatewayService.Generate | src/aegis_gateway/control/service.py:72-254 | Under every interleaving with other calls: before its loop the call asks exactly the limiter, the live release, the cache and the circuits that the code asks, in that order and once each, and is told what the shared state says at these points of the log; after that its effects are exactly those of its journal, circuit calls first, then rows, then cache writes, each with its own reading of the clock; outcome and background tasks are those of the pure `generate` run over what it was told; a fresh answer is what the provider of one candidate replied to the budget it was told, a cached one what the cache held; any answer fits its request and lane; the shared state is still the replay of the log |
| Service.GatewayService.Stream | src/aegis_gateway/control/service.py:256-507 | The same for `stream`, together with the events its client receives |
| Service.GatewayService.Arrive | src/aegis_gateway/control/service.py:82-126 | What precedes the loop: exactly one token of the tenant for a user call, then the live release, the cache and the circuits as far as the code asks them, nothing else; each answer is that of the shared state at its own point of the log, and these points lie in the order of the code |
| Service.GatewayService.ArriveInLane | src/aegis_gateway/control/service.py:86-126 | A request past the limiter asks for the live release, looks into the cache in the namespace of its lane, and is routed over the circuits, in that order, each step only where the code takes it |
| Service.GatewayService.RouteInLane | src/aegis_gateway/control/service.py:119-126 | The candidates are those of the routing decision over the circuits asked |
| Service.GatewayService.TryGenerate | src/aegis_gateway/control/service.py:127-254 | The candidate loop: it ends with a response, a blamed error or the exception of a failed validator, having heard the clock and the provider of each candidate it asked |
| Service.GatewayService.AttemptGenerate | src/aegis_gateway/control/service.py:133-239 | One candidate past the deadline check: the effects are those of one step of the loop, and the provider is told the budget that was left at the check; the circuit reads the clock again |
| Service.GatewayService.TryStream | src/aegis_gateway/control/service.py:327-507 | The streaming loop, with the events sent so far |
| Service.GatewayService.AttemptStream | src/aegis_gateway/control/service.py:335-493 | One streaming candidate: the events are forwarded as they come, and success, fallback and interruption have the effects of one step |
| Service.GatewayService.InterruptStream | src/aegis_gateway/control/service.py:424-435 | A failure after the first delta writes one error row for that route, starts the assessment of a canary, and ends the call |
| Service.GatewayService.EndStream | src/aegis_gateway/control/service.py:380-436 | A stream that ended is accepted when its whole text meets the schema; otherwise it falls back before the first delta and is interrupted after it; a failing validator ends the call without a record or a row |
| Service.GatewayService.BreakStream | src/aegis_gateway/control/service.py:448-493 | A stream that failed or ran out of time records a failure and falls back before the first delta, and is interrupted after it |
| Service.GatewayService.ForwardEvents | src/aegis_gateway/control/service.py:351-380 | Events sent, text, delta flag and token counts of one provider stream |
| Service.GatewayService.StreamHit | src/aegis_gateway/control/service.py:271-313 | A hit as a stream: start, one delta with the whole text, one row of evidence, done |
| Service.GatewayService.Settle | src/aegis_gateway/control/service.py:154-184 | An accepted answer: one success record, at most one row, at most one cache write, the background tasks |
| Service.GatewayService.Fail | src/aegis_gateway/control/service.py:563-595 | The evidence of a failure: one error row, and the assessment of a canary |
| Service.GatewayService.GiveUp | src/aegis_gateway/control/service.py:241-254 | A loop that is over without a response ends the call with its last error; such an error exists |
| Service.GatewayService.GiveUpStream | src/aegis_gateway/control/service.py:495-507 | The same for `stream` |
| Service.GatewayService.Conclude | src/aegis_gateway/control/service.py:241-254 | After the loop the last error is raised, with one row unless this is an evaluation; both assertions hold |
| Service.GatewayService.Decide | src/aegis_gateway/control/service.py:119-125 | The decision of the router over the circuits, which it asks one after the other, each with its own reading of the clock, and for nothing else |
| Service.GatewayService.LookUp | src/aegis_gateway/control/service.py:94-98 | The cache answers what the replay of the log says, and a hit fits its reader |
| Service.GatewayService.TakeToken | src/aegis_gateway/control/service.py:83-84 | Takes exactly one token of this tenant; the answer is what the replay of the log says at that point |
| Service.GatewayService.LiveRelease | src/aegis_gateway/control/service.py:91 | Asks once which release is live; the answer is one that the replay of the log allows at that very point |
| Service.GatewayService.Perform | src/aegis_gateway/control/service.py:72-507 | Any effect that a call of the gateway may have keeps the shared state equal to the replay of the log |
| Service.SyncedCacheIsSafe | src/aegis_gateway/control/service.py:94-98 | In any reachable shared state, whatever the cache would answer to any reader at any time fits that reader |
| Runs.HitsFitTheReader | src/aegis_gateway/control/service.py:92-98 | In every run of generate, stream and clear calls a hit meets the reader's capability, privacy, region and latency constraints, validates against the reader's schema, and comes from the forced route in a forced namespace |
| Runs.WritesFit | src/aegis_gateway/control/service.py:181-182 | Only user calls that are neither canary nor bypassing fill the cache, each only with the fresh response it returns, and that response fits its request |
| Runs.EveryAnswerFits | src/aegis_gateway/control/service.py:72-184 | Every answer of a call, fresh or cached, fits its request and lane, names the request, and comes from the forced route when one is forced |
| Runs.NamespaceForces | src/aegis_gateway/control/service.py:644-650 | No release or default namespace can be mistaken for that of a forced route |
| Runs.RowsTellLanesApart | src/aegis_gateway/control/service.py:533-595 | Rows name their request and tenant and say whether the call succeeded; a canary row is never a hit nor a shadow row; shadow rows are exactly those of shadow calls; a hit costs nothing |
| Runs.AtMostOneBackgroundTask | src/aegis_gateway/control/service.py:597-632 | A user call starts at most one background task, other calls none; a shadow call bypasses the cache, has shadowing switched off and is started only after a response |
| Runs.ReleasesAreJudgedByRealCanaries | src/aegis_gateway/control/release.py:61-67 | The rows by which a release is judged are canary rows of that release, none a hit or a shadow row |
| Runs.ShadowAsksTheSameIff | src/aegis_gateway/control/service.py:607-626 | A shadow request still names its prompt, so it is rendered again: both models are asked the same exactly when the request has no prompt |
| Runs.WritesFitWhole | src/aegis_gateway/control/service.py:181-182 | Whatever a call writes to the cache meets the whole contract of its own request, context window and cost included |
| Runs.HitsFromLongerRequestsFitWhole | src/aegis_gateway/control/cache.py:75-99 | In every run a hit comes from one put, and if that request was estimated at least as long, the answer meets the reader's whole contract, context window and cost included |
| Runs.HitsFitWholeIff | src/aegis_gateway/control/cache.py:139-160 | For a writer without a prompt that may fill the cache and a reader of the same key in the default namespace: whatever any gateway answers to the writer and caches meets the reader's whole contract, budget included, exactly when the reader is not estimated longer |
| Runs.LongerReadersMayMissTheirBudget | src/aegis_gateway/control/cache.py:139-160 | For every longer such reader there are a gateway and a call in which it answers the writer within the whole contract and fills the cache, and the hit that the reader then gets misses the reader's budget |
| Runs.ContextFitDoesNotCarryOver | src/aegis_gateway/control/cache.py:157-159 | Such a pair exists: one text, read as one message or as two; so hits that meet the whole contract of their reader are not promised for it |
| LostProbe.SchemaViolationLosesTheProbe | src/aegis_gateway/control/service.py:185-194 | Whichever candidate of `generate` was the half-open probe: if its answer does not meet the schema, the call never records an outcome on that route, whatever follows, and the route refuses everything at any time until another call records one |
| LostProbe.StreamViolationLosesTheProbe | src/aegis_gateway/control/service.py:421-436 | The same for `stream` |
| Answers.GenerateAnswersAreReplies | src/aegis_gateway/control/service.py:146-172 | For every context and everything it sees: what `generate` returns at candidate i is the reply of that candidate's provider - text, model, token counts and first-token time - priced at the route's prices of a million tokens, timed from the start of the call to the reading after the record, with the count of failed candidates before it and its regret |
| Answers.StreamAnswersAreStreams | src/aegis_gateway/control/service.py:366-410 | What `stream` returns is what that candidate's provider streamed to its end: the deltas joined, the counts of the last event that has some, the time to the first delta |
| Answers.AnswersComeFromTheWorld | src/aegis_gateway/control/service.py:72-172 | The answer of a call is what the provider in its world replied to the budget it was told, at the readings of that world |
| Answers.GenerateFailureLeaves | src/aegis_gateway/control/service.py:185-254 | A failed `generate` raises the failure of the last candidate tried, or a timeout if none was in time, and leaves one row that names that candidate, the code of the error and the time of the call; an evaluation leaves none |
| Answers.StreamFailureLeaves | src/aegis_gateway/control/service.py:421-507 | The same for `stream`, where a failure after the first delta is told as an interruption or a schema violation, at the reading at which it came |
| Answers.InvalidRequestsEndTheChain | src/aegis_gateway/control/service.py:238-239 | After a failure of the provider the next candidate is tried, exactly unless the provider calls the request invalid |
| Answers.AnswerLeaves | src/aegis_gateway/control/service.py:173-184 | A call that has answered leaves one row that repeats the figures of its answer, none for an evaluation; and it writes its answer to the cache exactly when it is a user's call, no canary, and does not bypass the cache |
| Answers.HitLeaves | src/aegis_gateway/control/service.py:101-117 | A call answered from the cache leaves one row that repeats the figures of its answer, and no write |
| Answers.EntryInWords | src/aegis_gateway/control/service.py:82-126 | Without a prompt it can render or a token a call stops; a user's call that is no canary and asks for default caching is answered by what the cache has, marked as a hit without cost; any other is routed, and stops exactly when no route may serve it; a rendered prompt comes first among the messages and changes nothing else |
| Lanes.NamespacesAgreeIff | src/aegis_gateway/control/service.py:644-650 | Two lanes share cached answers exactly when they force the same route, or force none and belong to the same release with the same preference or to none; or when the two releases with their preferences read alike |
| Lanes.UnmistakableIff | src/aegis_gateway/control/service.py:647-649 | A release and its preference are told apart from all others exactly when the separator stands nowhere else in their text |
| Lanes.RouteIdsTellReleasesApart | src/aegis_gateway/control/service.py:647-649 | Releases whose preferences have no colon, as route ids have none, never read alike |
| Lanes.HitsStayInTheirLane | src/aegis_gateway/control/cache.py:75-99 | In every run a hit read in a lane was written by a call in the same lane, unless the two releases read alike, which a release with an unmistakable text never does |
| Lanes.HitsStayInTheirRelease | src/aegis_gateway/control/service.py:93-98 | In every run in which releases name routes, a hit was written by a call with the same forced route, or of the same release with the same wanted route, or outside of releases if the reader is: after a promotion nobody gets the answers of the release before |
| Lanes.SyncedCacheKeepsLanesApart | src/aegis_gateway/control/service.py:94-98 | The same in any shared state that the gateway reaches |
| Rollout.FirstRoute | src/aegis_gateway/control/release.py:38-60 | The first candidate is the route that the release wants exactly when that may serve the request, and otherwise one without regret; a forced route is the only candidate |
| Rollout.ReleaseDecidesTheFirstRoute | src/aegis_gateway/control/release.py:38-60 | With a release under test a canary tries the candidate route first and everybody else the baseline, with an ACTIVE one the candidate route, exactly when that route may serve; who is a canary is told from the digest of release and request |
| Rollout.LaneIsWanted | src/aegis_gateway/control/release.py:38-60 | Preference, release, canary mark and shadow route of a call, from its release, its request and the digest |
| Rollout.BackgroundIff | src/aegis_gateway/control/service.py:597-632 | An assessment is started exactly when a canary has ended its loop, well or badly; one shadow call exactly when the request was to be shadowed and was answered, with the request as it was asked, on the candidate route, outside of cache and stream |
| Rollout.RowsNameTheirRelease | src/aegis_gateway/control/service.py:533-595 | A row is a canary row, and names a release, exactly as the release wanted of its call |
| Contracts.ReasonsSayWhatIsMissing | src/aegis_gateway/control/router.py:72-98 | Each reason against a route is given exactly when the route lacks that very thing: restricted data needs local routes, confidential data routes without retention unless the request asks for more, other data the mode the request asks for; tokens and price are counted out |
| Contracts.DecisionInWords | src/aegis_gateway/control/router.py:56-132 | The decision offers exactly the routes that may serve the request, each with its price, latency and utility written out, and rejects every other one with its reasons |
| Contracts.TriedRoutesMayServe | src/aegis_gateway/control/service.py:119-132 | Every candidate that a call has is a route of the catalogue that may serve its request |
| Contracts.HitsKeepThePolicy | src/aegis_gateway/control/cache.py:75-99 | In every run a hit comes from a route that suits its reader; so confidential data is never answered by what a route that retains data has said |
| Contracts.EstimateIsTokens | src/aegis_gateway/providers/base.py:152-159 | The estimate of a request is a quarter of the characters of each message, rounded up and at least one, and four more |
| Contracts.PriceIsPredicted | src/aegis_gateway/control/router.py:157-164 | Costs are input tokens at the input price and output tokens at the output price of a million |
| Histories.SyncedCacheKeepsThePolicy | src/aegis_gateway/control/service.py:94-98 | In any state that the gateway reaches its cache answers a reader only from routes that suit the reader |
| Histories.AnswersKeepThePolicy | src/aegis_gateway/control/service.py:72-184 | Whatever a call answers comes from a route that suits its request |
| Histories.ProbesOfTheLogAreSeparated | src/aegis_gateway/control/circuit_breaker.py:60-92 | Over the effects of all calls together: between any two calls that a half-open circuit of a route admits, some call has recorded an outcome on that route |
| Histories.AdmissionsAreBounded | src/aegis_gateway/control/rate_limit.py:35-52 | Over all calls together: of the user calls of one tenant no more are admitted in any window than a burst plus the refill of that window, when the readings taken for that tenant meet the condition of `LimiterClock.WindowBoundIff` |
| Histories.AdmittedCallsAreCounted | src/aegis_gateway/control/service.py:83-84 | Every user call that is told it has its token is one of those counted |
| Histories.CallsMeetTheirDeadline | src/aegis_gateway/control/service.py:134-152 | For any `generate` or `stream` call in a world whose clock does not go back and whose provider timeouts are exact: every attempt is decided on within the caller's latency after the start of the call, and ends within it but for the time between decision and call |
| EngineProofs.GenerateAccounted | src/aegis_gateway/control/service.py:131-239 | Invariant of the loop: the routes tried are a prefix of the candidates, all of them failed and counted while the loop goes on, and nothing is written before it settles |
| EngineProofs.StreamAccounted | src/aegis_gateway/control/service.py:326-493 | The same for `stream` |
| EngineProofs.EnterIsReady | src/aegis_gateway/control/service.py:119-126 | The loop starts with at least one candidate, no route twice, all of them feasible routes of the catalogue |
| EngineProofs.TargetsFollowTheDecision | src/aegis_gateway/control/service.py:126-132 | The candidates tried are those of the decision, the selected one first, each with its own regret |
| EngineProofs.GenerateAccounting | src/aegis_gateway/control/service.py:127-254 | For whatever `generate` sees: routes tried are a duplicate-free prefix of the order; success at position i has fallback count i; failure counts the failed candidates, or 1 if the deadline was gone at once; exactly one row, none for an evaluation and none when the validator fails |
| EngineProofs.StreamAccounting | src/aegis_gateway/control/service.py:323-507 | The same for `stream`, except that a failure after the first delta does not count the candidate that failed |
| EngineProofs.EntryAccounting | src/aegis_gateway/control/service.py:82-126 | A call rejected before the loop leaves no row and asks no circuit; a hit leaves one row without cost |
| EngineProofs.StreamHasOneProvenance | src/aegis_gateway/control/service.py:326-507 | For every sequence of provider events and failures: deltas and final event name one route; the final event comes at most once, last, exactly when the call returns, with the response, whose text is the concatenation of the deltas; a delta comes from the last route tried |
| EngineProofs.NothingAfterTheRoundOfADelta | src/aegis_gateway/control/service.py:368-377 | Once a delta is out, nothing that happens later makes the stream try another route, send or write more |
| Speakers.StreamNamesOneRouteIff | src/aegis_gateway/control/service.py:356-377 | For every call and everything it sees: all events of a stream name one route exactly when at most one of the candidates tried starts, sends a delta or is accepted |
| Speakers.StartsMayNameSeveralRoutes | src/aegis_gateway/control/service.py:357-364 | The condition fails for a concrete stream whose first two candidates start and fail |
| EngineProofs.GenerateMeetsDeadline | src/aegis_gateway/control/service.py:134-152 | On a clock that does not go back, every attempt of a chain of any length is decided on before the caller's deadline, has exactly the rest as timeout, and ends by the deadline but for the time between decision and call; no attempt is decided on before the earlier ones have ended, and the budgets told to providers never grow |
| EngineProofs.StreamMeetsDeadline | src/aegis_gateway/control/service.py:336-356 | The same for `stream` |
| EngineProofs.GenerateReturnsIff | src/aegis_gateway/control/service.py:131-239 | `generate` returns the answer of candidate i exactly when i is in time, admitted, and answers with a text that meets the schema, and every earlier one failed in a way that allows a fallback; it dies of an exception exactly when the validator fails on such an answer |
| EngineProofs.StreamReturnsIff | src/aegis_gateway/control/service.py:326-493 | The same for `stream`, where a failure after a delta allows no fallback |
| EngineProofs.GenerateRecordsUnlessSchemaViolated | src/aegis_gateway/control/service.py:144-239 | Every record answers the admission just before it, and an admission goes unanswered exactly when the answer violates the schema |
| EngineProofs.StreamRecordsUnlessSchemaViolated | src/aegis_gateway/control/service.py:346-493 | The same for `stream` |
| Engine.Validate | src/aegis_gateway/control/service.py:678-686 | A text is accepted exactly when it decodes and conforms to the schema, if there is one; the validator's own failure, as on a malformed schema, is neither acceptance nor violation |
| CircuitBreaker.CircuitIsItsHistory | src/aegis_gateway/control/circuit_breaker.py:52-116 | A circuit is a function of its call history: failure count = trailing run of failures, CLOSED = run below the threshold, HALF_OPEN = somebody looked after the recovery time, probe flag = somebody was admitted since, opening time = latest failure |
| CircuitBreaker.AdmissionRule | src/aegis_gateway/control/circuit_breaker.py:60-70 | With a monotone clock a request passes exactly when the trailing failures are below the threshold, or the recovery time since the latest failure is over and nobody has probed |
| CircuitBreaker.NothingAdmittedWhileOpen | src/aegis_gateway/control/circuit_breaker.py:60-65 | After the opening failure, with no success recorded, nothing is admitted within the recovery time of the latest failure |
| CircuitBreaker.ProbeHoldsUntilRecord | src/aegis_gateway/control/circuit_breaker.py:66-69 | A probe in flight is ended by records only, never by time |
| CircuitBreaker.ProbeImpliesHalfOpen | src/aegis_gateway/control/circuit_breaker.py:66-69 | A set probe flag implies HALF_OPEN |
| CircuitBreaker.ProbesAreSeparatedByRecords | src/aegis_gateway/control/circuit_breaker.py:60-92 | Under any interleaving, between two admissions that return HALF_OPEN there is a recorded outcome |
| CircuitBreaker.RoutesAreIndependent | src/aegis_gateway/control/circuit_breaker.py:51-58 | The circuit of a route is the replay of the calls on that route |
| CircuitBreaker.CircuitBreakers.IsAvailable | src/aegis_gateway/control/circuit_breaker.py:52-58 | Advances the circuit and answers whether a request would be admitted, without taking the probe |
| CircuitBreaker.CircuitBreakers.BeforeRequest | src/aegis_gateway/control/circuit_breaker.py:60-70 | Advances the circuit, admits or refuses, and takes the probe of a half-open circuit |
| CircuitBreaker.CircuitBreakers.RecordSuccess | src/aegis_gateway/control/circuit_breaker.py:72-79 | Closes the circuit and clears its counters |
| CircuitBreaker.CircuitBreakers.RecordFailure | src/aegis_gateway/control/circuit_breaker.py:81-92 | Counts the failure and opens at the threshold or from HALF_OPEN |
| CircuitBreaker.CircuitBreakers.Snapshots | src/aegis_gateway/control/circuit_breaker.py:94-107 | Advances every circuit, each by its own reading of the clock, and reports it |
| RateLimit.TokenBucketLimiter.Consume | src/aegis_gateway/control/rate_limit.py:35-52 | Answer and new bucket: refill since the last call up to the burst, then grant or refuse; an amount outside (0, burst] is an error and changes nothing |
| RateLimit.LevelStaysInRange | src/aegis_gateway/control/rate_limit.py:42-51 | In every run the level stays in [0, burst] |
| RateLimit.GrantedPlusLeft | src/aegis_gateway/control/rate_limit.py:43-51 | For one key whose own readings do not go back: tokens granted since s plus tokens left are at most burst + rate * (elapsed since s), whatever other keys see |
| LimiterClock.WindowBoundIff | src/aegis_gateway/control/rate_limit.py:35-52 | The clocks on which the bound holds: given the readings that the calls on one key see, for all limits, all amounts and all windows [s, t] the tokens granted are at most burst + rate * (t - s), exactly when between any two of these readings the clock goes forwards by no more than they are apart |
| LimiterClock.SteadyClockBounds | src/aegis_gateway/control/rate_limit.py:42-51 | On such a clock the bound holds for a key, whatever other keys see |
| LimiterClock.WindowBound | src/aegis_gateway/control/rate_limit.py:35-52 | In particular, for one key whose own readings do not go back, the tokens granted between any s and t are at most burst + rate * (t - s), whatever other keys see |
| LimiterClock.ThreeReadingsIff | src/aegis_gateway/control/rate_limit.py:43-45 | Of three readings of which the second has gone back, the bound is kept exactly when the third is at most halfway up again |
| LimiterClock.BackwardClockBreaksTheBound | src/aegis_gateway/control/rate_limit.py:43-45 | The readings 10, 0, 10 break the bound and 10, 0, 4 keep it; a tenant that asks for one token each time gets two at once |
| RateLimit.KeysAreIsolated | src/aegis_gateway/control/rate_limit.py:42 | What other keys do makes no difference to an answer |
| RateLimit.RejectedCallsAreInvisible | src/aegis_gateway/control/rate_limit.py:42-50 | Lazy refill refines continuous refill: erasing all rejected calls of a run changes no other answer, and no level of a key from its latest reading on; only the readings of each key by itself must not go back |
| RateLimit.RetryAfterIsExact | src/aegis_gateway/control/rate_limit.py:46-50 | After a rejection, with nothing else granted on the key, the same call succeeds at a later time exactly when `retry_after` has passed, however often it was tried in between |
| Embedding.Cosine | src/aegis_gateway/control/cache.py:163-168 | The loop over the smaller map computes the full dot product |
| Embedding.Embed | src/aegis_gateway/control/cache.py:33-43 | The loop over the tokens computes signed counts scaled to length one |
| Embedding.ScoreIsDot | src/aegis_gateway/control/cache.py:168 | The score equals the dot product over any range that covers one of the vectors |
| Embedding.ScoreSymmetric | src/aegis_gateway/control/cache.py:163-168 | The score is symmetric |
| Embedding.EmbeddingIsUnit | src/aegis_gateway/control/cache.py:40-43 | An embedding is empty or has squared norm 1 |
| Embedding.EmbeddingInCounts | src/aegis_gateway/control/cache.py:38-47 | Each coordinate is in proportion to the number of tokens that hash to it with an odd byte less those with an even one |
| Embedding.EmbeddingEmptyIffCancelled | src/aegis_gateway/control/cache.py:40-42 | It is empty exactly when the signed counts all cancel |
| Embedding.ScoreInRange | src/aegis_gateway/control/cache.py:163-168 | The score of two embeddings lies in [-1, 1] |
| Embedding.EmbeddingForgetsOrder | src/aegis_gateway/control/cache.py:33-43 | An embedding depends on the multiset of tokens only |
| Cache.SemanticCache.Get | src/aegis_gateway/control/cache.py:75-99 | Drops expired entries, answers, and moves the answering entry to the end |
| Cache.SemanticCache.BestMatch | src/aegis_gateway/control/cache.py:87-95 | The scan finds the most similar entry of the scope at or above the threshold, the last one among equals |
| Cache.SemanticCache.Put | src/aegis_gateway/control/cache.py:101-120 | Replaces or appends the entry at the end, then drops from the front down to the limit |
| Cache.SemanticCache.EvictExpired | src/aegis_gateway/control/cache.py:133-136 | Popping the expired keys one by one leaves exactly the live entries in order |
| Cache.SemanticCache.Clear | src/aegis_gateway/control/cache.py:122-126 | Empties the cache and reports its size |
| Cache.SemanticCache.Size | src/aegis_gateway/control/cache.py:128-131 | Counts the live entries |
| Cache.HitIsExactElseMostSimilar | src/aegis_gateway/control/cache.py:75-99 | A hit is the exact live entry, or else a live entry of the same scope with the highest score at or above the threshold; there is none exactly when no such entry exists |
| Cache.TiesGoToTheMostRecentlyTouched | src/aegis_gateway/control/cache.py:87-99 | In every run, of the live entries of the scope that are equally similar, the one that was last put or last answered is the hit |
| Cache.EntriesAreOrderedByLastTouch | src/aegis_gateway/control/cache.py:84-99 | In every run the entries are ordered by last touch, keys are distinct and the size limit holds |
| Cache.PutDropsOnlyTheLeastRecent | src/aegis_gateway/control/cache.py:116-120 | Overflow drops the least recently touched entry, nothing else, and never the one just put |
| Cache.EveryEntryWasPut | src/aegis_gateway/control/cache.py:117-118 | Every entry is the latest thing put under its key since the last clear |
| Cache.EntriesAreStoredFresh | src/aegis_gateway/control/cache.py:108-116 | What is stored is the response as it was put, not marked as a hit, for the time to live from the put on, under its tenant and namespace |
| Cache.HitComesFromLivePut | src/aegis_gateway/control/cache.py:75-120 | A hit comes from one put of the same tenant, namespace, cost, token, temperature and prompt settings that has not expired, been cleared or been replaced; the response is unchanged but for the mark; the transcripts are equal or similar enough |
| Transcripts.CleanTextsShowTheirLines | src/aegis_gateway/control/cache.py:157 | For messages with one of the five roles and some content: without a border like a line break, a role and a colon inside a content, two lists have one text exactly when roles and contents agree, whatever the names |
| Transcripts.SplittingKeepsTheText | src/aegis_gateway/control/cache.py:157 | Any message whose content holds such a border has, wherever it stands, the text of the two messages it looks like |
| Transcripts.DeterminedIff | src/aegis_gateway/control/cache.py:157 | The text of valid messages determines their roles and contents exactly when there is at most one message and its content holds no border with text on both sides |
| Transcripts.TranscriptIsNotInjective | src/aegis_gateway/control/cache.py:157 | Lists of one text that differ by a border, and by a name |
| Cache.ReorderedWordsAlwaysHit | src/aegis_gateway/control/cache.py:87-99 | A request with the words of a live entry in another order hits at any threshold |
| Router.PolicyRouter.Decide | src/aegis_gateway/control/router.py:56-132 | The decision over the circuits, and the circuits after asking each of them once, each with its own reading of the clock |
| Router.PolicyRouter.Filter | src/aegis_gateway/control/router.py:72-107 | The loop sorts the catalogue into candidates and rejections with their reasons |
| Router.PolicyRouter.FailedChecks | src/aegis_gateway/control/router.py:73-95 | The checks that a route fails, in the order of the code |
| Router.PolicyRouter.FillRegrets | src/aegis_gateway/control/router.py:114-116 | Regrets are distances to the best utility, never negative |
| Router.ReasonsExactlyWhenInfeasible | src/aegis_gateway/control/router.py:73-98 | A route has no reason against it exactly when it meets the request contract |
| Router.DecisionForgetsCatalogueOrder | src/aegis_gateway/control/router.py:113-123 | For fixed availability, candidates, regrets and the selected route do not depend on the order of the catalogue |
| Router.DecisionPartitionsCatalogue | src/aegis_gateway/control/router.py:72-107 | Candidates and rejections partition the catalogue by feasibility, and every rejection has a reason |
| Router.RankedMembers | src/aegis_gateway/control/router.py:99-116 | Candidates stand for exactly the feasible routes, no id twice |
| Ordering.StringLeqIsLexicographic | src/aegis_gateway/control/router.py:113 | The order of route ids is lexicographic by code point |
| Router.RegretsGrowAlongTheRanking | src/aegis_gateway/control/router.py:113-116 | A later candidate has no more utility, at equal utility no less cost, at equal cost no smaller id; the regret is the exact distance to the best and does not decrease |
| Router.FeasibilityIsMonotone | src/aegis_gateway/control/router.py:72-98 | Higher budgets, fewer tokens or capabilities, or more regions only enlarge the feasible set |
| Router.PreferenceOnlySelects | src/aegis_gateway/control/router.py:118-123 | A preference changes the selected route and nothing else, and is followed exactly when it is feasible |
| Router.UncappedUtility | src/aegis_gateway/control/router.py:134-143 | On every candidate both caps of the utility are inert |
| Router.EstimateCoversText | src/aegis_gateway/providers/base.py:152-155 | The estimate is the least number of tokens, at least one, that covers the text at four characters each |
| Router.UsageWithinEstimateStaysWithinBudget | src/aegis_gateway/control/router.py:157-164 | Usage within the estimate keeps the actual cost of a feasible route within the request's budget |
| Router.BudgetCarriesOverIff | src/aegis_gateway/control/router.py:88-91 | Of two requests with the same limits, every route that meets the budget of the first meets that of the second exactly when the second is not estimated longer |
| Router.OrderIsPermutation | src/aegis_gateway/control/service.py:669-675 | The order tried is a permutation of the candidates, the selected one first and the rest in rank order |
| Router.DecisionCanBeTried | src/aegis_gateway/control/service.py:669-675 | Every decision offers its selected route, and its order names no route twice |
| Router.QueriesLeaveOthersAlone | src/aegis_gateway/control/router.py:94 | Asking for the availability of some routes leaves the circuits of the others alone |
| Percentile.PercentileIsLeastCovering | src/aegis_gateway/control/registry.py:444-448 | The percentile is one of the values, and at most v exactly when at least that fraction of the values is |
| Percentile.PercentilesAgree | src/aegis_gateway/control/evaluation.py:160-163 | Both implementations agree on non-empty input, in any order |
| Percentile.P99OfFewIsMaximum | src/aegis_gateway/control/registry.py:444-448 | Below a hundred values the 99th percentile is the maximum |
| Release.ReleaseRegistry.Create | src/aegis_gateway/control/registry.py:202-234 | Stores a new id in whatever state it comes, refuses a known one |
| Release.ReleaseRegistry.SetState | src/aegis_gateway/control/registry.py:263-288 | Changes the state of a known release; activation rolls back every other ACTIVE one of that name |
| Release.ReleaseRegistry.GetLive | src/aegis_gateway/control/registry.py:244-261 | Candidates before active ones, then the latest update; ties are open |
| Release.LiveInWords | src/aegis_gateway/control/registry.py:244-261 | What is live is a CANDIDATE or ACTIVE release of that name, if there is one, candidates first and the latest update of its class |
| Release.LiveIsLatestCandidateElseLatestActive | src/aegis_gateway/control/registry.py:244-261 | A CANDIDATE is returned whenever one exists, the latest updated of its class |
| Release.PromotionLeavesOneActive | src/aegis_gateway/control/release.py:95-96 | From any table, activation leaves its target the only ACTIVE release of that name and no other name touched |
| Release.CreateKeepsSingleActiveIff | src/aegis_gateway/control/registry.py:202-234 | `create` keeps the rule exactly when it adds no second ACTIVE |
| Release.RunsKeepSingleActive | src/aegis_gateway/control/registry.py:202-288 | In every run in which releases are created as drafts, each name has at most one ACTIVE release |
| Release.EvidenceStore.RecordMetric | src/aegis_gateway/control/registry.py:312-345 | Appends one row |
| Release.EvidenceStore.Metrics | src/aegis_gateway/control/registry.py:347-374 | The newest matching rows up to the limit, newest first |
| Release.EvidenceStore.Summary | src/aegis_gateway/control/registry.py:376-386 | Summarises the newest 100,000 matching rows |
| Release.SummaryInCounts | src/aegis_gateway/control/registry.py:415-434 | A summary in numbers of rows of the ledger: how many were read, succeeded, were checked and met their schema, and the latency that 99% of them keep |
| Release.NewestDependsOnItsRows | src/aegis_gateway/control/registry.py:347-374 | A query returns the tail of its own rows in reverse, as many as there are up to the limit, and depends on no other row |
| Release.ReleaseManager.Assess | src/aegis_gateway/control/release.py:61-93 | With others acting at both waits: the release is judged as it was read, by the ledger as it is after the first wait, and rolled back exactly when the judgement finds a reason, as the table is after the second wait; otherwise nothing is changed; an unknown id is reported |
| Release.StillCandidateIff | src/aegis_gateway/control/release.py:61-89 | A release judged as a candidate is still one when it is rolled back exactly when the last order given for it meanwhile, if any, was to be one |
| Release.PromotedMeanwhileIsRolledBack | src/aegis_gateway/control/release.py:61-89 | So a promotion in between makes an assessment roll back an ACTIVE release |
| Release.DeedsKeepSingleActive | src/aegis_gateway/control/release.py:61-106 | Whatever others order meanwhile, short of creating a release ACTIVE, no name gets a second ACTIVE release |
| Release.JudgementInCounts | src/aegis_gateway/control/release.py:66-85 | In numbers of rows of the ledger, the newest 100,000 canary rows of the release: enough of them, and too many failed, or fewer than 99% fast enough, or too few of the checked ones good |
| Release.JudgementIgnoresOtherRows | src/aegis_gateway/control/release.py:65 | Rows other than the canary rows of the release make no difference |
| Release.RolloutOnlyGrows | src/aegis_gateway/control/release.py:46 | Raising the percentage never takes a request out of the canary; 0 has none and 100 all |
| Release.Bucket | src/aegis_gateway/control/release.py:109-111 | Buckets lie below 100 |
| Sse.IterSseJson | src/aegis_gateway/providers/base.py:112-133 | The line loop with its buffer delivers what the parser function says, up to the first payload that does not decode |
| Sse.ParseUndoesPrint | src/aegis_gateway/providers/base.py:112-133 | Parsing printed frames, with ignored lines mixed in, delivers their payloads in order |
| Sse.DecodableStreamsDeliverTheirObjects | src/aegis_gateway/providers/base.py:121-124 | When every payload decodes, exactly the objects are delivered, without `[DONE]` and non-objects |
| Sse.ParseSplitsAtBlankLines | src/aegis_gateway/providers/base.py:117-125 | Parsing is compositional at blank lines |
| Sse.FinalBlankLineIsOptional | src/aegis_gateway/providers/base.py:128-133 | A final frame is delivered with or without its blank line |
| Sse.BlanksByCode | src/aegis_gateway/providers/base.py:127 | The characters that are stripped, by code point |
| Sse.OnlyDoneIsSkipped | src/aegis_gateway/providers/base.py:117-124 | Of frames of one line only `[DONE]` is skipped undecoded; any other payload is decoded, and only an object is delivered |
| Sse.AgreesWithStandardIff | src/aegis_gateway/providers/base.py:127 | A value is stripped as section 9.2.6 of the WHATWG HTML standard says exactly when no blank follows the one it removes |
| SseStandard.ParseDeliversPayloads | src/aegis_gateway/providers/base.py:112-133 | For every stream the parser delivers exactly the payloads it collects |
| SseStandard.ReadAlikeIff | src/aegis_gateway/providers/base.py:126-127 | A line is read as the standard reads it exactly when it is not a bare `data` and no blank follows the one space a data line may have |
| SseStandard.PayloadsAgreeIff | src/aegis_gateway/providers/base.py:112-133 | For every stream the payloads are those of the standard, the last frame ended, exactly when all lines are read alike: no two differences cancel out |
| SseStandard.UnendedFrameIsTheOnlyOtherDifference | src/aegis_gateway/providers/base.py:128-133 | On streams whose lines are read alike, parser and standard agree exactly when no data is pending at the end |

## Left out

- Vendor adapters, HTTP handlers, the console, the command line and settings: a provider is an
  arbitrary reply or event sequence with an arbitrary ending; an unregistered provider is one
  that fails.
- SQLite: tables are maps and append-only sequences, each registry call is one atomic step,
  and stored timestamps are reals instead of ISO text.
- Telemetry: metrics export, logging and the circuit gauge only observe.
- SHA-256, canonical JSON and JSON Schema: injective constructors, a partial decoder and a
  check that accepts, refuses or fails. Tokenising and case folding come before `Embed`.
- Float rounding everywhere, including that of the quantile rank.
- Cancelled calls, abandoned stream generators, and exceptions that the loops do not handle
  other than those of the schema validator.
- Prompt artifacts: the rendered prompt, or that it cannot be rendered, is an input.
- The evaluation runner beyond its percentile, and the evaluation gate: sums and comparisons of
  stored numbers.
- The fields of the metrics snapshot that no decision reads: cache hit rate, failover success,
  mean cost, mean first-token time and mean regret.
- A byte order mark at the start of an event stream, and how bytes become lines.
- The rollback event table and the measured rollback duration.
- Objects inside dictionaries (`_Circuit`, `_Bucket`, `_Entry`) are values in a map or sequence:
  no aliasing of a bucket or a circuit is modelled, and the source never lets one escape.
- The routing table is the list of values of a dictionary keyed by route id, so its ids are
  distinct; building that dictionary from a list with repeated ids is not modelled.
- EngineProofs.GenerateMeetsDeadline: a provider's timeout is exact, as in the source's own reckoning.
- EngineProofs.StreamMeetsDeadline: the same, and time the client takes between events counts against the provider's timeout.
- Service.GatewayService.ForwardEvents: other calls do not act between two events of one stream, since no shared state is touched there.
- Service.GatewayService.TakeToken: the limiter's error for an amount above the burst, which one token exceeds only if the burst is below one, is read as not admitted.
