/**
  One request as it goes through the gateway: the candidate loops of `generate`
  and `stream`.

  Everything a request learns from the outside - clock readings, whether a circuit
  let it through, what the provider answered - is an observation, and observations
  are arbitrary. So a statement about all observations covers every interleaving
  with other requests. Everything a request does to the outside is written to its
  journal, one list per collaborator.
 */
module Engine {
  import opened Domain
  import Router
  import Release

  // -------------------------------------------------------------------------
  // Calls and lanes

  /** The three uses the gateway makes of `generate`; `stream` is always a user call. */
  datatype Kind = User | Evaluation | Shadow(releaseId: Option<ReleaseId>)

  datatype Call = Call(request: Request, forced: Option<RouteId>, kind: Kind)
  {
    /** Evaluation and shadow calls always force a route. */
    predicate Made() { kind.User? || forced.Some? }
  }

  function AssignmentOf(hash: string -> nat, call: Call, live: Option<Release.Release>, request: Request): Release.Assignment {
    if call.kind.Shadow? then Release.NO_ASSIGNMENT.(releaseId := call.kind.releaseId)
    else if call.kind.Evaluation? || call.forced.Some? then Release.NO_ASSIGNMENT
    else Release.Assign(hash, live, request)
  }

  function CacheNamespace(assignment: Release.Assignment, forced: Option<RouteId>): string {
    if forced.Some? then "forced-route:" + forced.value
    else if assignment.releaseId.Some? then
      var named := assignment.preferredRouteId.Some? && assignment.preferredRouteId.value != "";
      var preferred := if named then assignment.preferredRouteId.value else "policy";
      "release:" + assignment.releaseId.value + ":route:" + preferred
    else "default"
  }

  /** A request that has been resolved and assigned. */
  datatype Lane = Lane(request: Request, forced: Option<RouteId>, kind: Kind, assignment: Release.Assignment)
  {
    function Namespace(): string { CacheNamespace(assignment, forced) }
    predicate CacheAllowed() { kind.User? && !assignment.canary }
    predicate Reads() { CacheAllowed() && request.cacheMode.Default? }
    predicate Writes() { CacheAllowed() && !request.cacheMode.Bypass? }
  }

  // -------------------------------------------------------------------------
  // Errors

  datatype Error =
    | PromptError
    | RateLimited
    | NoEligibleRoute
    | ProviderTimeout
    | ProviderFailure(providerCode: string)
    | CircuitOpen
    | SchemaViolation
    | StreamInterrupted
  {
    function Code(): string {
      match this
      case PromptError => "prompt_error"
      case RateLimited => "rate_limit_exceeded"
      case NoEligibleRoute => "no_eligible_route"
      case ProviderTimeout => "provider_timeout"
      case ProviderFailure(code) => code
      case CircuitOpen => "circuit_open"
      case SchemaViolation => "schema_violation"
      case StreamInterrupted => "stream_interrupted"
    }
  }

  const INVALID_REQUEST := "invalid_provider_request"

  // -------------------------------------------------------------------------
  // Schema validation

  /** What the validator says of a value: besides its verdict it may fail itself, as on a malformed schema. */
  datatype Check = Conforms | Breaks | Fails

  /** The JSON decoder and the schema validator. */
  datatype Contract = Contract(decode: string -> Option<Json>, check: (Json, Schema) -> Check)

  predicate MeetsSchema(o: Contract, schema: Option<Schema>, text: string) {
    schema.Some? ==> o.decode(text).Some? && o.check(o.decode(text).value, schema.value).Conforms?
  }

  /** The text cannot be checked: it decodes, but then the validator fails. */
  predicate Uncheckable(o: Contract, schema: Option<Schema>, text: string) {
    schema.Some? && o.decode(text).Some? && o.check(o.decode(text).value, schema.value).Fails?
  }

  datatype Validation = Valid(parsed: Option<Json>, schemaValid: Option<bool>) | Violated | Unchecked

  function Validate(o: Contract, schema: Option<Schema>, text: string): (v: Validation)
    ensures v.Valid? <==> MeetsSchema(o, schema, text)
    ensures v.Unchecked? <==> Uncheckable(o, schema, text)
    ensures v.Valid? && schema.Some? ==> v.parsed == o.decode(text) && v.schemaValid == Some(true)
    ensures v.Valid? && schema.None? ==> v.parsed == None && v.schemaValid == None
  {
    if schema.None? then Valid(None, None)
    else
      match o.decode(text)
      case None => Violated
      case Some(value) =>
        match o.check(value, schema.value)
        case Conforms => Valid(Some(value), Some(true))
        case Breaks => Violated
        case Fails => Unchecked
  }

  // -------------------------------------------------------------------------
  // The journal

  /** A call on a route's circuit, with the clock reading it saw and the answer it got. */
  datatype CircuitCall =
    | Asked(route: RouteId, admitted: bool, at: real)
    | Succeeded(route: RouteId)
    | Failed(route: RouteId, at: real)

  /**
    An attempt at a provider: the budget it is told in milliseconds, its timeout, when
    these were reckoned, and its start and end.
   */
  datatype ProviderCall = ProviderCall(
    route: RouteId, maxLatencyMs: int, timeout: real, checked: real, start: real, end: real)

  datatype CacheWrite = CacheWrite(request: Request, response: Response, namespace: string, at: real)

  datatype Task = ShadowTask(call: Call) | AssessTask(releaseId: ReleaseId)

  datatype Event =
    | Start(routeId: RouteId, provider: string, model: string)
    | Delta(routeId: RouteId, provider: string, model: string, text: string)
    | Done(routeId: RouteId, provider: string, model: string, response: Response)

  datatype Journal = Journal(
    circuits: seq<CircuitCall>,
    calls: seq<ProviderCall>,
    rows: seq<Metric>,
    writes: seq<CacheWrite>,
    tasks: seq<Task>,
    events: seq<Event>)

  const EMPTY_JOURNAL := Journal([], [], [], [], [], [])

  function ResponseRow(lane: Lane, r: Response): Metric {
    Metric(lane.request.requestId, lane.request.tenantId, r.routeId, r.provider, true, r.schemaValid, r.cacheHit,
           lane.assignment.canary, lane.assignment.releaseId, lane.kind.Shadow?, r.usage, r.ttftMs, r.latencyMs,
           r.routingRegret, r.fallbackCount, None)
  }

  /** The one schema that counts as absent when the evidence of a failure is written. */
  const EMPTY_SCHEMA: Schema := "{}"

  function ErrorRow(lane: Lane, route: Route, error: Error, fallback: nat, latencyMs: real): Metric {
    Metric(lane.request.requestId, lane.request.tenantId, route.id, route.provider, false,
           if lane.request.responseSchema.Some? && lane.request.responseSchema.value != EMPTY_SCHEMA then Some(false) else None,
           false, lane.assignment.canary, lane.assignment.releaseId, lane.kind.Shadow?, Usage(0, 0, 0.0), latencyMs, latencyMs,
           0.0, fallback, Some(error.Code()))
  }

  function Assessment(a: Release.Assignment): seq<Task> {
    if a.canary && a.releaseId.Some? then [AssessTask(a.releaseId.value)] else []
  }

  function ShadowCall(request: Request, route: RouteId, releaseId: Option<ReleaseId>): Call {
    Call(request.(requestId := request.requestId + "-shadow", stream := false, cacheMode := Bypass, shadowEnabled := false),
         Some(route), Shadow(releaseId))
  }

  function PostResponse(lane: Lane): seq<Task> {
    if lane.kind.Shadow? then []
    else
      (if lane.assignment.shadowRouteId.Some?
       then [ShadowTask(ShadowCall(lane.request, lane.assignment.shadowRouteId.value, lane.assignment.releaseId))]
       else [])
      + Assessment(lane.assignment)
  }

  // -------------------------------------------------------------------------
  // The candidate loop

  datatype Target = Target(route: Route, regret: real)

  datatype Context = Context(contract: Contract, lane: Lane, started: real, targets: seq<Target>)

  datatype Blame = Blame(error: Error, route: Route)

  /** `Crashed` is an exception that the loop does not handle. */
  datatype Status = Trying | Broken | Returned(response: Response) | Raised(error: Error) | Crashed

  /** The loop variables; `next` counts the candidates whose circuit has been asked. */
  datatype Loop = Loop(next: nat, fallback: nat, lastError: Option<Blame>, journal: Journal, status: Status)

  const INIT := Loop(0, 0, None, EMPTY_JOURNAL, Trying)

  function Deadline(c: Context): real { c.started + c.lane.request.maxLatencyMs as real / 1000.0 }

  function Remaining(c: Context, now: real): real {
    c.lane.request.maxLatencyMs as real / 1000.0 - (now - c.started)
  }

  function AttemptBudgetMs(remaining: real): int { Max(1, (remaining * 1000.0).Floor) }

  predicate Active(c: Context, l: Loop) { l.status.Trying? && l.next < |c.targets| }

  /**
    The clock readings of one round after its deadline check, in their order. The clock
    is read anew each time, and other calls may act in between.
   */
  datatype Readings = Readings(
    asked: real,    // by the circuit that is asked
    called: real,   // when the provider's timeout starts
    ended: real,    // when the provider is done
    recorded: real, // by the circuit that records a failure
    measured: real, // for the latency of an answer or an interruption
    stored: real)   // by the cache that stores the answer

  /** The deadline is gone before candidate `next` is asked. */
  function Expire(l: Loop, route: Route): Loop {
    if l.lastError.None? then l.(lastError := Some(Blame(ProviderTimeout, route)), fallback := l.fallback + 1, status := Broken)
    else l.(status := Broken)
  }

  /** The candidate has failed; `done` says whether the loop ends with it. */
  function Miss(l: Loop, journal: Journal, error: Error, route: Route, done: bool): Loop {
    Loop(l.next + 1, l.fallback + 1, Some(Blame(error, route)), journal, if done then Broken else Trying)
  }

  /** The validator has failed: the exception leaves the loop at once. */
  function Crash(l: Loop, journal: Journal): Loop {
    l.(next := l.next + 1, journal := journal, status := Crashed)
  }

  function Refuse(l: Loop, route: Route, asked: real): Loop {
    Miss(l, l.journal.(circuits := l.journal.circuits + [Asked(route.id, false, asked)]), CircuitOpen, route, false)
  }

  /** The deadline was checked at `now`; the circuit was asked and the provider called later. */
  function Admit(c: Context, l: Loop, route: Route, now: real, at: Readings): Journal {
    var remaining := Remaining(c, now);
    l.journal.(
      circuits := l.journal.circuits + [Asked(route.id, true, at.asked)],
      calls := l.journal.calls
        + [ProviderCall(route.id, AttemptBudgetMs(remaining), remaining, now, at.called, at.ended)])
  }

  /** An accepted answer: record, write evidence, fill the cache, start the background tasks. */
  function Accept(c: Context, l: Loop, journal: Journal, response: Response, at: real, events: seq<Event>): Loop {
    Loop(l.next + 1, l.fallback, l.lastError,
         Journal(
           journal.circuits + [Succeeded(response.routeId)],
           journal.calls,
           journal.rows + (if c.lane.kind.Evaluation? then [] else [ResponseRow(c.lane, response)]),
           journal.writes + (if c.lane.Writes() then [CacheWrite(c.lane.request, response, c.lane.Namespace(), at)] else []),
           journal.tasks + PostResponse(c.lane),
           journal.events + events),
         Returned(response))
  }

  function FailCircuit(journal: Journal, route: Route, at: real): Journal {
    journal.(circuits := journal.circuits + [Failed(route.id, at)])
  }

  /** After the loop: raise the last error, with its evidence. */
  function Finish(c: Context, l: Loop, now: real): Loop
    requires l.lastError.Some?
  {
    var blame := l.lastError.value;
    if c.lane.kind.Evaluation? then l.(status := Raised(blame.error))
    else
      l.(journal := l.journal.(
           rows := l.journal.rows
             + [ErrorRow(c.lane, blame.route, blame.error, l.fallback, (now - c.started) * 1000.0)],
           tasks := l.journal.tasks + Assessment(c.lane.assignment)),
         status := Raised(blame.error))
  }

  // -------------------------------------------------------------------------
  // generate

  /** What a provider call comes back with, within its timeout or not. */
  datatype Reply =
    | Completed(text: string, inputTokens: nat, outputTokens: nat, ttftMs: real, rawModel: string)
    | TimedOut
    | ProviderError(code: string)

  /** What one round of the `generate` loop sees. */
  datatype Seen = Seen(now: real, admitted: bool, reply: Reply, at: Readings)

  function CompleteResponse(c: Context, fallback: nat, t: Target, reply: Reply, v: Validation, measured: real): Response
    requires reply.Completed? && v.Valid?
  {
    Response(c.lane.request.requestId, t.route.id, t.route.provider, reply.rawModel, reply.text, v.parsed, v.schemaValid,
             Usage(reply.inputTokens, reply.outputTokens, Router.ActualCost(t.route, reply.inputTokens, reply.outputTokens)),
             reply.ttftMs, (measured - c.started) * 1000.0, false, fallback, t.regret)
  }

  function GenerateStep(c: Context, l: Loop, s: Seen): Loop
    requires Active(c, l)
  {
    var t := c.targets[l.next];
    if Remaining(c, s.now) <= 0.0 then Expire(l, t.route)
    else if !s.admitted then Refuse(l, t.route, s.at.asked)
    else
      var journal := Admit(c, l, t.route, s.now, s.at);
      match s.reply
      case TimedOut => Miss(l, FailCircuit(journal, t.route, s.at.recorded), ProviderTimeout, t.route, false)
      case ProviderError(code) => Miss(l, FailCircuit(journal, t.route, s.at.recorded), ProviderFailure(code), t.route, code == INVALID_REQUEST)
      case Completed(text, _, _, _, _) =>
        var v := Validate(c.contract, c.lane.request.responseSchema, text);
        if v.Violated? then Miss(l, journal, SchemaViolation, t.route, false)
        else if v.Unchecked? then Crash(l, journal)
        else Accept(c, l, journal, CompleteResponse(c, l.fallback, t, s.reply, v, s.at.measured), s.at.stored, [])
  }

  /** The loop after a sequence of rounds; rounds after its end change nothing. */
  function GenerateLoop(c: Context, seen: seq<Seen>): Loop {
    if seen == [] then INIT
    else
      var l := GenerateLoop(c, seen[..|seen| - 1]);
      if Active(c, l) then GenerateStep(c, l, seen[|seen| - 1]) else l
  }

  // -------------------------------------------------------------------------
  // stream

  datatype ProviderEvent =
    | StartEvent
    | DeltaEvent(text: string)
    | UsageEvent(inputTokens: Option<nat>, outputTokens: Option<nat>)
    | OtherEvent

  datatype Ending = EndOfStream | StreamTimedOut | StreamFailed(code: string)

  /** What one round of the `stream` loop sees: the events delivered before the iteration ended, and how it ended. */
  datatype StreamSeen = StreamSeen(
    now: real,
    admitted: bool,
    events: seq<ProviderEvent>,
    ending: Ending,
    firstDeltaAt: real,
    at: Readings)

  function Forwarded(route: Route, event: ProviderEvent): seq<Event> {
    match event
    case StartEvent => [Start(route.id, route.provider, route.model)]
    case DeltaEvent(text) => [Delta(route.id, route.provider, route.model, text)]
    case _ => []
  }

  function ForwardAll(route: Route, events: seq<ProviderEvent>): seq<Event> {
    if events == [] then []
    else ForwardAll(route, events[..|events| - 1]) + Forwarded(route, events[|events| - 1])
  }

  predicate Emitted(events: seq<ProviderEvent>) { exists i :: 0 <= i < |events| && events[i].DeltaEvent? }

  function TextOf(events: seq<ProviderEvent>): string {
    if events == [] then ""
    else TextOf(events[..|events| - 1]) + if events[|events| - 1].DeltaEvent? then events[|events| - 1].text else ""
  }

  function OrZero(n: Option<nat>): nat { if n.Some? then n.value else 0 }

  /** The token counts of the latest usage event. */
  function UsageOf(events: seq<ProviderEvent>): (nat, nat) {
    if events == [] then (0, 0)
    else if events[|events| - 1].UsageEvent?
    then (OrZero(events[|events| - 1].inputTokens), OrZero(events[|events| - 1].outputTokens))
    else UsageOf(events[..|events| - 1])
  }

  function StreamedResponse(c: Context, fallback: nat, t: Target, s: StreamSeen, v: Validation): Response
    requires v.Valid?
  {
    var (input, output) := UsageOf(s.events);
    var firstAt := if Emitted(s.events) && s.firstDeltaAt != 0.0 then s.firstDeltaAt else s.at.measured;
    Response(c.lane.request.requestId, t.route.id, t.route.provider, t.route.model, TextOf(s.events), v.parsed, v.schemaValid,
             Usage(input, output, Router.ActualCost(t.route, input, output)),
             (firstAt - c.started) * 1000.0, (s.at.measured - c.started) * 1000.0, false, fallback, t.regret)
  }

  /** A failure after the first delta: no fallback, the error is raised at once with its evidence. */
  function Interrupt(c: Context, l: Loop, journal: Journal, error: Error, cause: Error, route: Route, now: real): Loop {
    Loop(l.next + 1, l.fallback, Some(Blame(cause, route)),
         journal.(
           rows := journal.rows + [ErrorRow(c.lane, route, error, l.fallback, (now - c.started) * 1000.0)],
           tasks := journal.tasks + Assessment(c.lane.assignment)),
         Raised(error))
  }

  function StreamStep(c: Context, l: Loop, s: StreamSeen): Loop
    requires Active(c, l)
  {
    var t := c.targets[l.next];
    if Remaining(c, s.now) <= 0.0 then Expire(l, t.route)
    else if !s.admitted then Refuse(l, t.route, s.at.asked)
    else
      var admitted := Admit(c, l, t.route, s.now, s.at);
      var journal := admitted.(events := admitted.events + ForwardAll(t.route, s.events));
      match s.ending
      case StreamTimedOut =>
        if Emitted(s.events) then Interrupt(c, l, FailCircuit(journal, t.route, s.at.recorded), StreamInterrupted, ProviderTimeout, t.route, s.at.measured)
        else Miss(l, FailCircuit(journal, t.route, s.at.recorded), ProviderTimeout, t.route, false)
      case StreamFailed(code) =>
        if Emitted(s.events)
        then Interrupt(c, l, FailCircuit(journal, t.route, s.at.recorded), StreamInterrupted, ProviderFailure(code), t.route, s.at.measured)
        else Miss(l, FailCircuit(journal, t.route, s.at.recorded), ProviderFailure(code), t.route, code == INVALID_REQUEST)
      case EndOfStream =>
        var v := Validate(c.contract, c.lane.request.responseSchema, TextOf(s.events));
        if v.Violated? then
          if Emitted(s.events) then Interrupt(c, l, journal, SchemaViolation, SchemaViolation, t.route, s.at.measured)
          else Miss(l, journal, SchemaViolation, t.route, false)
        else if v.Unchecked? then Crash(l, journal)
        else
          var response := StreamedResponse(c, l.fallback, t, s, v);
          Accept(c, l, journal, response, s.at.stored, [Done(t.route.id, t.route.provider, t.route.model, response)])
  }

  function StreamLoop(c: Context, seen: seq<StreamSeen>): Loop {
    if seen == [] then INIT
    else
      var l := StreamLoop(c, seen[..|seen| - 1]);
      if Active(c, l) then StreamStep(c, l, seen[|seen| - 1]) else l
  }

  // -------------------------------------------------------------------------
  // Before the loop

  /** The system the calls run in. */
  datatype Gateway = Gateway(
    routes: seq<Route>,
    weights: Router.Weights,
    contract: Contract,
    hash: string -> nat)

  /** What a call sees before its candidate loop. */
  datatype Arrival = Arrival(
    started: real,
    rendered: Option<string>,      // the rendered prompt, None when it cannot be rendered
    admitted: bool,                // by the tenant's rate limit
    live: Option<Release.Release>, // the live release
    cached: Option<Response>,      // what the cache would answer
    hitAt: real,
    available: set<RouteId>)       // the routes whose circuit is available

  function Resolve(request: Request, rendered: Option<string>): Option<Request> {
    if request.prompt.None? then Some(request)
    else if rendered.None? then None
    else Some(request.(messages := [Message("developer", rendered.value, None)] + request.messages))
  }

  datatype Entry =
    | Rejected(error: Error)
    | CacheHit(lane: Lane, response: Response)
    | Candidates(context: Context)

  function RewriteHit(lane: Lane, cached: Response, elapsedMs: real): Response {
    cached.(requestId := lane.request.requestId, cacheHit := true, ttftMs := elapsedMs, latencyMs := elapsedMs,
            usage := Usage(0, 0, 0.0))
  }

  function RouteById(routes: seq<Route>, id: RouteId): (r: Option<Route>)
    ensures r.Some? ==> r.value in routes && r.value.id == id
    ensures r.None? ==> forall route :: route in routes ==> route.id != id
  {
    if routes == [] then None
    else if routes[|routes| - 1].id == id then Some(routes[|routes| - 1])
    else RouteById(routes[..|routes| - 1], id)
  }

  /** The candidates in the order tried, with their routes. */
  function Targets(routes: seq<Route>, candidates: seq<Router.Candidate>): seq<Target>
    requires forall i :: 0 <= i < |candidates| ==> RouteById(routes, candidates[i].routeId).Some?
  {
    seq(|candidates|, i requires 0 <= i < |candidates| =>
      Target(RouteById(routes, candidates[i].routeId).value, candidates[i].routingRegret))
  }

  /** The part of `generate` and `stream` before the loop. */
  ghost function Enter(g: Gateway, call: Call, a: Arrival): Entry
    requires call.request.Valid() && Distinct(RouteIds(g.routes))
  {
    var resolved := Resolve(call.request, a.rendered);
    if resolved.None? then Rejected(PromptError)
    else if call.kind.User? && !a.admitted then Rejected(RateLimited)
    else
      var lane := Lane(resolved.value, call.forced, call.kind, AssignmentOf(g.hash, call, a.live, resolved.value));
      if lane.Reads() && a.cached.Some? then
        CacheHit(lane, RewriteHit(lane, a.cached.value, (a.hitAt - a.started) * 1000.0))
      else
        var terms := Router.Terms(lane.request, call.forced, {}, a.available);
        match Router.DecisionFor(g.weights, g.routes, terms, lane.assignment.preferredRouteId)
        case NoEligibleRoute(_) => Rejected(NoEligibleRoute)
        case Routed(decision) =>
          DecisionHasRoutes(g, terms, lane.assignment.preferredRouteId);
          Candidates(Context(g.contract, lane, a.started, Targets(g.routes, Router.OrderedCandidates(decision))))
  }

  lemma DecisionHasRoutes(g: Gateway, t: Router.Terms, preferred: Option<RouteId>)
    requires t.request.Valid() && Distinct(RouteIds(g.routes))
    requires Router.DecisionFor(g.weights, g.routes, t, preferred).Routed?
    ensures var decision := Router.DecisionFor(g.weights, g.routes, t, preferred).decision;
      && Router.Offers(decision.candidates, decision.selectedRouteId)
      && Router.OrderedCandidates(decision) != []
      && (forall c :: c in Router.OrderedCandidates(decision) ==>
            RouteById(g.routes, c.routeId).Some? && Router.Feasible(t, RouteById(g.routes, c.routeId).value))
      && (forall i, j :: 0 <= i < j < |Router.OrderedCandidates(decision)| ==>
            Router.OrderedCandidates(decision)[i].routeId != Router.OrderedCandidates(decision)[j].routeId)
  {
    Router.DecisionCanBeTried(g.weights, g.routes, t, preferred);
    Router.RankedMembers(g.weights, t, g.routes);
    var decision := Router.DecisionFor(g.weights, g.routes, t, preferred).decision;
    Router.OrderIsPermutation(decision);
    forall c | c in Router.OrderedCandidates(decision)
      ensures RouteById(g.routes, c.routeId).Some? && Router.Feasible(t, RouteById(g.routes, c.routeId).value)
    {
      assert c in multiset(decision.candidates);
      assert c in decision.candidates;
      var route :| Router.StandsFor(g.weights, t, g.routes, c, route);
      assert route.id == c.routeId;
      Router.SameIdSameRoute(g.routes, route, RouteById(g.routes, c.routeId).value);
    }
  }

  // -------------------------------------------------------------------------
  // Whole calls

  function HitEvents(r: Response): seq<Event> {
    [Start(r.routeId, r.provider, r.model),
     Delta(r.routeId, r.provider, r.model, r.text),
     Done(r.routeId, r.provider, r.model, r)]
  }

  function HitLoop(lane: Lane, r: Response, events: seq<Event>): Loop {
    Loop(0, 0, None, Journal([], [], [ResponseRow(lane, r)], [], PostResponse(lane), events), Returned(r))
  }

  /** The end of a loop that has not settled by itself. */
  function Close(c: Context, l: Loop, now: real): Loop {
    if !Active(c, l) && (l.status.Trying? || l.status.Broken?) && l.lastError.Some? then Finish(c, l, now) else l
  }

  /** A `generate` call that has seen this much; it is still in flight while its status is Trying. */
  ghost function GenerateCall(g: Gateway, call: Call, a: Arrival, seen: seq<Seen>, finishedAt: real): Loop
    requires call.request.Valid() && Distinct(RouteIds(g.routes))
  {
    match Enter(g, call, a)
    case Rejected(error) => INIT.(status := Raised(error))
    case CacheHit(lane, r) => HitLoop(lane, r, [])
    case Candidates(c) => Close(c, GenerateLoop(c, seen), finishedAt)
  }

  ghost function StreamCall(g: Gateway, call: Call, a: Arrival, seen: seq<StreamSeen>, finishedAt: real): Loop
    requires call.request.Valid() && Distinct(RouteIds(g.routes))
  {
    match Enter(g, call, a)
    case Rejected(error) => INIT.(status := Raised(error))
    case CacheHit(lane, r) => HitLoop(lane, r, HitEvents(r))
    case Candidates(c) => Close(c, StreamLoop(c, seen), finishedAt)
  }
}
