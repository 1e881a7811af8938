/**
  The request contract in the words of its fields: what a route must offer to be
  tried for a request, and so what holds of every answer, fresh or from the cache.
  Nothing here goes through the functions by which the router decides.
 */
module Contracts {
  import opened Domain
  import opened Engine
  import opened EngineProofs
  import opened Runs
  import Cache
  import Router

  // -------------------------------------------------------------------------
  // Routes

  /**
    The route keeps the data as the request asks: restricted data stays local,
    confidential data is not retained unless the request asks for more, and
    otherwise the request's own mode is supported.
   */
  predicate Protects(request: Request, route: Route) {
    && (request.classification == Restricted ==> LocalOnly in route.privacyModes)
    && (request.classification == Confidential && request.privacyMode == Standard ==> ZeroRetention in route.privacyModes)
    && (request.classification != Restricted && !(request.classification == Confidential && request.privacyMode == Standard)
        ==> request.privacyMode in route.privacyModes)
  }

  predicate InRegion(request: Request, route: Route) {
    request.allowedRegions == {} || exists region :: region in request.allowedRegions && region in route.regions
  }

  /** A quarter of the characters, rounded up, but at least one token, and four more for each message. */
  function TokensOf(messages: seq<Message>): int {
    if messages == [] then 0
    else
      var quarter := (|messages[0].content| + 3) / 4;
      (if quarter < 1 then 1 else quarter) + 4 + TokensOf(messages[1..])
  }

  /** The price of this many tokens, from the prices of a million. */
  function Price(route: Route, input: int, output: int): real {
    input as real * route.inputCostPerMillion / 1_000_000.0 + output as real * route.outputCostPerMillion / 1_000_000.0
  }

  lemma {:induction false} TokensAddUp(a: seq<Message>, b: seq<Message>)
    ensures TokensOf(a + b) == TokensOf(a) + TokensOf(b)
  {
    if a == [] {
      assert a + b == b;
    } else {
      assert (a + b)[1..] == a[1..] + b;
      TokensAddUp(a[1..], b);
    }
  }

  /** The router's estimate of a request, counted from its last message backwards. */
  lemma {:induction false} EstimateIsTokens(messages: seq<Message>)
    ensures Router.InputTokens(messages) == TokensOf(messages)
  {
    if messages != [] {
      var before, last := messages[..|messages| - 1], messages[|messages| - 1];
      EstimateIsTokens(before);
      assert messages == before + [last];
      TokensAddUp(before, [last]);
      assert [last][1..] == [];
    }
  }

  lemma PriceIsPredicted(route: Route, input: int, output: int)
    ensures Router.PredictedCost(route, input, output) == Price(route, input, output)
    ensures Router.ActualCost(route, input, output) == Price(route, input, output)
  {}

  lemma InRegionMeets(r: Request, route: Route)
    ensures InRegion(r, route) <==> !(r.allowedRegions != {} && r.allowedRegions * route.regions == {})
  {
    if region :| region in r.allowedRegions && region in route.regions { assert region in r.allowedRegions * route.regions; }
    if region :| region in r.allowedRegions * route.regions { assert region in r.allowedRegions && region in route.regions; }
  }

  lemma PolicyReasonsSay(r: Request, route: Route)
    ensures var reasons := Router.PolicyReasons(r, route);
      && (forall reason :: reason in reasons ==> reason.MissingCapabilities? || reason.PrivacyUnsupported? || reason.Region?)
      && (forall missing :: Router.MissingCapabilities(missing) in reasons <==>
            missing != {} && missing == r.requiredCapabilities - route.capabilities)
      && (forall mode :: Router.PrivacyUnsupported(mode) in reasons ==> !Protects(r, route) && mode !in route.privacyModes)
      && (!Protects(r, route) ==> exists mode :: Router.PrivacyUnsupported(mode) in reasons)
      && (Router.Region in reasons <==> !InRegion(r, route))
  {
    InRegionMeets(r, route);
    hide InRegion;
    if !Protects(r, route) {
      assert Router.PrivacyUnsupported(Router.RequiredPrivacy(r)) in Router.PolicyReasons(r, route);
    }
  }

  lemma LaneReasonsSay(t: Router.Terms, route: Route)
    ensures var lane := Router.LaneReasons(t, route);
      && (forall reason :: reason in lane ==> reason.Disabled? || reason.PreviousAttemptFailed? || reason.NotForcedRoute?)
      && (Router.Disabled in lane <==> !route.enabled)
      && (Router.PreviousAttemptFailed in lane <==> route.id in t.excluded)
      && (Router.NotForcedRoute in lane <==> t.forced != None && t.forced != Some(route.id))
  {}

  lemma BudgetReasonsSay(t: Router.Terms, route: Route)
    ensures var budget, r := Router.BudgetReasons(t, route), t.request;
      && (forall reason :: reason in budget ==>
            reason.ContextWindow? || reason.CostBudget? || reason.LatencyBudget? || reason.CircuitOpen?)
      && (Router.ContextWindow in budget <==> TokensOf(r.messages) + r.maxOutputTokens > route.contextWindow)
      && (Router.CostBudget in budget <==> Price(route, TokensOf(r.messages), r.maxOutputTokens) > r.maxCostUsd)
      && (Router.LatencyBudget in budget <==> route.expectedP95LatencyMs > r.maxLatencyMs)
      && (Router.Reason.CircuitOpen in budget <==> route.id !in t.available)
  {
    EstimateIsTokens(t.request.messages);
    PriceIsPredicted(route, Router.InputTokens(t.request.messages), t.request.maxOutputTokens);
    hide Router.PredictedCost;
    hide Router.InputTokens;
    hide TokensOf;
    hide Price;
  }

  /** Each reason that the router gives against a route says exactly what the route lacks. */
  lemma ReasonsSayWhatIsMissing(t: Router.Terms, route: Route)
    ensures var reasons, r := Router.Reasons(t, route), t.request;
      && (Router.Disabled in reasons <==> !route.enabled)
      && (Router.PreviousAttemptFailed in reasons <==> route.id in t.excluded)
      && (Router.NotForcedRoute in reasons <==> t.forced != None && t.forced != Some(route.id))
      && (forall missing :: Router.MissingCapabilities(missing) in reasons <==>
            missing != {} && missing == r.requiredCapabilities - route.capabilities)
      && (forall mode :: Router.PrivacyUnsupported(mode) in reasons ==> !Protects(r, route) && mode !in route.privacyModes)
      && (!Protects(r, route) ==> exists mode :: Router.PrivacyUnsupported(mode) in reasons)
      && (Router.Region in reasons <==> !InRegion(r, route))
      && (Router.ContextWindow in reasons <==> TokensOf(r.messages) + r.maxOutputTokens > route.contextWindow)
      && (Router.CostBudget in reasons <==> Price(route, TokensOf(r.messages), r.maxOutputTokens) > r.maxCostUsd)
      && (Router.LatencyBudget in reasons <==> route.expectedP95LatencyMs > r.maxLatencyMs)
      && (Router.Reason.CircuitOpen in reasons <==> route.id !in t.available)
  {
    PolicyReasonsSay(t.request, route);
    LaneReasonsSay(t, route);
    BudgetReasonsSay(t, route);
    hide Router.PolicyReasons;
    hide Router.LaneReasons;
    hide Router.BudgetReasons;
    hide Protects;
    hide InRegion;
    hide TokensOf;
    hide Price;
  }

  /** What a route must offer whatever the length of the messages. */
  predicate Suits(request: Request, route: Route) {
    && route.enabled
    && request.requiredCapabilities <= route.capabilities
    && Protects(request, route)
    && InRegion(request, route)
    && route.expectedP95LatencyMs <= request.maxLatencyMs
  }

  /** What it must offer for messages of this length. */
  predicate Affords(request: Request, route: Route) {
    && TokensOf(request.messages) + request.maxOutputTokens <= route.contextWindow
    && Price(route, TokensOf(request.messages), request.maxOutputTokens) <= request.maxCostUsd
  }

  lemma PolicyInWords(request: Request, route: Route)
    ensures Router.MeetsPolicy(request, route) <==> Suits(request, route)
  {}

  lemma BudgetInWords(request: Request, route: Route)
    ensures Router.MeetsBudget(request, route) <==> Affords(request, route)
  {
    EstimateIsTokens(request.messages);
    PriceIsPredicted(route, Router.InputTokens(request.messages), request.maxOutputTokens);
    hide Router.PredictedCost;
    hide Price;
  }

  /** A route may be tried for the request of a call. */
  predicate MayServe(t: Router.Terms, route: Route) {
    && Suits(t.request, route) && Affords(t.request, route)
    && (t.forced.Some? ==> route.id == t.forced.value)
    && route.id !in t.excluded && route.id in t.available
  }

  lemma FeasibleInWords(t: Router.Terms, route: Route)
    ensures Router.Feasible(t, route) <==> MayServe(t, route)
  {
    PolicyInWords(t.request, route);
    BudgetInWords(t.request, route);
    hide Router.MeetsPolicy;
    hide Router.MeetsBudget;
    hide Suits;
    hide Affords;
  }

  /** What the router says of a candidate it offers: its predicted price and latency, and its utility by the weights. */
  ghost predicate Describes(w: Router.Weights, request: Request, route: Route, c: Router.Candidate)
    requires request.Valid()
  {
    && c.routeId == route.id
    && c.predictedCostUsd == Price(route, TokensOf(request.messages), request.maxOutputTokens)
    && c.predictedLatencyMs == route.expectedP95LatencyMs
    && c.utility == w.quality * route.qualityScore
         - w.latency * (route.expectedP95LatencyMs as real / request.maxLatencyMs as real)
         - w.cost * (if request.maxCostUsd > 0.0 then c.predictedCostUsd / request.maxCostUsd else 0.0)
  }

  lemma CandidateInWords(w: Router.Weights, t: Router.Terms, route: Route)
    requires t.request.Valid() && Router.Feasible(t, route)
    ensures Describes(w, t.request, route, Router.MakeCandidate(w, t.request, route))
  {
    Router.UncappedUtility(w, t, route);
    EstimateIsTokens(t.request.messages);
    PriceIsPredicted(route, Router.InputTokens(t.request.messages), t.request.maxOutputTokens);
    hide Router.PredictedCost;
    hide Price;
    hide Router.Feasible;
    hide Router.Utility;
  }

  /** Route `route` is offered as it is described exactly when it may serve the request, and rejected otherwise. */
  ghost predicate Placed(w: Router.Weights, t: Router.Terms, route: Route, candidates: seq<Router.Candidate>, rejected: seq<Router.Rejected>)
    requires t.request.Valid()
  {
    && (MayServe(t, route) <==> exists c :: c in candidates && c.routeId == route.id)
    && (forall c :: c in candidates && c.routeId == route.id ==> Describes(w, t.request, route, c))
    && (!MayServe(t, route) <==> Router.Rejected(route.id, Router.Reasons(t, route)) in rejected)
  }

  lemma OffersInWords(w: Router.Weights, routes: seq<Route>, t: Router.Terms, route: Route)
    requires t.request.Valid() && Distinct(RouteIds(routes)) && route in routes
    ensures var cs := Router.Ranked(w, t, routes);
      && (MayServe(t, route) <==> exists c :: c in cs && c.routeId == route.id)
      && (forall c :: c in cs && c.routeId == route.id ==> Describes(w, t.request, route, c))
  {
    hide Router.Feasible;
    hide MayServe;
    hide Router.Ranked;
    hide Describes;
    FeasibleInWords(t, route);
    Router.RankedMembers(w, t, routes);
    var cs := Router.Ranked(w, t, routes);
    forall c | c in cs && c.routeId == route.id
      ensures Router.Feasible(t, route) && Describes(w, t.request, route, c)
    {
      RankedInWords(w, routes, t, route, c);
    }
    if Router.Feasible(t, route) {
      assert Router.Offers(cs, route.id);
      var i :| 0 <= i < |cs| && cs[i].routeId == route.id;
      assert cs[i] in cs;
    }
  }

  lemma RankedInWords(w: Router.Weights, routes: seq<Route>, t: Router.Terms, route: Route, c: Router.Candidate)
    requires t.request.Valid() && Distinct(RouteIds(routes)) && route in routes && c.routeId == route.id
    requires exists other :: Router.StandsFor(w, t, routes, c, other)
    ensures Router.Feasible(t, route) && Describes(w, t.request, route, c)
  {
    var other :| Router.StandsFor(w, t, routes, c, other);
    Router.SameIdSameRoute(routes, route, other);
    CandidateInWords(w, t, route);
    hide Router.Feasible;
    hide Router.MakeCandidate;
    DescribesWithoutRegret(w, t.request, route, c);
  }

  lemma DescribesWithoutRegret(w: Router.Weights, request: Request, route: Route, c: Router.Candidate)
    requires request.Valid() && Describes(w, request, route, c.(routingRegret := 0.0))
    ensures Describes(w, request, route, c)
  {
    hide Price;
    hide TokensOf;
  }

  lemma RejectionsInWords(routes: seq<Route>, t: Router.Terms, route: Route)
    requires Distinct(RouteIds(routes)) && route in routes
    ensures !MayServe(t, route) <==> Router.Rejected(route.id, Router.Reasons(t, route)) in Router.RejectedRoutes(t, routes)
  {
    hide Router.Feasible;
    hide MayServe;
    hide Router.Reasons;
    hide Router.RejectedRoutes;
    FeasibleInWords(t, route);
    var rejection := Router.Rejected(route.id, Router.Reasons(t, route));
    Router.RejectedMembers(t, routes, rejection);
    if rejection in Router.RejectedRoutes(t, routes) {
      var other :| other in routes && !Router.Feasible(t, other) && rejection == Router.Rejected(other.id, Router.Reasons(t, other));
      Router.SameIdSameRoute(routes, route, other);
    }
  }

  /**
    The decision, in words: it offers exactly the routes that may serve the request,
    each described by its price, latency and utility, and rejects every other one.
   */
  lemma DecisionInWords(w: Router.Weights, routes: seq<Route>, t: Router.Terms, preferred: Option<RouteId>, route: Route)
    requires t.request.Valid() && Distinct(RouteIds(routes)) && route in routes
    ensures match Router.DecisionFor(w, routes, t, preferred)
      case NoEligibleRoute(rejected) => Placed(w, t, route, [], rejected)
      case Routed(decision) => Placed(w, t, route, decision.candidates, decision.rejected)
  {
    hide Router.Feasible;
    hide MayServe;
    hide Router.Ranked;
    hide Describes;
    hide Router.Reasons;
    hide Router.RejectedRoutes;
    OffersInWords(w, routes, t, route);
    RejectionsInWords(routes, t, route);
  }

  // -------------------------------------------------------------------------
  // Answers

  /** The answer comes from a route of the catalogue that suits this request. */
  ghost predicate FromSuitable(g: Gateway, request: Request, r: Response) {
    exists route :: route in g.routes && route.id == r.routeId && Suits(request, route)
  }

  lemma FittingIsSuitable(g: Gateway, request: Request, namespace: string, r: Response)
    requires Fits(g, request, namespace, r)
    ensures FromSuitable(g, request, r)
  {
    var route :| route in g.routes && route.id == r.routeId && Router.MeetsPolicy(request, route);
    PolicyInWords(request, route);
  }

  /**
    In every run of the cache a hit comes from a route that suits its reader: a reader
    with confidential data never gets what a route that retains data has answered.
   */
  lemma HitsKeepThePolicy(g: Gateway, config: Cache.Config, ops: seq<Cache.Op>, reader: Request, namespace: string, now: real)
    requires config.Valid() && Issued(g, ops)
    requires Cache.Hit(config, Cache.Run(config, ops), reader, namespace, now).Some?
    ensures FromSuitable(g, reader, Cache.Hit(config, Cache.Run(config, ops), reader, namespace, now).value)
  {
    HitsFitTheReader(g, config, ops, reader, namespace, now);
    hide Cache.Hit;
    hide Cache.Run;
    FittingIsSuitable(g, reader, namespace, Cache.Hit(config, Cache.Run(config, ops), reader, namespace, now).value);
  }

  /** Every route that a call tries may serve its request. */
  lemma TriedRoutesMayServe(g: Gateway, call: Call, a: Arrival, i: nat)
    requires call.request.Valid() && Distinct(RouteIds(g.routes)) && Enter(g, call, a).Candidates?
    requires i < |Enter(g, call, a).context.targets|
    ensures var c := Enter(g, call, a).context;
      c.targets[i].route in g.routes && MayServe(TermsOf(call, a, c.lane.request), c.targets[i].route)
  {
    EnterIsReady(g, call, a);
    var c := Enter(g, call, a).context;
    hide Enter;
    FeasibleInWords(TermsOf(call, a, c.lane.request), c.targets[i].route);
  }
}
