/**
  How the route of a request is chosen: the routes that meet all of its constraints,
  best utility first.
 */
module Router {
  import opened Domain
  import opened Ordering
  import CircuitBreaker

  datatype Weights = Weights(quality: real, latency: real, cost: real)

  datatype Reason =
    | Disabled
    | PreviousAttemptFailed
    | NotForcedRoute
    | MissingCapabilities(missing: set<Capability>)
    | PrivacyUnsupported(mode: PrivacyMode)
    | Region
    | ContextWindow
    | CostBudget
    | LatencyBudget
    | CircuitOpen

  datatype Candidate = Candidate(
    routeId: RouteId,
    predictedCostUsd: real,
    predictedLatencyMs: int,
    utility: real,
    routingRegret: real)

  datatype Rejected = Rejected(routeId: RouteId, reasons: seq<Reason>)

  datatype Decision = Decision(
    selectedRouteId: RouteId,
    candidates: seq<Candidate>,
    rejected: seq<Rejected>)

  datatype Outcome = Routed(decision: Decision) | NoEligibleRoute(rejected: seq<Rejected>)

  /** Everything a route is checked against: the request, the lane and the circuits. */
  datatype Terms = Terms(
    request: Request,
    forced: Option<RouteId>,
    excluded: set<RouteId>,
    available: set<RouteId>)

  function EstimateTokens(text: string): int { Max(1, (|text| + 3) / 4) }

  function InputTokens(messages: seq<Message>): int {
    if messages == [] then 0
    else InputTokens(messages[..|messages| - 1]) + EstimateTokens(messages[|messages| - 1].content) + 4
  }

  function RequiredPrivacy(request: Request): PrivacyMode {
    if request.classification.Restricted? then LocalOnly
    else if request.classification.Confidential? && request.privacyMode.Standard? then ZeroRetention
    else request.privacyMode
  }

  function PredictedCost(route: Route, inputTokens: int, outputTokens: int): real {
    (inputTokens as real * route.inputCostPerMillion + outputTokens as real * route.outputCostPerMillion) / 1_000_000.0
  }

  function ActualCost(route: Route, inputTokens: int, outputTokens: int): real {
    PredictedCost(route, inputTokens, outputTokens)
  }

  function RequestCost(route: Route, request: Request): real {
    PredictedCost(route, InputTokens(request.messages), request.maxOutputTokens)
  }

  function Flag(failed: bool, reason: Reason): seq<Reason> { if failed then [reason] else [] }

  function LaneReasons(t: Terms, route: Route): seq<Reason> {
    Flag(!route.enabled, Disabled)
    + Flag(route.id in t.excluded, PreviousAttemptFailed)
    + Flag(t.forced.Some? && route.id != t.forced.value, NotForcedRoute)
  }

  function PolicyReasons(r: Request, route: Route): seq<Reason> {
    var missing := r.requiredCapabilities - route.capabilities;
    Flag(missing != {}, MissingCapabilities(missing))
    + Flag(RequiredPrivacy(r) !in route.privacyModes, PrivacyUnsupported(RequiredPrivacy(r)))
    + Flag(r.allowedRegions != {} && r.allowedRegions * route.regions == {}, Region)
  }

  function BudgetReasons(t: Terms, route: Route): seq<Reason> {
    var r := t.request;
    Flag(InputTokens(r.messages) + r.maxOutputTokens > route.contextWindow, ContextWindow)
    + Flag(RequestCost(route, r) > r.maxCostUsd, CostBudget)
    + Flag(route.expectedP95LatencyMs > r.maxLatencyMs, LatencyBudget)
    + Flag(route.id !in t.available, CircuitOpen)
  }

  /** Every check that the route fails, in the order of the checks. */
  function Reasons(t: Terms, route: Route): seq<Reason> {
    LaneReasons(t, route) + PolicyReasons(t.request, route) + BudgetReasons(t, route)
  }

  /** The constraints of the request that do not depend on the length of its messages. */
  predicate MeetsPolicy(request: Request, route: Route) {
    && route.enabled
    && request.requiredCapabilities <= route.capabilities
    && RequiredPrivacy(request) in route.privacyModes
    && (request.allowedRegions == {} || exists region :: region in request.allowedRegions && region in route.regions)
    && route.expectedP95LatencyMs <= request.maxLatencyMs
  }

  /** The constraints that do: the context window, and the cost at its estimate. */
  predicate MeetsBudget(request: Request, route: Route) {
    && InputTokens(request.messages) + request.maxOutputTokens <= route.contextWindow
    && RequestCost(route, request) <= request.maxCostUsd
  }

  /** The request contract, as one condition. */
  predicate Feasible(t: Terms, route: Route) {
    && MeetsPolicy(t.request, route)
    && MeetsBudget(t.request, route)
    && (t.forced == None || t.forced == Some(route.id))
    && route.id !in t.excluded
    && route.id in t.available
  }

  lemma ReasonsExactlyWhenInfeasible(t: Terms, route: Route)
    ensures Reasons(t, route) == [] <==> Feasible(t, route)
  {
    var r := t.request;
    assert (r.requiredCapabilities - route.capabilities == {}) == (r.requiredCapabilities <= route.capabilities) by {
      assert forall c :: c in r.requiredCapabilities - route.capabilities <==>
                         c in r.requiredCapabilities && c !in route.capabilities;
    }
    if r.allowedRegions * route.regions != {} {
      var region :| region in r.allowedRegions * route.regions;
      assert region in r.allowedRegions && region in route.regions;
    } else {
      assert forall region :: region in r.allowedRegions && region in route.regions ==>
                              region in r.allowedRegions * route.regions;
    }
  }

  function Utility(w: Weights, route: Route, request: Request, predictedCost: real): real
    requires request.Valid()
  {
    var latencyRatio := MinReal(1.0, route.expectedP95LatencyMs as real / request.maxLatencyMs as real);
    var costRatio := if request.maxCostUsd > 0.0 then MinReal(1.0, predictedCost / request.maxCostUsd) else 0.0;
    w.quality * route.qualityScore - w.latency * latencyRatio - w.cost * costRatio
  }

  function MakeCandidate(w: Weights, request: Request, route: Route): Candidate
    requires request.Valid()
  {
    var cost := RequestCost(route, request);
    Candidate(route.id, cost, route.expectedP95LatencyMs, Utility(w, route, request, cost), 0.0)
  }

  function AsCandidate(w: Weights, t: Terms, route: Route): Option<Candidate>
    requires t.request.Valid()
  {
    if Reasons(t, route) == [] then Some(MakeCandidate(w, t.request, route)) else None
  }

  function AsRejected(t: Terms, route: Route): Option<Rejected> {
    if Reasons(t, route) != [] then Some(Rejected(route.id, Reasons(t, route))) else None
  }

  function Unranked(w: Weights, t: Terms, routes: seq<Route>): seq<Candidate>
    requires t.request.Valid()
  {
    Collect(route => AsCandidate(w, t, route), routes)
  }

  function RejectedRoutes(t: Terms, routes: seq<Route>): seq<Rejected> {
    Collect(route => AsRejected(t, route), routes)
  }

  /** The sort key: descending utility, then cost, then id. */
  predicate RanksBefore(a: Candidate, b: Candidate) {
    a.utility > b.utility ||
    (a.utility == b.utility &&
      (a.predictedCostUsd < b.predictedCostUsd ||
        (a.predictedCostUsd == b.predictedCostUsd && StringLeq(a.routeId, b.routeId))))
  }

  function WithRegrets(ranked: seq<Candidate>): (r: seq<Candidate>)
    ensures |r| == |ranked|
    ensures forall i :: 0 <= i < |r| ==>
      r[i] == ranked[i].(routingRegret := MaxReal(0.0, ranked[0].utility - ranked[i].utility))
  {
    seq(|ranked|, i requires 0 <= i < |ranked| =>
      ranked[i].(routingRegret := MaxReal(0.0, ranked[0].utility - ranked[i].utility)))
  }

  function Ranked(w: Weights, t: Terms, routes: seq<Route>): seq<Candidate>
    requires t.request.Valid()
  {
    WithRegrets(Sort(RanksBefore, Unranked(w, t, routes)))
  }

  predicate Offers(candidates: seq<Candidate>, id: RouteId) {
    exists i :: 0 <= i < |candidates| && candidates[i].routeId == id
  }

  function Select(candidates: seq<Candidate>, preferred: Option<RouteId>): RouteId
    requires candidates != []
  {
    if preferred.Some? && Offers(candidates, preferred.value) then preferred.value else candidates[0].routeId
  }

  function DecisionFor(w: Weights, routes: seq<Route>, t: Terms, preferred: Option<RouteId>): Outcome
    requires t.request.Valid()
  {
    var candidates := Ranked(w, t, routes);
    if candidates == [] then NoEligibleRoute(RejectedRoutes(t, routes))
    else Routed(Decision(Select(candidates, preferred), candidates, RejectedRoutes(t, routes)))
  }

  /** The circuits after asking for the availability of `ids`, one after the other, the clock read anew for each. */
  function QueryAll(s: CircuitBreaker.Settings, m: CircuitBreaker.Circuits, ids: seq<RouteId>, clock: RouteId -> real): CircuitBreaker.Circuits {
    if ids == [] then m
    else
      CircuitBreaker.ApplyCall(
        s, QueryAll(s, m, ids[..|ids| - 1], clock),
        CircuitBreaker.On(ids[|ids| - 1], CircuitBreaker.Query(clock(ids[|ids| - 1]))))
  }

  lemma {:induction false} QueriesLeaveOthersAlone(
    s: CircuitBreaker.Settings, m: CircuitBreaker.Circuits, ids: seq<RouteId>, clock: RouteId -> real, route: RouteId)
    requires route !in ids
    ensures CircuitBreaker.At(QueryAll(s, m, ids, clock), route) == CircuitBreaker.At(m, route)
  {
    if ids != [] { QueriesLeaveOthersAlone(s, m, ids[..|ids| - 1], clock, route); }
  }

  lemma EmptyQuery(s: CircuitBreaker.Settings, m: CircuitBreaker.Circuits, clock: RouteId -> real)
    ensures QueryAll(s, m, [], clock) == m
  {}

  lemma QueryAllSnoc(
    s: CircuitBreaker.Settings, m: CircuitBreaker.Circuits, ids: seq<RouteId>, clock: RouteId -> real, i: nat)
    requires i < |ids|
    ensures QueryAll(s, m, ids[..i + 1], clock) ==
            CircuitBreaker.ApplyCall(s, QueryAll(s, m, ids[..i], clock), CircuitBreaker.On(ids[i], CircuitBreaker.Query(clock(ids[i]))))
  {
    assert ids[..i + 1][..i] == ids[..i];
  }

  lemma UnrankedSnoc(w: Weights, t: Terms, routes: seq<Route>, i: nat)
    requires t.request.Valid() && i < |routes|
    ensures Unranked(w, t, routes[..i + 1]) ==
            Unranked(w, t, routes[..i]) + if Reasons(t, routes[i]) == [] then [MakeCandidate(w, t.request, routes[i])] else []
    ensures RejectedRoutes(t, routes[..i + 1]) ==
            RejectedRoutes(t, routes[..i]) + if Reasons(t, routes[i]) != [] then [Rejected(routes[i].id, Reasons(t, routes[i]))] else []
  {
    assert routes[..i + 1][..i] == routes[..i];
  }

  /** The routes whose circuit would let a request through. */
  ghost function AvailableIn(
    s: CircuitBreaker.Settings, m: CircuitBreaker.Circuits, routes: seq<Route>, clock: RouteId -> real): set<RouteId>
  {
    set route | route in routes && CircuitBreaker.Admit(s, CircuitBreaker.At(m, route.id), clock(route.id)).Admitted? :: route.id
  }

  // -------------------------------------------------------------------------
  // The router

  class PolicyRouter {
    const routes: seq<Route>
    const weights: Weights
    const circuits: CircuitBreaker.CircuitBreakers

    constructor (routes: seq<Route>, weights: Weights, circuits: CircuitBreaker.CircuitBreakers)
      ensures this.routes == routes && this.weights == weights && this.circuits == circuits
    {
      this.routes := routes;
      this.weights := weights;
      this.circuits := circuits;
    }

    ghost function Available(clock: RouteId -> real): set<RouteId>
      reads circuits
    {
      AvailableIn(circuits.settings, circuits.circuits, routes, clock)
    }

    method FailedChecks(
      route: Route, request: Request, forced: Option<RouteId>, excluded: set<RouteId>,
      inputTokens: int, available: bool, ghost terms: Terms)
      returns (reasons: seq<Reason>)
      requires inputTokens == InputTokens(request.messages)
      requires terms == Terms(request, forced, excluded, terms.available)
      requires available <==> route.id in terms.available
      ensures reasons == Reasons(terms, route)
    {
      var lane := [];
      if !route.enabled {
        lane := lane + [Disabled];
      }
      if route.id in excluded {
        lane := lane + [PreviousAttemptFailed];
      }
      if forced.Some? && route.id != forced.value {
        lane := lane + [NotForcedRoute];
      }
      assert lane == LaneReasons(terms, route);
      var policy := FailedPolicy(route, request);
      var budget := FailedBudget(route, request, inputTokens, available, terms);
      reasons := lane + policy + budget;
    }

    method FailedPolicy(route: Route, request: Request) returns (reasons: seq<Reason>)
      ensures reasons == PolicyReasons(request, route)
    {
      reasons := [];
      var requiredPrivacy := RequiredPrivacy(request);
      var missing := request.requiredCapabilities - route.capabilities;
      if missing != {} {
        reasons := reasons + [MissingCapabilities(missing)];
      }
      if requiredPrivacy !in route.privacyModes {
        reasons := reasons + [PrivacyUnsupported(requiredPrivacy)];
      }
      if request.allowedRegions != {} && request.allowedRegions * route.regions == {} {
        reasons := reasons + [Region];
      }
    }

    method FailedBudget(route: Route, request: Request, inputTokens: int, available: bool, ghost terms: Terms)
      returns (reasons: seq<Reason>)
      requires inputTokens == InputTokens(request.messages)
      requires terms.request == request && (available <==> route.id in terms.available)
      ensures reasons == BudgetReasons(terms, route)
    {
      reasons := [];
      var predictedCost := PredictedCost(route, inputTokens, request.maxOutputTokens);
      if inputTokens + request.maxOutputTokens > route.contextWindow {
        reasons := reasons + [ContextWindow];
      }
      if predictedCost > request.maxCostUsd {
        reasons := reasons + [CostBudget];
      }
      if route.expectedP95LatencyMs > request.maxLatencyMs {
        reasons := reasons + [LatencyBudget];
      }
      if !available {
        reasons := reasons + [CircuitOpen];
      }
    }

    method FillRegrets(ranked: seq<Candidate>) returns (candidates: seq<Candidate>)
      requires ranked != []
      ensures candidates == WithRegrets(ranked)
    {
      candidates := ranked;
      var bestUtility := candidates[0].utility;
      var j := 0;
      while j < |candidates|
        invariant 0 <= j <= |candidates| == |ranked|
        invariant forall i :: 0 <= i < j ==> candidates[i] == WithRegrets(ranked)[i]
        invariant forall i :: j <= i < |ranked| ==> candidates[i] == ranked[i]
        invariant bestUtility == ranked[0].utility
      {
        var regret := MaxReal(0.0, bestUtility - candidates[j].utility);
        candidates := candidates[j := candidates[j].(routingRegret := regret)];
        j := j + 1;
      }
    }

    /** Sorts the routes of the catalogue into candidates and rejections, asking each circuit on the way. */
    method Filter(request: Request, forced: Option<RouteId>, excluded: set<RouteId>, clock: RouteId -> real)
      returns (candidates: seq<Candidate>, rejected: seq<Rejected>)
      requires request.Valid() && Distinct(RouteIds(routes))
      modifies circuits
      ensures var terms := Terms(request, forced, excluded, old(Available(clock)));
        candidates == Unranked(weights, terms, routes) && rejected == RejectedRoutes(terms, routes)
      ensures circuits.circuits == QueryAll(circuits.settings, old(circuits.circuits), RouteIds(routes), clock)
    {
      hide Reasons;
      hide MakeCandidate;
      hide QueryAll;
      hide CircuitBreaker.ApplyCall;
      hide CircuitBreaker.Admit;
      EmptyQuery(circuits.settings, circuits.circuits, clock);
      ghost var terms := Terms(request, forced, excluded, Available(clock));
      var inputTokens := InputTokens(request.messages);
      candidates, rejected := [], [];
      var i := 0;
      while i < |routes|
        invariant 0 <= i <= |routes|
        invariant candidates == Unranked(weights, terms, routes[..i])
        invariant rejected == RejectedRoutes(terms, routes[..i])
        invariant circuits.circuits == QueryAll(circuits.settings, old(circuits.circuits), RouteIds(routes)[..i], clock)
      {
        var route := routes[i];
        assert RouteIds(routes)[i] == route.id && route.id !in RouteIds(routes)[..i];
        QueriesLeaveOthersAlone(circuits.settings, old(circuits.circuits), RouteIds(routes)[..i], clock, route.id);
        var available := circuits.IsAvailable(route.id, clock(route.id));
        QueryAllSnoc(circuits.settings, old(circuits.circuits), RouteIds(routes), clock, i);
        AvailableByIndex(i, clock, old(circuits.circuits));
        var reasons := FailedChecks(route, request, forced, excluded, inputTokens, available, terms);
        UnrankedSnoc(weights, terms, routes, i);
        if reasons != [] {
          rejected := rejected + [Rejected(route.id, reasons)];
        } else {
          candidates := candidates + [MakeCandidate(weights, request, route)];
        }
        i := i + 1;
      }
      assert routes[..i] == routes;
      assert RouteIds(routes)[..i] == RouteIds(routes);
    }

    method Decide(request: Request, preferred: Option<RouteId>, forced: Option<RouteId>, excluded: set<RouteId>, clock: RouteId -> real)
      returns (outcome: Outcome)
      requires request.Valid() && Distinct(RouteIds(routes))
      modifies circuits
      ensures outcome == DecisionFor(weights, routes, Terms(request, forced, excluded, old(Available(clock))), preferred)
      ensures circuits.circuits == QueryAll(circuits.settings, old(circuits.circuits), RouteIds(routes), clock)
    {
      var candidates, rejected := Filter(request, forced, excluded, clock);
      RankingIsTotal();
      SortSorts(RanksBefore, candidates);
      if candidates == [] {
        return NoEligibleRoute(rejected);
      }
      candidates := Sort(RanksBefore, candidates);
      candidates := FillRegrets(candidates);
      var selected := candidates[0].routeId;
      if preferred.Some? && Offers(candidates, preferred.value) {
        selected := preferred.value;
      }
      outcome := Routed(Decision(selected, candidates, rejected));
    }

    lemma AvailableByIndex(i: nat, clock: RouteId -> real, circuits0: CircuitBreaker.Circuits)
      requires i < |routes| && Distinct(RouteIds(routes))
      ensures routes[i].id in AvailableIn(circuits.settings, circuits0, routes, clock) <==>
              CircuitBreaker.Admit(circuits.settings, CircuitBreaker.At(circuits0, routes[i].id), clock(routes[i].id)).Admitted?
    {}
  }

  // -------------------------------------------------------------------------
  // The ranking

  lemma RankingIsTotal()
    ensures TotalPreorder(RanksBefore)
  {
    forall a, b ensures RanksBefore(a, b) || RanksBefore(b, a) {
      StringLeqTotal(a.routeId, b.routeId);
    }
    forall a, b, c | RanksBefore(a, b) && RanksBefore(b, c) ensures RanksBefore(a, c) {
      if StringLeq(a.routeId, b.routeId) && StringLeq(b.routeId, c.routeId) {
        StringLeqTransitive(a.routeId, b.routeId, c.routeId);
      }
    }
  }

  /** A candidate is exactly a feasible route of the catalogue, costed and scored. */
  lemma UnrankedMembers(w: Weights, t: Terms, routes: seq<Route>, c: Candidate)
    requires t.request.Valid()
    ensures c in Unranked(w, t, routes) <==>
            exists route :: route in routes && Feasible(t, route) && c == MakeCandidate(w, t.request, route)
  {
    CollectMembers(route => AsCandidate(w, t, route), routes, c);
    forall route ensures AsCandidate(w, t, route) == Some(c) <==> Feasible(t, route) && c == MakeCandidate(w, t.request, route) {
      ReasonsExactlyWhenInfeasible(t, route);
    }
  }

  lemma RejectedMembers(t: Terms, routes: seq<Route>, r: Rejected)
    ensures r in RejectedRoutes(t, routes) <==>
            exists route :: route in routes && !Feasible(t, route) && r == Rejected(route.id, Reasons(t, route))
  {
    CollectMembers(route => AsRejected(t, route), routes, r);
    forall route ensures AsRejected(t, route) == Some(r) <==> !Feasible(t, route) && r == Rejected(route.id, Reasons(t, route)) {
      ReasonsExactlyWhenInfeasible(t, route);
    }
  }

  lemma SameIdSameRoute(routes: seq<Route>, a: Route, b: Route)
    requires Distinct(RouteIds(routes)) && a in routes && b in routes && a.id == b.id
    ensures a == b
  {
    var i :| 0 <= i < |routes| && routes[i] == a;
    var j :| 0 <= j < |routes| && routes[j] == b;
    assert RouteIds(routes)[i] == RouteIds(routes)[j];
  }

  lemma {:induction false} UnrankedIdsDistinct(w: Weights, t: Terms, routes: seq<Route>)
    requires t.request.Valid() && Distinct(RouteIds(routes))
    ensures forall i, j :: 0 <= i < j < |Unranked(w, t, routes)| ==>
              Unranked(w, t, routes)[i].routeId != Unranked(w, t, routes)[j].routeId
  {
    if routes != [] {
      var n := |routes| - 1;
      var before := routes[..n];
      assert RouteIds(before) == RouteIds(routes)[..n];
      UnrankedIdsDistinct(w, t, before);
      assert routes[..n + 1] == routes;
      UnrankedSnoc(w, t, routes, n);
      forall c | c in Unranked(w, t, before) ensures c.routeId != routes[n].id {
        UnrankedMembers(w, t, before, c);
        var route :| route in before && c == MakeCandidate(w, t.request, route);
        var i :| 0 <= i < n && before[i] == route;
        assert RouteIds(routes)[i] != RouteIds(routes)[n];
      }
    }
  }

  lemma UnrankedIsAntisymmetric(w: Weights, t: Terms, routes: seq<Route>)
    requires t.request.Valid() && Distinct(RouteIds(routes))
    ensures Antisymmetric(RanksBefore, Unranked(w, t, routes))
  {
    var cs := Unranked(w, t, routes);
    UnrankedIdsDistinct(w, t, routes);
    forall i, j | 0 <= i < |cs| && 0 <= j < |cs| && RanksBefore(cs[i], cs[j]) && RanksBefore(cs[j], cs[i])
      ensures cs[i] == cs[j]
    {
      StringLeqAntisymmetric(cs[i].routeId, cs[j].routeId);
    }
  }

  /**
    The decision does not depend on the order of the catalogue: candidates, their
    regrets and the selected route are the same, and so are the rejections up to order.
   */
  lemma DecisionForgetsCatalogueOrder(w: Weights, a: seq<Route>, b: seq<Route>, t: Terms, preferred: Option<RouteId>)
    requires t.request.Valid() && Distinct(RouteIds(a)) && multiset(a) == multiset(b)
    ensures Ranked(w, t, a) == Ranked(w, t, b)
    ensures multiset(RejectedRoutes(t, a)) == multiset(RejectedRoutes(t, b))
    ensures DecisionFor(w, a, t, preferred).Routed? <==> DecisionFor(w, b, t, preferred).Routed?
    ensures DecisionFor(w, a, t, preferred).Routed? ==>
              DecisionFor(w, a, t, preferred).decision.selectedRouteId == DecisionFor(w, b, t, preferred).decision.selectedRouteId
  {
    CollectForgetsOrder(route => AsCandidate(w, t, route), a, b);
    CollectForgetsOrder(route => AsRejected(t, route), a, b);
    RankingIsTotal();
    UnrankedIsAntisymmetric(w, t, a);
    SortForgetsOrder(RanksBefore, Unranked(w, t, a), Unranked(w, t, b));
  }

  /** Candidate c stands for this feasible route of the catalogue. */
  ghost predicate StandsFor(w: Weights, t: Terms, routes: seq<Route>, c: Candidate, route: Route)
    requires t.request.Valid()
  {
    && route in routes
    && Feasible(t, route)
    && c.(routingRegret := 0.0) == MakeCandidate(w, t.request, route)
  }

  lemma RankedMembers(w: Weights, t: Terms, routes: seq<Route>)
    requires t.request.Valid() && Distinct(RouteIds(routes))
    ensures var cs := Ranked(w, t, routes);
      && |cs| == |Unranked(w, t, routes)|
      && (forall c :: c in cs ==> exists route :: StandsFor(w, t, routes, c, route))
      && (forall route :: route in routes && Feasible(t, route) ==> Offers(cs, route.id))
      && (forall i, j :: 0 <= i < j < |cs| ==> cs[i].routeId != cs[j].routeId)
  {
    var unranked := Unranked(w, t, routes);
    var sorted := Sort(RanksBefore, unranked);
    RankingIsTotal();
    SortSorts(RanksBefore, unranked);
    var cs := Ranked(w, t, routes);
    forall c | c in cs ensures exists route :: StandsFor(w, t, routes, c, route) {
      var i :| 0 <= i < |cs| && cs[i] == c;
      assert sorted[i] in multiset(unranked);
      UnrankedMembers(w, t, routes, sorted[i]);
      var route :| route in routes && Feasible(t, route) && sorted[i] == MakeCandidate(w, t.request, route);
      assert StandsFor(w, t, routes, c, route);
    }
    forall route | route in routes && Feasible(t, route) ensures Offers(cs, route.id) {
      var c := MakeCandidate(w, t.request, route);
      UnrankedMembers(w, t, routes, c);
      assert c in multiset(sorted);
      var i :| 0 <= i < |sorted| && sorted[i] == c;
      assert cs[i].routeId == route.id;
    }
    UnrankedIdsDistinct(w, t, routes);
    SortKeepsIdsDistinct(unranked, sorted);
  }

  lemma SortKeepsIdsDistinct(a: seq<Candidate>, b: seq<Candidate>)
    requires multiset(a) == multiset(b)
    requires forall i, j :: 0 <= i < j < |a| ==> a[i].routeId != a[j].routeId
    ensures forall i, j :: 0 <= i < j < |b| ==> b[i].routeId != b[j].routeId
  {
    forall i, j | 0 <= i < j < |b| ensures b[i].routeId != b[j].routeId {
      if b[i].routeId == b[j].routeId {
        assert b[i] in multiset(a) && b[j] in multiset(a);
        var k :| 0 <= k < |a| && a[k] == b[i];
        var l :| 0 <= l < |a| && a[l] == b[j];
        assert k == l;
        OccursTwice(b, i, j);
        OccursOnce(a, k);
      }
    }
  }

  lemma OccursTwice<T>(s: seq<T>, i: nat, j: nat)
    requires i < j < |s| && s[i] == s[j]
    ensures multiset(s)[s[i]] >= 2
  {
    assert s == s[..i] + [s[i]] + s[i + 1..j] + [s[j]] + s[j + 1..];
  }

  lemma OccursOnce<T>(s: seq<T>, k: nat)
    requires k < |s| && forall i :: 0 <= i < |s| && i != k ==> s[i] != s[k]
    ensures multiset(s)[s[k]] == 1
  {
    assert s == s[..k] + [s[k]] + s[k + 1..];
    assert s[k] !in s[..k] && s[k] !in s[k + 1..];
  }

  /** Candidates and rejections partition the catalogue, and every rejection has a reason. */
  lemma DecisionPartitionsCatalogue(w: Weights, t: Terms, routes: seq<Route>)
    requires t.request.Valid() && Distinct(RouteIds(routes))
    ensures |Ranked(w, t, routes)| + |RejectedRoutes(t, routes)| == |routes|
    ensures forall route :: route in routes ==>
              (Offers(Ranked(w, t, routes), route.id) <==> Feasible(t, route))
    ensures forall route :: route in routes ==>
              ((exists r :: r in RejectedRoutes(t, routes) && r.routeId == route.id) <==> !Feasible(t, route))
    ensures forall r :: r in RejectedRoutes(t, routes) ==> r.reasons != []
  {
    RankedMembers(w, t, routes);
    var cs := Ranked(w, t, routes);
    CountsAddUp(w, t, routes);
    forall route | route in routes && Offers(cs, route.id) ensures Feasible(t, route) {
      var i :| 0 <= i < |cs| && cs[i].routeId == route.id;
      assert cs[i] in cs;
      var other :| StandsFor(w, t, routes, cs[i], other);
      SameIdSameRoute(routes, route, other);
    }
    forall route | route in routes
      ensures (exists r :: r in RejectedRoutes(t, routes) && r.routeId == route.id) <==> !Feasible(t, route)
    {
      if !Feasible(t, route) {
        RejectedMembers(t, routes, Rejected(route.id, Reasons(t, route)));
      }
      if r :| r in RejectedRoutes(t, routes) && r.routeId == route.id {
        RejectedMembers(t, routes, r);
        var other :| other in routes && !Feasible(t, other) && r == Rejected(other.id, Reasons(t, other));
        SameIdSameRoute(routes, route, other);
      }
    }
    forall r | r in RejectedRoutes(t, routes) ensures r.reasons != [] {
      RejectedMembers(t, routes, r);
      var other :| other in routes && !Feasible(t, other) && r == Rejected(other.id, Reasons(t, other));
      ReasonsExactlyWhenInfeasible(t, other);
    }
  }

  lemma {:induction false} CountsAddUp(w: Weights, t: Terms, routes: seq<Route>)
    requires t.request.Valid()
    ensures |Unranked(w, t, routes)| + |RejectedRoutes(t, routes)| == |routes|
  {
    if routes != [] {
      CountsAddUp(w, t, routes[..|routes| - 1]);
      assert routes[..|routes| - 1 + 1] == routes;
      UnrankedSnoc(w, t, routes, |routes| - 1);
    }
  }

  /** `b` asks for no more than `a`: larger budgets, fewer tokens and capabilities, more regions. */
  ghost predicate Relaxes(a: Request, b: Request) {
    && a.messages == b.messages
    && a.classification == b.classification
    && a.privacyMode == b.privacyMode
    && a.maxCostUsd <= b.maxCostUsd
    && a.maxLatencyMs <= b.maxLatencyMs
    && b.maxOutputTokens <= a.maxOutputTokens
    && b.requiredCapabilities <= a.requiredCapabilities
    && (b.allowedRegions == {} || (a.allowedRegions != {} && a.allowedRegions <= b.allowedRegions))
  }

  lemma CostGrowsWithTokens(route: Route, input: int, output: int, moreInput: int, moreOutput: int)
    requires route.Valid() && input <= moreInput && output <= moreOutput
    ensures PredictedCost(route, input, output) <= PredictedCost(route, moreInput, moreOutput)
  {
    ProductGrows(input as real, moreInput as real, route.inputCostPerMillion);
    ProductGrows(output as real, moreOutput as real, route.outputCostPerMillion);
  }

  lemma ProductGrows(a: real, b: real, c: real)
    requires a <= b && c >= 0.0
    ensures a * c <= b * c
  {}

  /** Relaxing the request only enlarges the feasible set. */
  lemma FeasibilityIsMonotone(a: Terms, b: Terms, route: Route)
    requires route.Valid() && Relaxes(a.request, b.request)
    requires a.forced == b.forced && a.excluded == b.excluded && a.available == b.available
    requires Feasible(a, route)
    ensures Feasible(b, route)
  {
    var tokens := InputTokens(a.request.messages);
    CostGrowsWithTokens(route, tokens, b.request.maxOutputTokens, tokens, a.request.maxOutputTokens);
    if b.request.allowedRegions != {} {
      var region :| region in a.request.allowedRegions && region in route.regions;
      assert region in b.request.allowedRegions;
    }
  }

  /** A preference changes nothing but the selected route, which is feasible all the same. */
  lemma PreferenceOnlySelects(w: Weights, routes: seq<Route>, t: Terms, preferred: Option<RouteId>)
    requires t.request.Valid() && Distinct(RouteIds(routes))
    requires DecisionFor(w, routes, t, preferred).Routed?
    ensures var decision := DecisionFor(w, routes, t, preferred).decision;
      && DecisionFor(w, routes, t, None) == Routed(decision.(selectedRouteId := decision.candidates[0].routeId))
      && (exists r :: r in routes && r.id == decision.selectedRouteId && Feasible(t, r))
      && (preferred.Some? && (exists r :: r in routes && r.id == preferred.value && Feasible(t, r))
          ==> decision.selectedRouteId == preferred.value)
      && (decision.selectedRouteId == decision.candidates[0].routeId || preferred == Some(decision.selectedRouteId))
  {
    RankedMembers(w, t, routes);
    hide Feasible;
    hide Ranked;
    var cs := Ranked(w, t, routes);
    var selected := Select(cs, preferred);
    assert cs[0].routeId == cs[0].routeId;
    assert Offers(cs, selected);
    var i :| 0 <= i < |cs| && cs[i].routeId == selected;
    assert cs[i] in cs;
    var r :| StandsFor(w, t, routes, cs[i], r);
    assert r in routes && r.id == selected && Feasible(t, r);
  }

  lemma UncappedUtility(w: Weights, t: Terms, route: Route)
    requires t.request.Valid() && Feasible(t, route)
    ensures MakeCandidate(w, t.request, route).utility ==
            w.quality * route.qualityScore
            - w.latency * (route.expectedP95LatencyMs as real / t.request.maxLatencyMs as real)
            - w.cost * (if t.request.maxCostUsd > 0.0 then RequestCost(route, t.request) / t.request.maxCostUsd else 0.0)
  {
    RatioAtMostOne(route.expectedP95LatencyMs as real, t.request.maxLatencyMs as real);
    if t.request.maxCostUsd > 0.0 {
      RatioAtMostOne(RequestCost(route, t.request), t.request.maxCostUsd);
    }
    hide PredictedCost;
  }

  /**
    A later candidate is never better: it has no more utility, at equal utility no
    less cost, and at equal cost no smaller id. The regret is the exact distance to
    the best and grows along the ranking.
   */
  lemma RegretsGrowAlongTheRanking(w: Weights, t: Terms, routes: seq<Route>, i: nat, j: nat)
    requires t.request.Valid() && i < j < |Ranked(w, t, routes)|
    ensures var cs := Ranked(w, t, routes);
      && cs[j].utility <= cs[i].utility
      && (cs[j].utility == cs[i].utility ==> cs[i].predictedCostUsd <= cs[j].predictedCostUsd)
      && (cs[j].utility == cs[i].utility && cs[i].predictedCostUsd == cs[j].predictedCostUsd ==>
            StringLeq(cs[i].routeId, cs[j].routeId))
      && cs[i].routingRegret == cs[0].utility - cs[i].utility >= 0.0
      && cs[i].routingRegret <= cs[j].routingRegret
  {
    RankingIsTotal();
    SortSorts(RanksBefore, Unranked(w, t, routes));
    var sorted := Sort(RanksBefore, Unranked(w, t, routes));
    assert RanksBefore(sorted[i], sorted[j]) && RanksBefore(sorted[0], sorted[j]);
    assert i > 0 ==> RanksBefore(sorted[0], sorted[i]);
  }

  /** The estimate is the least number of tokens, at least one, that covers the text at four characters each. */
  lemma EstimateCoversText(text: string, tokens: int)
    ensures tokens >= EstimateTokens(text) <==> tokens >= 1 && 4 * tokens >= |text|
  {}

  lemma RatioAtMostOne(a: real, b: real)
    requires a <= b && b > 0.0
    ensures a / b <= 1.0
  {}

  /** Usage within the estimate keeps the actual cost of a candidate within the budget. */
  lemma UsageWithinEstimateStaysWithinBudget(t: Terms, route: Route, inputTokens: nat, outputTokens: nat)
    requires route.Valid() && Feasible(t, route)
    requires inputTokens <= InputTokens(t.request.messages) && outputTokens <= t.request.maxOutputTokens
    ensures ActualCost(route, inputTokens, outputTokens) <= t.request.maxCostUsd
  {
    CostGrowsWithTokens(route, inputTokens, outputTokens, InputTokens(t.request.messages), t.request.maxOutputTokens);
  }

  lemma {:induction false} TokensAreCounted(messages: seq<Message>)
    ensures InputTokens(messages) >= 0
  {
    if messages != [] { TokensAreCounted(messages[..|messages| - 1]); }
  }

  /** A free route that meets the policy of this request, and whose context window it just fills. */
  function TightRoute(request: Request): Route {
    Route("tight", "p", "m", request.requiredCapabilities, request.allowedRegions,
          InputTokens(request.messages) + request.maxOutputTokens, 0.0, 0.0, 1, 1.0, {RequiredPrivacy(request)}, true)
  }

  lemma TightRouteIsTight(request: Request, other: Request)
    requires request.Valid() && other.maxOutputTokens == request.maxOutputTokens
    ensures var route := TightRoute(request);
      && route.Valid() && MeetsPolicy(request, route) && MeetsBudget(request, route)
      && (MeetsBudget(other, route) ==> InputTokens(other.messages) <= InputTokens(request.messages))
  {
    TokensAreCounted(request.messages);
    if request.allowedRegions != {} {
      var region :| region in request.allowedRegions;
      assert region in TightRoute(request).regions;
    }
  }

  /**
    When the budget carries over from one request to another with the same limits:
    every route that meets the budget of the first meets that of the second exactly
    when the second is not estimated longer.
   */
  lemma BudgetCarriesOverIff(first: Request, second: Request)
    requires first.Valid() && second.Valid()
    requires first.maxOutputTokens == second.maxOutputTokens && first.maxCostUsd == second.maxCostUsd
    ensures (forall route: Route :: route.Valid() && MeetsBudget(first, route) ==> MeetsBudget(second, route)) <==>
            InputTokens(second.messages) <= InputTokens(first.messages)
  {
    TightRouteIsTight(first, second);
    if InputTokens(second.messages) <= InputTokens(first.messages) {
      forall route: Route | route.Valid() && MeetsBudget(first, route) ensures MeetsBudget(second, route) {
        CostGrowsWithTokens(route, InputTokens(second.messages), second.maxOutputTokens, InputTokens(first.messages), first.maxOutputTokens);
      }
    }
  }

  // -------------------------------------------------------------------------
  // The order in which the candidates are tried

  /** The first candidate with the selected id, then the others in rank order. */
  function SelectedIndex(candidates: seq<Candidate>, selected: RouteId): (k: nat)
    requires Offers(candidates, selected)
    ensures k < |candidates| && candidates[k].routeId == selected
    ensures forall i :: 0 <= i < k ==> candidates[i].routeId != selected
  {
    if candidates[0].routeId == selected then 0
    else
      assert Offers(candidates[1..], selected) by {
        var i :| 0 <= i < |candidates| && candidates[i].routeId == selected;
        assert candidates[1..][i - 1].routeId == selected;
      }
      1 + SelectedIndex(candidates[1..], selected)
  }

  function OrderedCandidates(decision: Decision): seq<Candidate>
    requires Offers(decision.candidates, decision.selectedRouteId)
  {
    MoveToFront(decision.candidates, SelectedIndex(decision.candidates, decision.selectedRouteId))
  }

  /** The order tried is a permutation of the candidates: the selected one first, the rest in rank order. */
  lemma OrderIsPermutation(decision: Decision)
    requires Offers(decision.candidates, decision.selectedRouteId)
    ensures var ordered := OrderedCandidates(decision);
      && multiset(ordered) == multiset(decision.candidates)
      && |ordered| == |decision.candidates|
      && ordered[0].routeId == decision.selectedRouteId
      && (Sorted(RanksBefore, decision.candidates) ==> Sorted(RanksBefore, ordered[1..]))
  {
    var cs := decision.candidates;
    var k := SelectedIndex(cs, decision.selectedRouteId);
    MoveToFrontPermutes(cs, k);
    if Sorted(RanksBefore, cs) { MoveToFrontKeepsRest(RanksBefore, cs, k); }
  }

  /** Every decision can be tried: it has candidates, no id twice, and offers the selected one. */
  lemma DecisionCanBeTried(w: Weights, routes: seq<Route>, t: Terms, preferred: Option<RouteId>)
    requires t.request.Valid() && Distinct(RouteIds(routes))
    requires DecisionFor(w, routes, t, preferred).Routed?
    ensures var decision := DecisionFor(w, routes, t, preferred).decision;
      && decision.candidates != []
      && Offers(decision.candidates, decision.selectedRouteId)
      && (forall i, j :: 0 <= i < j < |OrderedCandidates(decision)| ==>
            OrderedCandidates(decision)[i].routeId != OrderedCandidates(decision)[j].routeId)
  {
    RankedMembers(w, t, routes);
    hide Ranked;
    hide StandsFor;
    hide RejectedRoutes;
    var decision := DecisionFor(w, routes, t, preferred).decision;
    assert decision.candidates[0].routeId == decision.candidates[0].routeId;
    assert Offers(decision.candidates, decision.selectedRouteId);
    OrderIsPermutation(decision);
    SortKeepsIdsDistinct(decision.candidates, OrderedCandidates(decision));
  }
}
