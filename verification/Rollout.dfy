/**
  What a live release does to the calls of users: which route is tried first, who is
  a canary, what is started in the background, and whose rows judge the release. All
  of it is told from the release, the request and the digest.
 */
module Rollout {
  import opened Contracts
  import opened Domain
  import opened Engine
  import opened EngineProofs
  import opened Runs
  import Release
  import Router

  /** The digest of these names, as a percentage. */
  function Percent(g: Gateway, releaseId: ReleaseId, lane: string, requestId: string): nat {
    g.hash(releaseId + ":" + lane + ":" + requestId) % 100
  }

  /** A release touches only the calls of users that force no route. */
  predicate Touched(call: Call, a: Arrival) { call.kind.User? && call.forced.None? && a.live.Some? }

  predicate UnderTest(call: Call, a: Arrival) { Touched(call, a) && a.live.value.state == Release.Candidate }

  predicate IsCanary(g: Gateway, call: Call, a: Arrival) {
    UnderTest(call, a) && Percent(g, a.live.value.id, "canary", call.request.requestId) < a.live.value.canaryPercent
  }

  predicate IsShadowed(g: Gateway, call: Call, a: Arrival) {
    && UnderTest(call, a) && !IsCanary(g, call, a) && call.request.shadowEnabled
    && Percent(g, a.live.value.id, "shadow", call.request.requestId) < a.live.value.shadowPercent
  }

  /** The route that the release wants for this call. */
  function WantedRoute(g: Gateway, call: Call, a: Arrival): Option<RouteId> {
    if !Touched(call, a) then None
    else
      match a.live.value.state
      case Active => Some(a.live.value.candidateRouteId)
      case Candidate => Some(if IsCanary(g, call, a) then a.live.value.candidateRouteId else a.live.value.baselineRouteId)
      case _ => None
  }

  /** The mark that the release leaves on a call. */
  function WantedRelease(g: Gateway, call: Call, a: Arrival): Option<ReleaseId> {
    if call.kind.Shadow? then call.kind.releaseId
    else if WantedRoute(g, call, a).Some? then Some(a.live.value.id)
    else None
  }

  /** The lane of a call is what the release wants of it. */
  lemma LaneIsWanted(g: Gateway, act: Activity, lane: Lane)
    requires Legal(g, act) && IsLane(g, act, lane)
    ensures lane.assignment.preferredRouteId == WantedRoute(g, act.call, act.arrival)
    ensures lane.assignment.releaseId == WantedRelease(g, act.call, act.arrival)
    ensures lane.assignment.canary <==> IsCanary(g, act.call, act.arrival)
    ensures lane.assignment.shadowRouteId ==
            if IsShadowed(g, act.call, act.arrival) then Some(act.arrival.live.value.candidateRouteId) else None
  {}

  /** A route with this id may serve the call. */
  ghost predicate CanServe(g: Gateway, call: Call, a: Arrival, request: Request, id: RouteId) {
    exists route :: route in g.routes && route.id == id && MayServe(TermsOf(call, a, request), route)
  }

  /**
    Which route a call tries first. A route that the release wants is first exactly when
    it may serve the request; without such a wish, or when it cannot be met, the first
    one is the best. A call that forces a route tries no other.
   */
  lemma FirstRoute(g: Gateway, act: Activity, c: Context)
    requires Legal(g, act) && EntryOf(g, act) == Candidates(c)
    ensures c.targets != []
    ensures var wanted := WantedRoute(g, act.call, act.arrival);
      && (wanted.Some? ==>
            (c.targets[0].route.id == wanted.value <==> CanServe(g, act.call, act.arrival, c.lane.request, wanted.value)))
      && (wanted.None? || !CanServe(g, act.call, act.arrival, c.lane.request, wanted.value) ==> c.targets[0].regret == 0.0)
    ensures act.call.forced.Some? ==> forall i :: 0 <= i < |c.targets| ==> c.targets[i].route.id == act.call.forced.value
  {
    var call, a := act.call, act.arrival;
    EnterIsReady(g, call, a);
    LaneOfEntry(g, act);
    LaneIsWanted(g, act, c.lane);
    var decision := EnterTries(g, call, a);
    hide EntryOf;
    hide Enter;
    hide WantedRoute;
    hide LoopOf;
    hide Router.DecisionFor;
    hide Router.OrderedCandidates;
    hide Router.Feasible;
    hide MayServe;
    var terms := TermsOf(call, a, c.lane.request);
    SelectedFirst(g, c, terms, decision);
    forall i | 0 <= i < |c.targets| && call.forced.Some? ensures c.targets[i].route.id == call.forced.value {
      ForcedIsForced(terms, c.targets[i].route);
    }
    FirstServes(g, c, terms);
    hide Ready;
    hide IsLane;
  }

  lemma ForcedIsForced(t: Router.Terms, route: Route)
    requires Router.Feasible(t, route)
    ensures t.forced.Some? ==> route.id == t.forced.value
  {}

  lemma FirstServes(g: Gateway, c: Context, t: Router.Terms)
    requires Ready(c, t) && c.targets[0].route in g.routes
    ensures exists route :: route in g.routes && route.id == c.targets[0].route.id && MayServe(t, route)
  {
    FeasibleInWords(t, c.targets[0].route);
    hide MayServe;
    hide Router.Feasible;
  }

  lemma SelectedIsFirst(g: Gateway, c: Context, decision: Router.Decision)
    requires Router.Offers(decision.candidates, decision.selectedRouteId)
    requires TriesInOrder(g, c, Router.OrderedCandidates(decision))
    ensures c.targets != [] && c.targets[0].route.id == decision.selectedRouteId
    ensures exists k :: 0 <= k < |decision.candidates| && decision.candidates[k].routeId == decision.selectedRouteId
              && c.targets[0].regret == decision.candidates[k].routingRegret
  {
    Router.OrderIsPermutation(decision);
    var ordered := Router.OrderedCandidates(decision);
    hide Router.OrderedCandidates;
    hide Router.Offers;
    TargetOf(g, c, ordered, 0);
    assert ordered[0] in multiset(decision.candidates);
    var k :| 0 <= k < |decision.candidates| && decision.candidates[k] == ordered[0];
    assert decision.candidates[k].routeId == decision.selectedRouteId;
  }

  lemma BestHasNoRegret(w: Router.Weights, t: Router.Terms, routes: seq<Route>)
    requires t.request.Valid() && Router.Ranked(w, t, routes) != []
    ensures Router.Ranked(w, t, routes)[0].routingRegret == 0.0
  {}

  /** The first candidate is the preferred route if that may serve, and otherwise the best one. */
  lemma SelectedFirst(g: Gateway, c: Context, t: Router.Terms, decision: Router.Decision)
    requires t.request.Valid() && Distinct(RouteIds(g.routes))
    requires Router.DecisionFor(g.weights, g.routes, t, c.lane.assignment.preferredRouteId) == Router.Routed(decision)
    requires Router.Offers(decision.candidates, decision.selectedRouteId)
    requires TriesInOrder(g, c, Router.OrderedCandidates(decision))
    ensures c.targets != []
    ensures var wanted := c.lane.assignment.preferredRouteId;
      var met := wanted.Some? && exists route :: route in g.routes && route.id == wanted.value && MayServe(t, route);
      && (met ==> c.targets[0].route.id == wanted.value)
      && (!met ==> c.targets[0].regret == 0.0)
  {
    hide MayServe;
    hide Router.Feasible;
    hide Router.Ranked;
    hide Router.OrderedCandidates;
    var wanted := c.lane.assignment.preferredRouteId;
    Router.PreferenceOnlySelects(g.weights, g.routes, t, wanted);
    Router.RankedMembers(g.weights, t, g.routes);
    SelectedIsFirst(g, c, decision);
    forall route ensures Router.Feasible(t, route) <==> MayServe(t, route) { FeasibleInWords(t, route); }
    BestHasNoRegret(g.weights, t, g.routes);
    if wanted.Some? && decision.selectedRouteId == wanted.value {
      assert exists route :: route in g.routes && route.id == wanted.value && Router.Feasible(t, route);
    }
  }

  // -------------------------------------------------------------------------
  // Who is tried, and what runs in the background

  /** The first route that a call asks is that of its first candidate. */
  lemma FirstAsked(g: Gateway, act: Activity, c: Context)
    requires Legal(g, act) && EntryOf(g, act) == Candidates(c)
    ensures var tried := Tried(LoopOf(g, act).journal.circuits);
      tried != [] ==> c.targets != [] && tried[0] == c.targets[0].route.id
  {
    LoopOfCandidates(g, act);
    hide LoopOf;
    hide EntryOf;
    match act
    case Generated(_, _, seen, at) =>
      GenerateAccounted(c, seen);
      CloseKeepsTried(c, GenerateLoop(c, seen), at);
    case Streamed(_, _, seen, at) =>
      StreamAccounted(c, seen);
      CloseKeepsTried(c, StreamLoop(c, seen), at);
  }

  lemma CloseKeepsTried(c: Context, l: Loop, now: real)
    requires Accounted(c, l)
    ensures Tried(Close(c, l, now).journal.circuits) == TargetIds(c)[..l.next]
  {}

  /**
    With a release under test or in force, a user's call that tries anything tries the
    route that the release wants first, if that may serve: the candidate route for a
    canary and for an ACTIVE release, and the baseline for all others.
   */
  lemma ReleaseDecidesTheFirstRoute(g: Gateway, act: Activity, c: Context, wanted: RouteId)
    requires Legal(g, act) && EntryOf(g, act) == Candidates(c) && Touched(act.call, act.arrival)
    requires var release := act.arrival.live.value;
      || (release.state == Release.Active && wanted == release.candidateRouteId)
      || (release.state == Release.Candidate
          && wanted == if IsCanary(g, act.call, act.arrival) then release.candidateRouteId else release.baselineRouteId)
    ensures var tried := Tried(LoopOf(g, act).journal.circuits);
      tried != [] ==> (tried[0] == wanted <==> CanServe(g, act.call, act.arrival, c.lane.request, wanted))
  {
    FirstRoute(g, act, c);
    FirstAsked(g, act, c);
    hide CanServe;
    hide LoopOf;
    hide EntryOf;
    hide Tried;
  }

  /** The call that shadows this one on the candidate route: the same request under another id, outside cache and stream. */
  ghost predicate Shadows(g: Gateway, act: Activity, shadow: Call) {
    && act.arrival.live.Some?
    && shadow.forced == Some(act.arrival.live.value.candidateRouteId)
    && shadow.kind == Shadow(Some(act.arrival.live.value.id))
    && Resolve(act.call.request, act.arrival.rendered).Some?
    && var asked := Resolve(act.call.request, act.arrival.rendered).value;
       && shadow.request.requestId == act.call.request.requestId + "-shadow"
       && !shadow.request.stream && !shadow.request.shadowEnabled && shadow.request.cacheMode == Bypass
       && shadow.request == asked.(requestId := shadow.request.requestId, stream := shadow.request.stream,
                                   shadowEnabled := shadow.request.shadowEnabled, cacheMode := shadow.request.cacheMode)
  }

  /**
    What runs in the background after a call: an assessment of the release exactly when
    a canary has ended, well or badly, after its loop; and one call that shadows this one
    exactly when it was to be shadowed and was answered, from the cache or afresh.
   */
  lemma BackgroundIff(g: Gateway, act: Activity, id: ReleaseId, shadow: Call)
    requires Legal(g, act)
    ensures var l := LoopOf(g, act);
      && (AssessTask(id) in l.journal.tasks <==>
            && IsCanary(g, act.call, act.arrival) && id == act.arrival.live.value.id
            && EntryOf(g, act).Candidates? && (l.status.Returned? || l.status.Raised?))
      && (ShadowTask(shadow) in l.journal.tasks <==>
            && IsShadowed(g, act.call, act.arrival) && l.status.Returned? && Shadows(g, act, shadow))
  {
    LaneOfEntry(g, act);
    match EntryOf(g, act)
    case Rejected(_) =>
      RejectedRaises(g, act);
      HitJournal(g, act);
    case CacheHit(lane, r) =>
      HitJournal(g, act);
      LaneIsWanted(g, act, lane);
      TasksOfLane(g, act, lane, id, shadow);
      hide LoopOf;
      hide EntryOf;
      hide IsCanary;
      hide IsShadowed;
      hide Shadows;
      hide PostResponse;
    case Candidates(c) =>
      LaneIsWanted(g, act, c.lane);
      TasksOfLane(g, act, c.lane, id, shadow);
      TasksOfLoop(g, act, c);
      hide LoopOf;
      hide EntryOf;
      hide IsCanary;
      hide IsShadowed;
      hide Shadows;
      hide PostResponse;
      hide Assessment;
  }

  lemma TasksOfLane(g: Gateway, act: Activity, lane: Lane, id: ReleaseId, shadow: Call)
    requires Legal(g, act) && IsLane(g, act, lane)
    ensures AssessTask(id) in Assessment(lane.assignment) <==>
              IsCanary(g, act.call, act.arrival) && id == act.arrival.live.value.id
    ensures ShadowTask(shadow) !in Assessment(lane.assignment)
    ensures AssessTask(id) in PostResponse(lane) <==> AssessTask(id) in Assessment(lane.assignment)
    ensures ShadowTask(shadow) in PostResponse(lane) <==>
              IsShadowed(g, act.call, act.arrival) && Shadows(g, act, shadow)
  {
    LaneIsWanted(g, act, lane);
  }

  lemma TasksOfLoop(g: Gateway, act: Activity, c: Context)
    requires Legal(g, act) && EntryOf(g, act) == Candidates(c)
    ensures var l := LoopOf(g, act);
      l.journal.tasks ==
        if l.status.Returned? then PostResponse(c.lane)
        else if l.status.Raised? && !c.lane.kind.Evaluation? then Assessment(c.lane.assignment)
        else []
  {
    LoopOfCandidates(g, act);
    EnterIsReady(g, act.call, act.arrival);
    hide LoopOf;
    hide EntryOf;
    hide Enter;
    match act
    case Generated(_, _, seen, at) =>
      GenerateAccounted(c, seen);
      ClosedTasks(c, GenerateLoop(c, seen), at);
    case Streamed(_, _, seen, at) =>
      StreamAccounted(c, seen);
      ClosedTasks(c, StreamLoop(c, seen), at);
  }

  lemma ClosedTasks(c: Context, l: Loop, now: real)
    requires Accounted(c, l)
    ensures var after := Close(c, l, now);
      after.journal.tasks ==
        if after.status.Returned? then PostResponse(c.lane)
        else if after.status.Raised? && (!c.lane.kind.Evaluation? || l.status.Raised?) then Assessment(c.lane.assignment)
        else []
  {
    hide PostResponse;
    hide Assessment;
  }

  /** The marks in the ledger: a row is a canary row, and names a release, exactly as the release wanted of its call. */
  lemma RowsNameTheirRelease(g: Gateway, act: Activity, row: Metric)
    requires Legal(g, act) && row in LoopOf(g, act).journal.rows
    ensures row.canary <==> IsCanary(g, act.call, act.arrival)
    ensures row.releaseId == WantedRelease(g, act.call, act.arrival)
  {
    LaneOfEntry(g, act);
    hide LoopOf;
    hide EntryOf;
    match EntryOf(g, act)
    case Rejected(_) => HitJournal(g, act);
    case CacheHit(lane, _) =>
      HitJournal(g, act);
      LaneIsWanted(g, act, lane);
    case Candidates(c) =>
      JournalWrites(g, act);
      LaneIsWanted(g, act, c.lane);
  }
}
