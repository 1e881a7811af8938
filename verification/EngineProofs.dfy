/**
  What every step of the candidate loops keeps, and what follows for whole calls:
  attempt accounting, evidence, deadlines, stream provenance, circuit records and
  cache writes.
 */
module EngineProofs {
  import opened Domain
  import opened Engine
  import Router

  function TargetIds(c: Context): (ids: seq<RouteId>)
    ensures |ids| == |c.targets|
    ensures forall i :: 0 <= i < |ids| ==> ids[i] == c.targets[i].route.id
  {
    seq(|c.targets|, i requires 0 <= i < |c.targets| => c.targets[i].route.id)
  }

  /** The routes whose circuit has been asked, in order: the routes tried. */
  function Tried(calls: seq<CircuitCall>): seq<RouteId> {
    if calls == [] then []
    else Tried(calls[..|calls| - 1]) + if calls[|calls| - 1].Asked? then [calls[|calls| - 1].route] else []
  }

  lemma TriedSnoc(calls: seq<CircuitCall>, call: CircuitCall)
    ensures Tried(calls + [call]) == Tried(calls) + if call.Asked? then [call.route] else []
  {
    assert (calls + [call])[..|calls|] == calls;
  }

  lemma TriedTwo(calls: seq<CircuitCall>, a: CircuitCall, b: CircuitCall)
    requires a.Asked? && !b.Asked?
    ensures Tried(calls + [a] + [b]) == Tried(calls) + [a.route]
  {
    TriedSnoc(calls, a);
    TriedSnoc(calls + [a], b);
  }

  // -------------------------------------------------------------------------
  // Accounting

  ghost predicate Quiet(j: Journal) { j.rows == [] && j.writes == [] && j.tasks == [] }

  /** The ledger has exactly one row, for this failure on this route. */
  ghost predicate OneErrorRow(lane: Lane, rows: seq<Metric>, route: Route, error: Error, fallback: nat) {
    |rows| == 1 && rows[0] == ErrorRow(lane, route, error, fallback, rows[0].latencyMs)
  }

  ghost predicate OneWrite(lane: Lane, writes: seq<CacheWrite>, r: Response) {
    |writes| == 1 && writes[0] == CacheWrite(lane.request, r, lane.Namespace(), writes[0].at)
  }

  /** A response that the loop has accepted from this candidate. */
  ghost predicate Accepted(c: Context, t: Target, r: Response) {
    && r.routeId == t.route.id
    && r.routingRegret == t.regret
    && r.requestId == c.lane.request.requestId
    && !r.cacheHit
    && MeetsSchema(c.contract, c.lane.request.responseSchema, r.text)
    && (c.lane.request.responseSchema.Some? <==> r.schemaValid == Some(true))
    && r.usage.costUsd == Router.ActualCost(t.route, r.usage.inputTokens, r.usage.outputTokens)
  }

  ghost predicate SettledReturned(c: Context, l: Loop, r: Response)
    requires 0 < l.next <= |c.targets|
  {
    && Accepted(c, c.targets[l.next - 1], r)
    && r.fallbackCount == l.fallback == l.next - 1
    && l.journal.rows == (if c.lane.kind.Evaluation? then [] else [ResponseRow(c.lane, r)])
    && (if c.lane.Writes() then OneWrite(c.lane, l.journal.writes, r) else l.journal.writes == [])
    && l.journal.tasks == PostResponse(c.lane)
  }

  ghost predicate SettledRaised(c: Context, l: Loop, error: Error)
    requires 0 < l.next <= |c.targets|
  {
    && l.fallback == l.next - 1
    && OneErrorRow(c.lane, l.journal.rows, c.targets[l.next - 1].route, error, l.fallback)
    && l.journal.tasks == Assessment(c.lane.assignment)
    && l.journal.writes == []
  }

  /** The candidate that an error is blamed on: the last one tried, or the first if none was. */
  function Blamed(c: Context, l: Loop): Route
    requires l.next <= |c.targets| && c.targets != []
  {
    c.targets[Max(0, l.next - 1)].route
  }

  /**
    The invariant of both loops. The routes tried are a prefix of the candidates;
    while the loop goes on, every one of them has failed and is counted, and
    nothing has been written.
   */
  ghost predicate Accounted(c: Context, l: Loop) {
    && l.next <= |c.targets|
    && Tried(l.journal.circuits) == TargetIds(c)[..l.next]
    && (l.lastError.Some? && !l.status.Returned? && !l.status.Crashed? ==> c.targets != [] && l.lastError.value.route == Blamed(c, l))
    && (l.status.Trying? ==> Quiet(l.journal) && l.fallback == l.next && (l.lastError.Some? <==> l.next > 0))
    && (l.status.Broken? ==> Quiet(l.journal) && l.lastError.Some? && l.fallback == Max(1, l.next))
    && (l.status.Returned? ==> l.next > 0 && SettledReturned(c, l, l.status.response))
    && (l.status.Raised? ==> l.next > 0 && SettledRaised(c, l, l.status.error))
    && (l.status.Crashed? ==> l.next > 0 && Quiet(l.journal))
  }

  lemma InitAccounted(c: Context)
    ensures Accounted(c, INIT)
  {}

  lemma MissAccounted(c: Context, l: Loop, journal: Journal, error: Error, done: bool)
    requires Accounted(c, l) && Active(c, l) && Quiet(journal)
    requires Tried(journal.circuits) == Tried(l.journal.circuits) + [c.targets[l.next].route.id]
    ensures Accounted(c, Miss(l, journal, error, c.targets[l.next].route, done))
  {
    assert TargetIds(c)[..l.next + 1] == TargetIds(c)[..l.next] + [c.targets[l.next].route.id];
  }

  lemma CrashAccounted(c: Context, l: Loop, journal: Journal)
    requires Accounted(c, l) && Active(c, l) && Quiet(journal)
    requires Tried(journal.circuits) == Tried(l.journal.circuits) + [c.targets[l.next].route.id]
    ensures Accounted(c, Crash(l, journal))
  {
    assert TargetIds(c)[..l.next + 1] == TargetIds(c)[..l.next] + [c.targets[l.next].route.id];
  }

  lemma AcceptAccounted(c: Context, l: Loop, journal: Journal, r: Response, at: real, events: seq<Event>)
    requires Accounted(c, l) && Active(c, l) && Quiet(journal)
    requires Tried(journal.circuits) == Tried(l.journal.circuits) + [c.targets[l.next].route.id]
    requires Accepted(c, c.targets[l.next], r) && r.fallbackCount == l.fallback
    ensures Accounted(c, Accept(c, l, journal, r, at, events))
  {
    assert TargetIds(c)[..l.next + 1] == TargetIds(c)[..l.next] + [c.targets[l.next].route.id];
    TriedSnoc(journal.circuits, Succeeded(r.routeId));
  }

  lemma InterruptAccounted(c: Context, l: Loop, journal: Journal, error: Error, cause: Error, now: real)
    requires Accounted(c, l) && Active(c, l) && Quiet(journal)
    requires Tried(journal.circuits) == Tried(l.journal.circuits) + [c.targets[l.next].route.id]
    ensures Accounted(c, Interrupt(c, l, journal, error, cause, c.targets[l.next].route, now))
  {
    assert TargetIds(c)[..l.next + 1] == TargetIds(c)[..l.next] + [c.targets[l.next].route.id];
    var after := Interrupt(c, l, journal, error, cause, c.targets[l.next].route, now);
    assert after.journal.rows == [ErrorRow(c.lane, c.targets[l.next].route, error, l.fallback, (now - c.started) * 1000.0)];
    assert after.journal.tasks == Assessment(c.lane.assignment);
  }

  lemma AdmitTries(c: Context, l: Loop, route: Route, now: real, at: Readings)
    ensures var j := Admit(c, l, route, now, at);
      && Tried(j.circuits) == Tried(l.journal.circuits) + [route.id]
      && Tried(FailCircuit(j, route, at.recorded).circuits) == Tried(l.journal.circuits) + [route.id]
      && (Quiet(l.journal) ==> Quiet(j))
  {
    TriedSnoc(l.journal.circuits, Asked(route.id, true, at.asked));
    TriedTwo(l.journal.circuits, Asked(route.id, true, at.asked), Failed(route.id, at.recorded));
  }

  lemma GenerateStepAccounted(c: Context, l: Loop, s: Seen)
    requires Accounted(c, l) && Active(c, l)
    ensures Accounted(c, GenerateStep(c, l, s))
  {
    var route := c.targets[l.next].route;
    AdmitTries(c, l, route, s.now, s.at);
    var journal := Admit(c, l, route, s.now, s.at);
    if Remaining(c, s.now) > 0.0 {
      if !s.admitted {
        var refused := l.journal.(circuits := l.journal.circuits + [Asked(route.id, false, s.at.asked)]);
        TriedSnoc(l.journal.circuits, Asked(route.id, false, s.at.asked));
        MissAccounted(c, l, refused, CircuitOpen, false);
      } else {
        match s.reply
        case TimedOut => MissAccounted(c, l, FailCircuit(journal, route, s.at.recorded), ProviderTimeout, false);
        case ProviderError(code) =>
          MissAccounted(c, l, FailCircuit(journal, route, s.at.recorded), ProviderFailure(code), code == INVALID_REQUEST);
        case Completed(text, _, _, _, _) =>
          var v := Validate(c.contract, c.lane.request.responseSchema, text);
          if v.Violated? { MissAccounted(c, l, journal, SchemaViolation, false); }
          else if v.Unchecked? { CrashAccounted(c, l, journal); }
          else { AcceptAccounted(c, l, journal, CompleteResponse(c, l.fallback, c.targets[l.next], s.reply, v, s.at.measured), s.at.stored, []); }
      }
    }
  }

  lemma StreamStepAccounted(c: Context, l: Loop, s: StreamSeen)
    requires Accounted(c, l) && Active(c, l)
    ensures Accounted(c, StreamStep(c, l, s))
  {
    var route := c.targets[l.next].route;
    AdmitTries(c, l, route, s.now, s.at);
    var admitted := Admit(c, l, route, s.now, s.at);
    var journal := admitted.(events := admitted.events + ForwardAll(route, s.events));
    if Remaining(c, s.now) > 0.0 {
      if !s.admitted {
        var refused := l.journal.(circuits := l.journal.circuits + [Asked(route.id, false, s.at.asked)]);
        TriedSnoc(l.journal.circuits, Asked(route.id, false, s.at.asked));
        MissAccounted(c, l, refused, CircuitOpen, false);
      } else {
        match s.ending
        case StreamTimedOut =>
          if Emitted(s.events) { InterruptAccounted(c, l, FailCircuit(journal, route, s.at.recorded), StreamInterrupted, ProviderTimeout, s.at.measured); }
          else { MissAccounted(c, l, FailCircuit(journal, route, s.at.recorded), ProviderTimeout, false); }
        case StreamFailed(code) =>
          if Emitted(s.events) { InterruptAccounted(c, l, FailCircuit(journal, route, s.at.recorded), StreamInterrupted, ProviderFailure(code), s.at.measured); }
          else { MissAccounted(c, l, FailCircuit(journal, route, s.at.recorded), ProviderFailure(code), code == INVALID_REQUEST); }
        case EndOfStream =>
          var v := Validate(c.contract, c.lane.request.responseSchema, TextOf(s.events));
          if v.Violated? {
            if Emitted(s.events) { InterruptAccounted(c, l, journal, SchemaViolation, SchemaViolation, s.at.measured); }
            else { MissAccounted(c, l, journal, SchemaViolation, false); }
          } else if v.Unchecked? {
            CrashAccounted(c, l, journal);
          } else {
            var response := StreamedResponse(c, l.fallback, c.targets[l.next], s, v);
            AcceptAccounted(c, l, journal, response, s.at.stored, [Done(route.id, route.provider, route.model, response)]);
          }
      }
    }
  }

  lemma {:induction false} GenerateAccounted(c: Context, seen: seq<Seen>)
    ensures Accounted(c, GenerateLoop(c, seen))
  {
    if seen == [] {
      InitAccounted(c);
    } else {
      GenerateAccounted(c, seen[..|seen| - 1]);
      var l := GenerateLoop(c, seen[..|seen| - 1]);
      if Active(c, l) { GenerateStepAccounted(c, l, seen[|seen| - 1]); }
    }
  }

  lemma {:induction false} StreamAccounted(c: Context, seen: seq<StreamSeen>)
    ensures Accounted(c, StreamLoop(c, seen))
  {
    if seen == [] {
      InitAccounted(c);
    } else {
      StreamAccounted(c, seen[..|seen| - 1]);
      var l := StreamLoop(c, seen[..|seen| - 1]);
      if Active(c, l) { StreamStepAccounted(c, l, seen[|seen| - 1]); }
    }
  }

  /** The candidates a call tries: at least one, no route twice, all feasible for its request. */
  ghost predicate Ready(c: Context, terms: Router.Terms) {
    && c.targets != []
    && Distinct(TargetIds(c))
    && terms.request == c.lane.request
    && forall i :: 0 <= i < |c.targets| ==> Router.Feasible(terms, c.targets[i].route)
  }

  function TermsOf(call: Call, a: Arrival, request: Request): Router.Terms {
    Router.Terms(request, call.forced, {}, a.available)
  }

  /** The candidates in this order, each with its route and its regret. */
  ghost predicate TriesInOrder(g: Gateway, c: Context, ordered: seq<Router.Candidate>) {
    && |c.targets| == |ordered|
    && forall i :: 0 <= i < |ordered| ==>
         RouteById(g.routes, ordered[i].routeId) == Some(c.targets[i].route) && c.targets[i].regret == ordered[i].routingRegret
  }

  lemma EnterTries(g: Gateway, call: Call, a: Arrival) returns (decision: Router.Decision)
    requires call.request.Valid() && Distinct(RouteIds(g.routes)) && Enter(g, call, a).Candidates?
    ensures var c := Enter(g, call, a).context;
      && Router.DecisionFor(g.weights, g.routes, TermsOf(call, a, c.lane.request), c.lane.assignment.preferredRouteId)
         == Router.Routed(decision)
      && TriesInOrder(g, c, Router.OrderedCandidates(decision))
      && c.contract == g.contract && c.lane.forced == call.forced && c.lane.kind == call.kind
      && c.lane.request.Valid()
  {
    hide Router.OrderedCandidates;
    hide Router.DecisionFor;
    var c := Enter(g, call, a).context;
    var terms := TermsOf(call, a, c.lane.request);
    decision := Router.DecisionFor(g.weights, g.routes, terms, c.lane.assignment.preferredRouteId).decision;
    DecisionHasRoutes(g, terms, c.lane.assignment.preferredRouteId);
    assert forall i :: 0 <= i < |Router.OrderedCandidates(decision)| ==>
      Router.OrderedCandidates(decision)[i] in Router.OrderedCandidates(decision);
    hide Router.Feasible;
  }

  lemma EnterIsReady(g: Gateway, call: Call, a: Arrival)
    requires call.request.Valid() && Distinct(RouteIds(g.routes)) && Enter(g, call, a).Candidates?
    ensures var c := Enter(g, call, a).context;
      && Ready(c, TermsOf(call, a, c.lane.request))
      && c.contract == g.contract
      && c.lane.forced == call.forced && c.lane.kind == call.kind
      && (forall i :: 0 <= i < |c.targets| ==> c.targets[i].route in g.routes)
  {
    var decision := EnterTries(g, call, a);
    var c := Enter(g, call, a).context;
    hide Enter;
    var terms := TermsOf(call, a, c.lane.request);
    DecisionHasRoutes(g, terms, c.lane.assignment.preferredRouteId);
    hide Router.OrderedCandidates;
    hide Router.DecisionFor;
    hide Router.Feasible;
    hide Router.Offers;
    TriesAreReady(g, c, terms, Router.OrderedCandidates(decision));
    hide Ready;
    hide TriesInOrder;
  }

  lemma TriesAreReady(g: Gateway, c: Context, terms: Router.Terms, ordered: seq<Router.Candidate>)
    requires TriesInOrder(g, c, ordered) && ordered != [] && terms.request == c.lane.request
    requires forall candidate :: candidate in ordered ==>
      RouteById(g.routes, candidate.routeId).Some? && Router.Feasible(terms, RouteById(g.routes, candidate.routeId).value)
    requires forall i, j :: 0 <= i < j < |ordered| ==> ordered[i].routeId != ordered[j].routeId
    ensures Ready(c, terms)
    ensures forall i :: 0 <= i < |c.targets| ==> c.targets[i].route in g.routes
  {
    hide Router.Feasible;
    hide RouteById;
    forall i | 0 <= i < |c.targets|
      ensures c.targets[i].route in g.routes && c.targets[i].route.id == ordered[i].routeId
      ensures Router.Feasible(terms, c.targets[i].route)
    {
      assert ordered[i] in ordered;
    }
  }

  /**
    The candidates of the loop are those of the routing decision: the selected one
    first, each candidate once, with its regret.
   */
  lemma TargetsFollowTheDecision(g: Gateway, call: Call, a: Arrival)
    requires call.request.Valid() && Distinct(RouteIds(g.routes)) && Enter(g, call, a).Candidates?
    ensures var c := Enter(g, call, a).context;
      var outcome := Router.DecisionFor(g.weights, g.routes, TermsOf(call, a, c.lane.request), c.lane.assignment.preferredRouteId);
      && outcome.Routed?
      && |c.targets| == |outcome.decision.candidates| > 0
      && c.targets[0].route.id == outcome.decision.selectedRouteId
      && (forall candidate :: candidate in outcome.decision.candidates ==> exists t :: IsTarget(c, candidate, t))
  {
    var decision := EnterTries(g, call, a);
    var c := Enter(g, call, a).context;
    hide Enter;
    DecisionHasRoutes(g, TermsOf(call, a, c.lane.request), c.lane.assignment.preferredRouteId);
    Router.OrderIsPermutation(decision);
    hide Router.OrderedCandidates;
    hide Router.DecisionFor;
    hide Router.Feasible;
    var ordered := Router.OrderedCandidates(decision);
    TargetOf(g, c, ordered, 0);
    forall candidate | candidate in decision.candidates ensures exists t :: IsTarget(c, candidate, t) {
      var i := PlaceOf(ordered, decision.candidates, candidate);
      TargetOf(g, c, ordered, i);
    }
  }

  lemma PlaceOf(ordered: seq<Router.Candidate>, candidates: seq<Router.Candidate>, candidate: Router.Candidate) returns (i: nat)
    requires multiset(ordered) == multiset(candidates) && candidate in candidates
    ensures i < |ordered| && ordered[i] == candidate
  {
    assert candidate in multiset(ordered);
    i :| 0 <= i < |ordered| && ordered[i] == candidate;
  }

  lemma TargetOf(g: Gateway, c: Context, ordered: seq<Router.Candidate>, i: nat)
    requires TriesInOrder(g, c, ordered) && i < |ordered|
    ensures |c.targets| == |ordered| && IsTarget(c, ordered[i], c.targets[i])
  {
    hide RouteById;
  }

  ghost predicate IsTarget(c: Context, candidate: Router.Candidate, t: Target) {
    t in c.targets && t.route.id == candidate.routeId && t.regret == candidate.routingRegret
  }

  /**
    A loop that has come to its end, or is still in flight. The routes tried are a
    prefix of the ranked candidates, none twice. Success at position i has fallback
    count i; failure is blamed on the last route tried and counts `missed`
    candidates. There is exactly one ledger row when the loop is over, none before,
    and none at all for an evaluation or when the schema validator has failed.
   */
  ghost predicate Balanced(c: Context, l: Loop, missed: nat) {
    && l.next <= |c.targets| && c.targets != []
    && Distinct(TargetIds(c))
    && Tried(l.journal.circuits) == TargetIds(c)[..l.next]
    && !l.status.Broken?
    && (l.status.Trying? ==> Active(c, l))
    && (l.status.Returned? ==> l.next > 0 && SettledReturned(c, l, l.status.response))
    && (l.status.Raised? && !c.lane.kind.Evaluation? ==>
          OneErrorRow(c.lane, l.journal.rows, Blamed(c, l), l.status.error, missed))
    && |l.journal.rows| == if l.status.Trying? || l.status.Crashed? || c.lane.kind.Evaluation? then 0 else 1
  }

  lemma CloseBalances(c: Context, l: Loop, now: real)
    requires c.targets != [] && Distinct(TargetIds(c)) && Accounted(c, l) && !l.status.Raised?
    ensures Balanced(c, Close(c, l, now), Max(1, l.next))
    ensures Close(c, l, now).next == l.next
  {
    if l.status.Trying? && !Active(c, l) {
      assert l.next == |c.targets| && l.lastError.Some?;
    }
  }

  /**
    Accounting of `generate`, for whatever it sees: failure counts every failed
    candidate, or 1 when the deadline was gone before the first. Both assertions
    after the loop hold: it never ends without a response or a blamed error.
   */
  lemma GenerateAccounting(g: Gateway, call: Call, a: Arrival, seen: seq<Seen>, finishedAt: real)
    requires call.request.Valid() && Distinct(RouteIds(g.routes)) && Enter(g, call, a).Candidates?
    ensures var c, l := Enter(g, call, a).context, GenerateCall(g, call, a, seen, finishedAt);
      Balanced(c, l, Max(1, l.next))
  {
    hide GenerateStep;
    EnterIsReady(g, call, a);
    var c := Enter(g, call, a).context;
    GenerateAccounted(c, seen);
    GenerateNeverRaises(c, seen);
    CloseBalances(c, GenerateLoop(c, seen), finishedAt);
    hide Enter;
    hide Balanced;
    hide Close;
  }

  lemma {:induction false} GenerateNeverRaises(c: Context, seen: seq<Seen>)
    ensures !GenerateLoop(c, seen).status.Raised?
  {
    if seen != [] { GenerateNeverRaises(c, seen[..|seen| - 1]); }
  }

  /**
    Accounting of `stream`: as for `generate`, except that a failure after the
    first delta is raised at once and does not count the candidate that failed.
   */
  lemma StreamAccounting(g: Gateway, call: Call, a: Arrival, seen: seq<StreamSeen>, finishedAt: real)
    requires call.request.Valid() && Distinct(RouteIds(g.routes)) && Enter(g, call, a).Candidates? && call.kind.User?
    ensures var c, l := Enter(g, call, a).context, StreamCall(g, call, a, seen, finishedAt);
      && (HasDelta(l.journal.events) ==> l.next > 0)
      && Balanced(c, l, if HasDelta(l.journal.events) then l.next - 1 else Max(1, l.next))
  {
    hide StreamStep;
    EnterIsReady(g, call, a);
    var c := Enter(g, call, a).context;
    hide Enter;
    StreamBalances(c, seen, finishedAt);
    hide Balanced;
  }

  lemma StreamBalances(c: Context, seen: seq<StreamSeen>, finishedAt: real)
    requires c.targets != [] && Distinct(TargetIds(c)) && c.lane.kind.User?
    ensures var l := Close(c, StreamLoop(c, seen), finishedAt);
      && (HasDelta(l.journal.events) ==> l.next > 0)
      && Balanced(c, l, if HasDelta(l.journal.events) then l.next - 1 else Max(1, l.next))
  {
    hide StreamStep;
    var l := StreamLoop(c, seen);
    StreamAccounted(c, seen);
    StreamKeepsProvenance(c, seen);
    if !l.status.Raised? { CloseBalances(c, l, finishedAt); }
  }

  /** A call that is rejected before the loop writes no row; a cache hit writes exactly one. */
  lemma EntryAccounting(g: Gateway, call: Call, a: Arrival, seen: seq<Seen>, streamed: seq<StreamSeen>, finishedAt: real)
    requires call.request.Valid() && Distinct(RouteIds(g.routes)) && !Enter(g, call, a).Candidates?
    ensures var l, s := GenerateCall(g, call, a, seen, finishedAt), StreamCall(g, call, a, streamed, finishedAt);
      && l.journal.rows == s.journal.rows
      && l.journal.circuits == s.journal.circuits == []
      && |l.journal.rows| == (if Enter(g, call, a).CacheHit? then 1 else 0)
      && (Enter(g, call, a).CacheHit? ==> l.journal.rows[0].cacheHit && l.journal.rows[0].usage == Usage(0, 0, 0.0))
  {}

  // -------------------------------------------------------------------------
  // Stream provenance

  predicate HasDelta(events: seq<Event>) { exists i :: 0 <= i < |events| && events[i].Delta? }

  /** The concatenation of the deltas that the client has received. */
  function DeltaText(events: seq<Event>): string {
    if events == [] then ""
    else DeltaText(events[..|events| - 1]) + if events[|events| - 1].Delta? then events[|events| - 1].text else ""
  }

  /** All deltas and the final event come from this route. */
  ghost predicate FromRoute(events: seq<Event>, route: Route) {
    forall i :: 0 <= i < |events| && !events[i].Start? ==>
      events[i].routeId == route.id && events[i].provider == route.provider && events[i].model == route.model
  }

  /** The final event comes at most once, and last. */
  ghost predicate DoneOnlyLast(events: seq<Event>) {
    forall i :: 0 <= i < |events| - 1 ==> !events[i].Done?
  }

  /**
    What the client of a stream has received. As long as another route may be
    tried there is no delta. Then all deltas come from the last route tried, and a
    final event, if any, comes from it too and carries the text of the deltas.
   */
  ghost predicate Provenance(c: Context, l: Loop) {
    && l.next <= |c.targets|
    && (l.status.Trying? || l.status.Broken? ==> forall i :: 0 <= i < |l.journal.events| ==> l.journal.events[i].Start?)
    && (l.status.Raised? ==> HasDelta(l.journal.events))
    && (l.status.Raised? || l.status.Crashed? ==> NoneDone(l.journal.events))
    && (l.status.Returned? ==>
          && l.journal.events != []
          && (var last := l.journal.events[|l.journal.events| - 1];
              last.Done? && last.response == l.status.response && l.status.response.text == DeltaText(l.journal.events)))
    && DoneOnlyLast(l.journal.events)
    && (l.next > 0 ==> FromRoute(l.journal.events, c.targets[l.next - 1].route))
  }

  lemma EmittedSnoc(events: seq<ProviderEvent>, event: ProviderEvent)
    ensures Emitted(events + [event]) <==> Emitted(events) || event.DeltaEvent?
  {
    var all := events + [event];
    assert all[|events|] == event;
    if i :| 0 <= i < |events| && events[i].DeltaEvent? { assert all[i].DeltaEvent?; }
  }

  lemma DeltaSnoc(events: seq<Event>, event: Event)
    ensures HasDelta(events + [event]) <==> HasDelta(events) || event.Delta?
    ensures DeltaText(events + [event]) == DeltaText(events) + if event.Delta? then event.text else ""
  {
    var all := events + [event];
    assert all[|events|] == event && all[..|events|] == events;
    if i :| 0 <= i < |events| && events[i].Delta? { assert all[i].Delta?; }
  }

  lemma RouteSnoc(events: seq<Event>, event: Event, route: Route)
    requires FromRoute(events, route) && NoneDone(events) && FromRoute([event], route) && !event.Done?
    ensures FromRoute(events + [event], route) && NoneDone(events + [event])
  {
    assert [event][0] == event;
  }

  lemma ForwardSnoc(route: Route, events: seq<ProviderEvent>, event: ProviderEvent)
    ensures ForwardAll(route, events + [event]) == ForwardAll(route, events) + Forwarded(route, event)
    ensures TextOf(events + [event]) == TextOf(events) + if event.DeltaEvent? then event.text else ""
  {
    assert (events + [event])[..|events|] == events;
  }

  ghost predicate NoneDone(events: seq<Event>) { forall i :: 0 <= i < |events| ==> !events[i].Done? }

  lemma {:induction false} ForwardedEvents(route: Route, events: seq<ProviderEvent>)
    ensures FromRoute(ForwardAll(route, events), route)
    ensures NoneDone(ForwardAll(route, events))
    ensures HasDelta(ForwardAll(route, events)) <==> Emitted(events)
    ensures DeltaText(ForwardAll(route, events)) == TextOf(events)
  {
    if events == [] {
      return;
    }
    hide HasDelta;
    hide Emitted;
    hide DeltaText;
    hide TextOf;
    hide ForwardAll;
    hide NoneDone;
    var before, last := events[..|events| - 1], events[|events| - 1];
    assert events == before + [last];
    var out := ForwardAll(route, before);
    ForwardedEvents(route, before);
    EmittedSnoc(before, last);
    ForwardSnoc(route, before, last);
    hide FromRoute;
    match last
    case StartEvent =>
      var event := Event.Start(route.id, route.provider, route.model);
      DeltaSnoc(out, event);
      RouteSnoc(out, event, route);
    case DeltaEvent(text) =>
      var event := Event.Delta(route.id, route.provider, route.model, text);
      DeltaSnoc(out, event);
      RouteSnoc(out, event, route);
    case _ =>
      assert out + [] == out;
  }

  lemma {:induction false} StartsHaveNoText(starts: seq<Event>, events: seq<Event>)
    requires forall i :: 0 <= i < |starts| ==> starts[i].Start?
    ensures DeltaText(starts + events) == DeltaText(events)
  {
    if events != [] {
      assert (starts + events)[..|starts + events| - 1] == starts + events[..|events| - 1];
      StartsHaveNoText(starts, events[..|events| - 1]);
    } else if starts != [] {
      assert starts[..|starts| - 1] + [] == starts[..|starts| - 1];
      StartsHaveNoText(starts[..|starts| - 1], []);
    }
    assert starts + [] == starts;
  }

  /** The events of a round, appended to start events only. */
  lemma RoundEvents(starts: seq<Event>, route: Route, events: seq<ProviderEvent>)
    requires forall i :: 0 <= i < |starts| ==> starts[i].Start?
    ensures var all := starts + ForwardAll(route, events);
      && FromRoute(all, route)
      && NoneDone(all)
      && (HasDelta(all) <==> Emitted(events))
      && (!Emitted(events) ==> forall i :: 0 <= i < |all| ==> all[i].Start?)
      && DeltaText(all) == TextOf(events)
  {
    var out := ForwardAll(route, events);
    ForwardedEvents(route, events);
    StartsHaveNoText(starts, out);
    if HasDelta(out) {
      var i :| 0 <= i < |out| && out[i].Delta?;
      assert (starts + out)[|starts| + i].Delta?;
    }
  }

  /** A final event of the route, after events of the route. */
  lemma DoneComesLast(events: seq<Event>, route: Route, r: Response)
    requires FromRoute(events, route) && NoneDone(events)
    ensures var all := events + [Done(route.id, route.provider, route.model, r)];
      && FromRoute(all, route) && DoneOnlyLast(all)
      && DeltaText(all) == DeltaText(events)
  {
    DeltaSnoc(events, Done(route.id, route.provider, route.model, r));
    hide DeltaText;
    hide HasDelta;
  }

  lemma AcceptKeepsProvenance(c: Context, l: Loop, journal: Journal, r: Response, at: real)
    requires Active(c, l)
    requires FromRoute(journal.events, c.targets[l.next].route) && NoneDone(journal.events)
    requires r.text == DeltaText(journal.events)
    ensures var route := c.targets[l.next].route;
      Provenance(c, Accept(c, l, journal, r, at, [Done(route.id, route.provider, route.model, r)]))
  {
    DoneComesLast(journal.events, c.targets[l.next].route, r);
    hide DeltaText;
    hide HasDelta;
    hide FromRoute;
    hide NoneDone;
    hide DoneOnlyLast;
    hide ResponseRow;
    hide PostResponse;
  }

  lemma StreamStepKeepsProvenance(c: Context, l: Loop, s: StreamSeen)
    requires Active(c, l) && Provenance(c, l)
    ensures Provenance(c, StreamStep(c, l, s))
  {
    hide ForwardAll;
    hide TextOf;
    hide Emitted;
    hide Validate;
    hide AttemptBudgetMs;
    var t := c.targets[l.next];
    RoundEvents(l.journal.events, t.route, s.events);
    if Remaining(c, s.now) > 0.0 && s.admitted && s.ending.EndOfStream? {
      var v := Validate(c.contract, c.lane.request.responseSchema, TextOf(s.events));
      if v.Valid? {
        var admitted := Admit(c, l, t.route, s.now, s.at);
        var journal := admitted.(events := admitted.events + ForwardAll(t.route, s.events));
        var r := StreamedResponse(c, l.fallback, t, s, v);
        AcceptKeepsProvenance(c, l, journal, r, s.at.stored);
        assert StreamStep(c, l, s) == Accept(c, l, journal, r, s.at.stored, [Done(t.route.id, t.route.provider, t.route.model, r)]);
      } else {
        StreamFailureKeepsProvenance(c, l, s);
      }
    } else {
      StreamFailureKeepsProvenance(c, l, s);
    }
  }

  lemma StreamFailureKeepsProvenance(c: Context, l: Loop, s: StreamSeen)
    requires Active(c, l) && Provenance(c, l)
    requires !(Remaining(c, s.now) > 0.0 && s.admitted && s.ending.EndOfStream?
               && Validate(c.contract, c.lane.request.responseSchema, TextOf(s.events)).Valid?)
    ensures Provenance(c, StreamStep(c, l, s))
  {
    hide ForwardAll;
    hide TextOf;
    hide Emitted;
    hide Validate;
    hide AttemptBudgetMs;
    hide DeltaText;
    RoundEvents(l.journal.events, c.targets[l.next].route, s.events);
  }

  lemma {:induction false} StreamKeepsProvenance(c: Context, seen: seq<StreamSeen>)
    ensures Provenance(c, StreamLoop(c, seen))
  {
    hide StreamStep;
    if seen != [] {
      StreamKeepsProvenance(c, seen[..|seen| - 1]);
      var l := StreamLoop(c, seen[..|seen| - 1]);
      if Active(c, l) { StreamStepKeepsProvenance(c, l, seen[|seen| - 1]); }
    }
  }

  /**
    The events a client has received of a call: the final event comes at most once,
    last, exactly when the call returns, with the response of the call, whose text
    is the concatenation of the deltas; and deltas and final event name one route.
   */
  ghost predicate OneProvenance(l: Loop) {
    var events := l.journal.events;
    && DoneOnlyLast(events)
    && (forall i, j :: 0 <= i < j < |events| && !events[i].Start? && !events[j].Start? ==> events[i].routeId == events[j].routeId)
    && (l.status.Returned? <==> events != [] && events[|events| - 1].Done?)
    && (l.status.Returned? ==>
          && events[|events| - 1].response == l.status.response
          && events[|events| - 1].routeId == l.status.response.routeId
          && l.status.response.text == DeltaText(events))
  }

  /** A delta means that the loop is over, and that it comes from the last route tried. */
  ghost predicate DeltasEndTheLoop(l: Loop) {
    HasDelta(l.journal.events) ==>
      && !l.status.Trying?
      && var tried := Tried(l.journal.circuits);
         tried != [] && forall i :: 0 <= i < |l.journal.events| && l.journal.events[i].Delta? ==>
           l.journal.events[i].routeId == tried[|tried| - 1]
  }

  /** Stream provenance, for every sequence of provider events and failures. */
  lemma StreamHasOneProvenance(g: Gateway, call: Call, a: Arrival, seen: seq<StreamSeen>, finishedAt: real)
    requires call.request.Valid() && Distinct(RouteIds(g.routes))
    ensures OneProvenance(StreamCall(g, call, a, seen, finishedAt))
    ensures Enter(g, call, a).Candidates? ==> DeltasEndTheLoop(StreamCall(g, call, a, seen, finishedAt))
  {
    match Enter(g, call, a)
    case Rejected(error) =>
    case CacheHit(lane, r) => HitProvenance(lane, r);
    case Candidates(c) =>
      StreamProvenanceOf(c, seen, finishedAt);
      hide OneProvenance;
      hide DeltasEndTheLoop;
  }

  lemma HitProvenance(lane: Lane, r: Response)
    ensures OneProvenance(HitLoop(lane, r, HitEvents(r)))
  {
    var e := HitEvents(r);
    assert e[..2][..1] == [e[0]] && e[..2][1] == e[1];
    assert DeltaText([e[0]]) == "" by { assert [e[0]][..0] == []; }
    assert DeltaText(e[..2]) == r.text;
  }

  lemma StreamProvenanceOf(c: Context, seen: seq<StreamSeen>, finishedAt: real)
    ensures OneProvenance(Close(c, StreamLoop(c, seen), finishedAt))
    ensures DeltasEndTheLoop(Close(c, StreamLoop(c, seen), finishedAt))
  {
    var l := StreamLoop(c, seen);
    StreamKeepsProvenance(c, seen);
    StreamAccounted(c, seen);
    hide StreamLoop;
    ProvenanceOfEvents(c, l, Close(c, l, finishedAt));
    DeltasComeFromTheLast(c, l, Close(c, l, finishedAt));
    hide OneProvenance;
    hide DeltasEndTheLoop;
  }

  /** Closing a loop changes neither its events nor its circuit calls. */
  ghost predicate Closes(l: Loop, after: Loop) {
    && after.journal.events == l.journal.events
    && after.journal.circuits == l.journal.circuits
    && (after.status == l.status || (!l.status.Returned? && after.status.Raised?))
  }

  lemma ProvenanceOfEvents(c: Context, l: Loop, after: Loop)
    requires Provenance(c, l) && Closes(l, after)
    requires l.status.Returned? ==> l.next > 0 && l.journal.events != [] && l.status.response.routeId == c.targets[l.next - 1].route.id
    requires l.next == 0 ==> forall i :: 0 <= i < |l.journal.events| ==> l.journal.events[i].Start?
    ensures OneProvenance(after)
  {
    hide DeltaText;
    hide HasDelta;
  }

  lemma DeltasComeFromTheLast(c: Context, l: Loop, after: Loop)
    requires Provenance(c, l) && Closes(l, after) && Tried(l.journal.circuits) == TargetIds(c)[..l.next]
    requires l.next == 0 ==> forall i :: 0 <= i < |l.journal.events| ==> l.journal.events[i].Start?
    ensures DeltasEndTheLoop(after)
  {
    hide DeltaText;
    if l.next > 0 {
      assert Tried(l.journal.circuits)[l.next - 1] == c.targets[l.next - 1].route.id;
    }
    hide Tried;
  }

  /** Once a delta is out, nothing that happens later makes the stream try another route or send more. */
  lemma {:induction false} NothingAfterTheRoundOfADelta(c: Context, seen: seq<StreamSeen>, more: seq<StreamSeen>)
    requires HasDelta(StreamLoop(c, seen).journal.events)
    ensures StreamLoop(c, seen + more) == StreamLoop(c, seen)
  {
    StreamKeepsProvenance(c, seen);
    if more == [] {
      assert seen + more == seen;
    } else {
      NothingAfterTheRoundOfADelta(c, seen, more[..|more| - 1]);
      assert (seen + more)[..|seen + more| - 1] == seen + more[..|more| - 1];
    }
  }

  // -------------------------------------------------------------------------
  // Deadlines

  /**
    One round on a clock that does not go back: the deadline is checked at `now`, then
    the circuit is asked, then the provider called, and its timeout is exact.
   */
  ghost predicate TimedRound(c: Context, earlier: real, now: real, admitted: bool, at: Readings) {
    && earlier <= now
    && (Remaining(c, now) > 0.0 ==>
          && now <= at.asked
          && (admitted ==> at.asked <= at.called <= at.ended <= at.called + Remaining(c, now)))
  }

  /** When a round is over. */
  function RoundEnd(c: Context, now: real, admitted: bool, at: Readings): real {
    if Remaining(c, now) <= 0.0 then now else if admitted then at.ended else at.asked
  }

  function EndOf(c: Context, seen: seq<Seen>): real {
    if seen == [] then c.started
    else var s := seen[|seen| - 1]; RoundEnd(c, s.now, s.admitted, s.at)
  }

  ghost predicate Timed(c: Context, seen: seq<Seen>) {
    seen != [] ==>
      var before, s := seen[..|seen| - 1], seen[|seen| - 1];
      Timed(c, before) && TimedRound(c, EndOf(c, before), s.now, s.admitted, s.at)
  }

  function StreamEndOf(c: Context, seen: seq<StreamSeen>): real {
    if seen == [] then c.started
    else var s := seen[|seen| - 1]; RoundEnd(c, s.now, s.admitted, s.at)
  }

  ghost predicate StreamTimed(c: Context, seen: seq<StreamSeen>) {
    seen != [] ==>
      var before, s := seen[..|seen| - 1], seen[|seen| - 1];
      StreamTimed(c, before) && TimedRound(c, StreamEndOf(c, before), s.now, s.admitted, s.at)
  }

  /**
    The attempt is decided on before the caller's deadline, and its timeout is exactly
    what was left then. So it ends by the deadline, but for the time that passed
    between the decision and the call. The budget it is told fits what was left (but
    is at least one millisecond) and the caller's own.
   */
  ghost predicate WithinDeadline(c: Context, p: ProviderCall) {
    && c.started <= p.checked < Deadline(c)
    && p.checked + p.timeout == Deadline(c)
    && p.checked <= p.start <= p.end <= p.start + p.timeout == Deadline(c) + (p.start - p.checked)
    && 1 <= p.maxLatencyMs <= c.lane.request.maxLatencyMs
    && p.maxLatencyMs == AttemptBudgetMs(p.timeout)
    && (p.maxLatencyMs == 1 || p.maxLatencyMs as real <= p.timeout * 1000.0)
    && p.timeout * 1000.0 < p.maxLatencyMs as real + 1.0
  }

  /** Every attempt is within the deadline; no attempt is decided on before the earlier ones have ended. */
  ghost predicate OnTime(c: Context, calls: seq<ProviderCall>, upTo: real) {
    && c.started <= upTo
    && (forall i :: 0 <= i < |calls| ==> WithinDeadline(c, calls[i]) && calls[i].end <= upTo)
    && (forall i, j :: 0 <= i < j < |calls| ==> calls[j].maxLatencyMs <= calls[i].maxLatencyMs && calls[i].end <= calls[j].checked)
  }

  /** A later attempt is told a budget no larger than an earlier one. */
  lemma BudgetsShrink(remaining: real, less: real)
    requires less <= remaining
    ensures AttemptBudgetMs(less) <= AttemptBudgetMs(remaining)
  {
    assert (less * 1000.0).Floor <= (remaining * 1000.0).Floor;
  }

  lemma AttemptOnTime(c: Context, calls: seq<ProviderCall>, earlier: real, route: RouteId, now: real, at: Readings)
    requires c.lane.request.maxLatencyMs >= 1
    requires OnTime(c, calls, earlier) && TimedRound(c, earlier, now, true, at) && Remaining(c, now) > 0.0
    ensures OnTime(c, calls + [ProviderCall(route, AttemptBudgetMs(Remaining(c, now)), Remaining(c, now), now, at.called, at.ended)], at.ended)
  {
    var p := ProviderCall(route, AttemptBudgetMs(Remaining(c, now)), Remaining(c, now), now, at.called, at.ended);
    BudgetsShrink(c.lane.request.maxLatencyMs as real / 1000.0, Remaining(c, now));
    assert AttemptBudgetMs(c.lane.request.maxLatencyMs as real / 1000.0) == c.lane.request.maxLatencyMs;
    assert WithinDeadline(c, p);
    forall i | 0 <= i < |calls| ensures p.maxLatencyMs <= calls[i].maxLatencyMs {
      assert WithinDeadline(c, calls[i]);
      BudgetsShrink(calls[i].timeout, p.timeout);
    }
  }

  /** What a round adds to the provider calls. */
  function Attempt(c: Context, route: RouteId, now: real, admitted: bool, at: Readings): seq<ProviderCall> {
    if Remaining(c, now) > 0.0 && admitted
    then [ProviderCall(route, AttemptBudgetMs(Remaining(c, now)), Remaining(c, now), now, at.called, at.ended)]
    else []
  }

  lemma GenerateStepAttempts(c: Context, l: Loop, s: Seen)
    requires Active(c, l)
    ensures GenerateStep(c, l, s).journal.calls
            == l.journal.calls + Attempt(c, c.targets[l.next].route.id, s.now, s.admitted, s.at)
  {
    hide AttemptBudgetMs;
    hide Validate;
  }

  lemma StreamStepAttempts(c: Context, l: Loop, s: StreamSeen)
    requires Active(c, l)
    ensures StreamStep(c, l, s).journal.calls
            == l.journal.calls + Attempt(c, c.targets[l.next].route.id, s.now, s.admitted, s.at)
  {
    hide AttemptBudgetMs;
    hide Validate;
    hide ForwardAll;
    hide TextOf;
    hide Emitted;
  }

  lemma OnTimeLater(c: Context, calls: seq<ProviderCall>, earlier: real, later: real)
    requires OnTime(c, calls, earlier) && earlier <= later
    ensures OnTime(c, calls, later)
  {
    hide WithinDeadline;
  }

  /** A round keeps the attempts on time. */
  lemma RoundOnTime(c: Context, calls: seq<ProviderCall>, earlier: real, route: RouteId, now: real, admitted: bool, at: Readings)
    requires c.lane.request.maxLatencyMs >= 1
    requires OnTime(c, calls, earlier) && TimedRound(c, earlier, now, admitted, at)
    ensures OnTime(c, calls + Attempt(c, route, now, admitted, at), RoundEnd(c, now, admitted, at))
  {
    hide OnTime;
    if Remaining(c, now) > 0.0 && admitted {
      AttemptOnTime(c, calls, earlier, route, now, at);
    } else {
      assert calls + [] == calls;
      OnTimeLater(c, calls, earlier, RoundEnd(c, now, admitted, at));
    }
  }

  lemma RoundEndsLater(c: Context, earlier: real, now: real, admitted: bool, at: Readings)
    requires TimedRound(c, earlier, now, admitted, at)
    ensures earlier <= RoundEnd(c, now, admitted, at)
  {}

  lemma NoAttemptsYet(c: Context)
    ensures OnTime(c, [], c.started)
  {}

  /**
    However long the chain of candidates, every provider attempt of `generate` is
    decided on before the caller's deadline and ends by it, but for the time between
    decision and call, and the budget that the attempts are told never grows.
   */
  lemma {:induction false} GenerateMeetsDeadline(c: Context, seen: seq<Seen>)
    requires c.lane.request.maxLatencyMs >= 1 && Timed(c, seen)
    ensures OnTime(c, GenerateLoop(c, seen).journal.calls, EndOf(c, seen))
  {
    hide OnTime;
    hide TimedRound;
    hide RoundEnd;
    hide GenerateStep;
    if seen == [] {
      NoAttemptsYet(c);
      return;
    }
    var before, s := seen[..|seen| - 1], seen[|seen| - 1];
    GenerateMeetsDeadline(c, before);
    var earlier, l := EndOf(c, before), GenerateLoop(c, before);
    RoundEndsLater(c, earlier, s.now, s.admitted, s.at);
    if Active(c, l) {
      GenerateStepAttempts(c, l, s);
      RoundOnTime(c, l.journal.calls, earlier, c.targets[l.next].route.id, s.now, s.admitted, s.at);
    } else {
      OnTimeLater(c, l.journal.calls, earlier, EndOf(c, seen));
    }
  }

  /** The same for `stream`. */
  lemma {:induction false} StreamMeetsDeadline(c: Context, seen: seq<StreamSeen>)
    requires c.lane.request.maxLatencyMs >= 1 && StreamTimed(c, seen)
    ensures OnTime(c, StreamLoop(c, seen).journal.calls, StreamEndOf(c, seen))
  {
    hide OnTime;
    hide TimedRound;
    hide RoundEnd;
    hide StreamStep;
    if seen == [] {
      NoAttemptsYet(c);
      return;
    }
    var before, s := seen[..|seen| - 1], seen[|seen| - 1];
    StreamMeetsDeadline(c, before);
    var earlier, l := StreamEndOf(c, before), StreamLoop(c, before);
    RoundEndsLater(c, earlier, s.now, s.admitted, s.at);
    if Active(c, l) {
      StreamStepAttempts(c, l, s);
      RoundOnTime(c, l.journal.calls, earlier, c.targets[l.next].route.id, s.now, s.admitted, s.at);
    } else {
      OnTimeLater(c, l.journal.calls, earlier, StreamEndOf(c, seen));
    }
  }

  // -------------------------------------------------------------------------
  // When a call returns

  /** What one round does to the loop: it ends with a response, goes on, ends without one, or dies of an exception. */
  datatype Verdict = Wins | Falls | Stops | Dies

  function GenerateVerdict(c: Context, s: Seen): Verdict {
    if Remaining(c, s.now) <= 0.0 then Stops
    else if !s.admitted then Falls
    else
      match s.reply
      case TimedOut => Falls
      case ProviderError(code) => if code == INVALID_REQUEST then Stops else Falls
      case Completed(text, _, _, _, _) =>
        if MeetsSchema(c.contract, c.lane.request.responseSchema, text) then Wins
        else if Uncheckable(c.contract, c.lane.request.responseSchema, text) then Dies
        else Falls
  }

  function StreamVerdict(c: Context, s: StreamSeen): Verdict {
    if Remaining(c, s.now) <= 0.0 then Stops
    else if !s.admitted then Falls
    else if s.ending.EndOfStream? && MeetsSchema(c.contract, c.lane.request.responseSchema, TextOf(s.events)) then Wins
    else if s.ending.EndOfStream? && Uncheckable(c.contract, c.lane.request.responseSchema, TextOf(s.events)) then Dies
    else if Emitted(s.events) || s.ending == StreamFailed(INVALID_REQUEST) then Stops
    else Falls
  }

  ghost predicate AllFall(vs: seq<Verdict>, n: nat) {
    n <= |vs| && forall j :: 0 <= j < n ==> vs[j].Falls?
  }

  ghost predicate WonAt(vs: seq<Verdict>, i: nat) { i < |vs| && vs[i].Wins? && AllFall(vs, i) }

  ghost predicate DiedAt(vs: seq<Verdict>, i: nat) { i < |vs| && vs[i].Dies? && AllFall(vs, i) }

  ghost predicate StoppedAt(vs: seq<Verdict>, i: nat) { i < |vs| && vs[i].Stops? && AllFall(vs, i) }

  /** The loop over n candidates after these rounds. */
  ghost predicate Follows(n: nat, vs: seq<Verdict>, l: Loop) {
    && l.next <= n
    && (l.status.Trying? ==> (l.next == |vs| || (l.next == n && n < |vs|)) && AllFall(vs, l.next))
    && (l.status.Returned? ==> l.next > 0 && WonAt(vs, l.next - 1))
    && (l.status.Crashed? ==> l.next > 0 && DiedAt(vs, l.next - 1))
    && (l.status.Broken? || l.status.Raised? ==> exists i :: 0 <= i < n && StoppedAt(vs, i))
  }

  lemma FollowsStep(n: nat, vs: seq<Verdict>, v: Verdict, l: Loop, after: Loop)
    requires Follows(n, vs, l) && l.status.Trying? && l.next == |vs| < n
    requires v.Wins? ==> after.status.Returned? && after.next == l.next + 1
    requires v.Falls? ==> after.status.Trying? && after.next == l.next + 1
    requires v.Dies? ==> after.status.Crashed? && after.next == l.next + 1
    requires v.Stops? ==> (after.status.Broken? || after.status.Raised?) && after.next <= n
    ensures Follows(n, vs + [v], after)
  {
    if v.Stops? { assert StoppedAt(vs + [v], |vs|); }
  }

  lemma FollowsIdle(n: nat, vs: seq<Verdict>, v: Verdict, l: Loop)
    requires Follows(n, vs, l) && !(l.status.Trying? && l.next < n)
    ensures Follows(n, vs + [v], l)
  {
    if l.status.Broken? || l.status.Raised? {
      var i :| 0 <= i < n && StoppedAt(vs, i);
      assert StoppedAt(vs + [v], i);
    }
  }

  function GenerateVerdicts(c: Context, seen: seq<Seen>): (vs: seq<Verdict>)
    ensures |vs| == |seen|
    ensures forall i :: 0 <= i < |vs| ==> vs[i] == GenerateVerdict(c, seen[i])
  {
    if seen == [] then []
    else GenerateVerdicts(c, seen[..|seen| - 1]) + [GenerateVerdict(c, seen[|seen| - 1])]
  }

  function StreamVerdicts(c: Context, seen: seq<StreamSeen>): (vs: seq<Verdict>)
    ensures |vs| == |seen|
    ensures forall i :: 0 <= i < |vs| ==> vs[i] == StreamVerdict(c, seen[i])
  {
    if seen == [] then []
    else StreamVerdicts(c, seen[..|seen| - 1]) + [StreamVerdict(c, seen[|seen| - 1])]
  }

  lemma GenerateStepVerdict(c: Context, l: Loop, s: Seen)
    requires Active(c, l)
    ensures var v, after := GenerateVerdict(c, s), GenerateStep(c, l, s);
      && (v.Wins? ==> after.status.Returned? && after.next == l.next + 1)
      && (v.Falls? ==> after.status.Trying? && after.next == l.next + 1)
      && (v.Dies? ==> after.status.Crashed? && after.next == l.next + 1)
      && (v.Stops? ==> (after.status.Broken? || after.status.Raised?) && after.next <= |c.targets|)
  {
    hide AttemptBudgetMs;
  }

  lemma {:induction false} GenerateFollows(c: Context, seen: seq<Seen>)
    ensures Follows(|c.targets|, GenerateVerdicts(c, seen), GenerateLoop(c, seen))
  {
    if seen != [] {
      var before, s := seen[..|seen| - 1], seen[|seen| - 1];
      GenerateFollows(c, before);
      var l, vs := GenerateLoop(c, before), GenerateVerdicts(c, before);
      if Active(c, l) {
        GenerateStepVerdict(c, l, s);
        hide GenerateStep;
        hide GenerateVerdict;
        FollowsStep(|c.targets|, vs, GenerateVerdict(c, s), l, GenerateStep(c, l, s));
      } else {
        FollowsIdle(|c.targets|, vs, GenerateVerdict(c, s), l);
      }
      hide Follows;
    }
  }

  lemma StreamStepVerdict(c: Context, l: Loop, s: StreamSeen)
    requires Active(c, l)
    ensures var v, after := StreamVerdict(c, s), StreamStep(c, l, s);
      && (v.Wins? ==> after.status.Returned? && after.next == l.next + 1)
      && (v.Falls? ==> after.status.Trying? && after.next == l.next + 1)
      && (v.Dies? ==> after.status.Crashed? && after.next == l.next + 1)
      && (v.Stops? ==> (after.status.Broken? || after.status.Raised?) && after.next <= |c.targets|)
  {
    hide TextOf;
    hide Emitted;
    hide ForwardAll;
    hide AttemptBudgetMs;
  }

  lemma {:induction false} StreamFollows(c: Context, seen: seq<StreamSeen>)
    ensures Follows(|c.targets|, StreamVerdicts(c, seen), StreamLoop(c, seen))
  {
    if seen != [] {
      var before, s := seen[..|seen| - 1], seen[|seen| - 1];
      StreamFollows(c, before);
      var l, vs := StreamLoop(c, before), StreamVerdicts(c, before);
      if Active(c, l) {
        StreamStepVerdict(c, l, s);
        hide StreamStep;
        hide StreamVerdict;
        FollowsStep(|c.targets|, vs, StreamVerdict(c, s), l, StreamStep(c, l, s));
      } else {
        FollowsIdle(|c.targets|, vs, StreamVerdict(c, s), l);
      }
      hide Follows;
    }
  }

  lemma SettlementIsUnique(vs: seq<Verdict>, i: nat, j: nat)
    requires WonAt(vs, i) || DiedAt(vs, i) || StoppedAt(vs, i)
    requires WonAt(vs, j) || DiedAt(vs, j) || StoppedAt(vs, j)
    ensures i == j && (WonAt(vs, i) <==> WonAt(vs, j)) && (DiedAt(vs, i) <==> DiedAt(vs, j))
  {}

  /**
    `generate` returns exactly when some candidate in time is admitted and answers
    within its timeout with a text that meets the schema, and every candidate
    before it failed in a way that allows a fallback; and it returns that one. It
    dies of an exception exactly when the validator fails on such an answer.
   */
  lemma GenerateReturnsIff(c: Context, seen: seq<Seen>, i: nat)
    requires |seen| >= |c.targets| && i < |c.targets|
    ensures GenerateLoop(c, seen).status.Returned? && GenerateLoop(c, seen).next == i + 1 <==> WonAt(GenerateVerdicts(c, seen), i)
    ensures GenerateLoop(c, seen).status.Crashed? && GenerateLoop(c, seen).next == i + 1 <==> DiedAt(GenerateVerdicts(c, seen), i)
  {
    GenerateFollows(c, seen);
    ReturnsIff(|c.targets|, GenerateVerdicts(c, seen), GenerateLoop(c, seen), i);
  }

  lemma StreamReturnsIff(c: Context, seen: seq<StreamSeen>, i: nat)
    requires |seen| >= |c.targets| && i < |c.targets|
    ensures StreamLoop(c, seen).status.Returned? && StreamLoop(c, seen).next == i + 1 <==> WonAt(StreamVerdicts(c, seen), i)
    ensures StreamLoop(c, seen).status.Crashed? && StreamLoop(c, seen).next == i + 1 <==> DiedAt(StreamVerdicts(c, seen), i)
  {
    StreamFollows(c, seen);
    ReturnsIff(|c.targets|, StreamVerdicts(c, seen), StreamLoop(c, seen), i);
  }

  lemma ReturnsIff(n: nat, vs: seq<Verdict>, l: Loop, i: nat)
    requires Follows(n, vs, l) && |vs| >= n && i < n
    ensures l.status.Returned? && l.next == i + 1 <==> WonAt(vs, i)
    ensures l.status.Crashed? && l.next == i + 1 <==> DiedAt(vs, i)
  {
    if WonAt(vs, i) || DiedAt(vs, i) {
      if l.status.Returned? || l.status.Crashed? {
        SettlementIsUnique(vs, i, l.next - 1);
      } else if l.status.Broken? || l.status.Raised? {
        var j :| 0 <= j < n && StoppedAt(vs, j);
        SettlementIsUnique(vs, i, j);
      }
    }
  }

  // -------------------------------------------------------------------------
  // Circuit records

  /** Every record answers the admission just before it. */
  ghost predicate Paired(calls: seq<CircuitCall>) {
    forall i :: 0 <= i < |calls| && !calls[i].Asked? ==>
      i > 0 && calls[i - 1].Asked? && calls[i - 1].admitted && calls[i - 1].route == calls[i].route
  }

  ghost predicate AnsweredAt(calls: seq<CircuitCall>, i: int)
    requires 0 <= i < |calls|
  {
    calls[i].Asked? && calls[i].admitted ==>
      i + 1 < |calls| && !calls[i + 1].Asked? && calls[i + 1].route == calls[i].route
  }

  /** Every admission is answered by a record. */
  ghost predicate Answered(calls: seq<CircuitCall>) {
    forall i :: 0 <= i < |calls| ==> AnsweredAt(calls, i)
  }

  lemma AnswerRound(calls: seq<CircuitCall>, round: seq<CircuitCall>, route: RouteId, at: Readings)
    requires Paired(calls)
    requires || round == [Asked(route, false, at.asked)]
             || round == [Asked(route, true, at.asked)]
             || round == [Asked(route, true, at.asked), Succeeded(route)]
             || round == [Asked(route, true, at.asked), Failed(route, at.recorded)]
    ensures Paired(calls + round)
    ensures Answered(calls + round) <==> Answered(calls) && round != [Asked(route, true, at.asked)]
  {
    var all := calls + round;
    assert all[|calls|] == round[0];
    if |round| == 2 { assert all[|calls| + 1] == round[1]; }
    if Answered(all) {
      forall i | 0 <= i < |calls| ensures AnsweredAt(calls, i) {
        assert AnsweredAt(all, i);
        assert calls[i] == all[i];
      }
      assert AnsweredAt(all, |calls|);
    }
    if Answered(calls) && round != [Asked(route, true, at.asked)] {
      forall i | 0 <= i < |all| ensures AnsweredAt(all, i) {
        if i < |calls| { assert AnsweredAt(calls, i) && all[i] == calls[i]; }
      }
    }
  }

  /** The provider was called and answered in full, but the text does not meet the schema. */
  predicate Violates(c: Context, s: Seen) {
    && Remaining(c, s.now) > 0.0
    && s.admitted
    && s.reply.Completed?
    && !MeetsSchema(c.contract, c.lane.request.responseSchema, s.reply.text)
  }

  function GenerateRound(c: Context, route: Route, s: Seen): seq<CircuitCall> {
    if Remaining(c, s.now) <= 0.0 then []
    else if !s.admitted then [Asked(route.id, false, s.at.asked)]
    else if Violates(c, s) then [Asked(route.id, true, s.at.asked)]
    else [Asked(route.id, true, s.at.asked), if s.reply.Completed? then Succeeded(route.id) else Failed(route.id, s.at.recorded)]
  }

  lemma GenerateStepRecords(c: Context, l: Loop, s: Seen)
    requires Active(c, l)
    ensures GenerateStep(c, l, s).journal.circuits == l.journal.circuits + GenerateRound(c, c.targets[l.next].route, s)
  {}

  /**
    What a call tells the circuits: a record only ever answers the admission just
    before it, and an admission goes unanswered exactly when the provider's answer
    violates the schema.
   */
  lemma {:induction false} GenerateRecordsUnlessSchemaViolated(c: Context, seen: seq<Seen>)
    ensures var l := GenerateLoop(c, seen);
      && Paired(l.journal.circuits)
      && l.next <= |seen|
      && (Answered(l.journal.circuits) <==> forall j :: 0 <= j < l.next ==> !Violates(c, seen[j]))
  {
    hide GenerateStep;
    if seen != [] {
      var before, s := seen[..|seen| - 1], seen[|seen| - 1];
      GenerateRecordsUnlessSchemaViolated(c, before);
      GenerateFollows(c, before);
      var l := GenerateLoop(c, before);
      if Active(c, l) {
        var route := c.targets[l.next].route;
        GenerateStepRecords(c, l, s);
        GenerateStepCounts(c, l, s);
        if Remaining(c, s.now) > 0.0 {
          AnswerRound(l.journal.circuits, GenerateRound(c, route, s), route.id, s.at);
        } else {
          assert l.journal.circuits + [] == l.journal.circuits;
        }
        hide Answered;
        hide Paired;
      }
    }
  }

  lemma GenerateStepCounts(c: Context, l: Loop, s: Seen)
    requires Active(c, l)
    ensures GenerateStep(c, l, s).next == if Remaining(c, s.now) > 0.0 then l.next + 1 else l.next
  {}

  predicate StreamViolates(c: Context, s: StreamSeen) {
    && Remaining(c, s.now) > 0.0
    && s.admitted
    && s.ending.EndOfStream?
    && !MeetsSchema(c.contract, c.lane.request.responseSchema, TextOf(s.events))
  }

  function StreamRound(c: Context, route: Route, s: StreamSeen): seq<CircuitCall> {
    if Remaining(c, s.now) <= 0.0 then []
    else if !s.admitted then [Asked(route.id, false, s.at.asked)]
    else if StreamViolates(c, s) then [Asked(route.id, true, s.at.asked)]
    else [Asked(route.id, true, s.at.asked), if s.ending.EndOfStream? then Succeeded(route.id) else Failed(route.id, s.at.recorded)]
  }

  lemma StreamStepRecords(c: Context, l: Loop, s: StreamSeen)
    requires Active(c, l)
    ensures StreamStep(c, l, s).journal.circuits == l.journal.circuits + StreamRound(c, c.targets[l.next].route, s)
    ensures StreamStep(c, l, s).next == if Remaining(c, s.now) > 0.0 then l.next + 1 else l.next
  {}

  /** The same for `stream`. */
  lemma {:induction false} StreamRecordsUnlessSchemaViolated(c: Context, seen: seq<StreamSeen>)
    ensures var l := StreamLoop(c, seen);
      && Paired(l.journal.circuits)
      && l.next <= |seen|
      && (Answered(l.journal.circuits) <==> forall j :: 0 <= j < l.next ==> !StreamViolates(c, seen[j]))
  {
    hide StreamStep;
    if seen != [] {
      var before, s := seen[..|seen| - 1], seen[|seen| - 1];
      StreamRecordsUnlessSchemaViolated(c, before);
      StreamFollows(c, before);
      var l := StreamLoop(c, before);
      if Active(c, l) {
        var route := c.targets[l.next].route;
        StreamStepRecords(c, l, s);
        if Remaining(c, s.now) > 0.0 {
          AnswerRound(l.journal.circuits, StreamRound(c, route, s), route.id, s.at);
        } else {
          assert l.journal.circuits + [] == l.journal.circuits;
        }
        hide Answered;
        hide Paired;
      }
    }
  }
}
