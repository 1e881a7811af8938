/**
  Whole runs of the gateway. Calls interleave freely; what they share changes only
  through the effects in their journals. So a run of the cache is any sequence of
  cache operations whose writes come from journals, and a run of the ledger any
  sequence of rows that come from journals.
 */
module Runs {
  import opened Domain
  import opened Engine
  import opened EngineProofs
  import Cache
  import Release
  import Router
  import Transcripts

  /** One call and all it has seen so far. */
  datatype Activity =
    | Generated(call: Call, arrival: Arrival, seen: seq<Seen>, finishedAt: real)
    | Streamed(call: Call, arrival: Arrival, streamed: seq<StreamSeen>, finishedAt: real)

  /** The calls that the gateway makes. */
  ghost predicate Legal(g: Gateway, act: Activity) {
    && Distinct(RouteIds(g.routes))
    && act.call.request.Valid()
    && act.call.Made()
    && (act.Streamed? ==> act.call.kind.User?)
  }

  ghost function LoopOf(g: Gateway, act: Activity): Loop
    requires Legal(g, act)
  {
    match act
    case Generated(call, a, seen, at) => GenerateCall(g, call, a, seen, at)
    case Streamed(call, a, seen, at) => StreamCall(g, call, a, seen, at)
  }

  ghost function EntryOf(g: Gateway, act: Activity): Entry
    requires Legal(g, act)
  {
    Enter(g, act.call, act.arrival)
  }

  // -------------------------------------------------------------------------
  // What a journal may contain

  /** These rows carry the marks of this lane. */
  ghost predicate RowsOf(lane: Lane, rows: seq<Metric>, hit: bool) {
    forall i :: 0 <= i < |rows| ==>
      && rows[i].requestId == lane.request.requestId
      && rows[i].tenantId == lane.request.tenantId
      && rows[i].canary == lane.assignment.canary
      && rows[i].releaseId == lane.assignment.releaseId
      && rows[i].shadow == lane.kind.Shadow?
      && rows[i].cacheHit == hit
  }

  ghost predicate WroteResponse(c: Context, l: Loop) {
    && 0 < l.next <= |c.targets|
    && l.status.Returned?
    && SettledReturned(c, l, l.status.response)
  }

  ghost predicate WroteError(c: Context, l: Loop) {
    && l.journal.writes == []
    && (l.journal.tasks == [] || l.journal.tasks == Assessment(c.lane.assignment))
    && !l.status.Returned?
  }

  /** After its loop a call has written its response, its error, or nothing. */
  ghost predicate Wrote(c: Context, l: Loop) {
    && RowsOf(c.lane, l.journal.rows, false)
    && (forall i :: 0 <= i < |l.journal.rows| ==> l.journal.rows[i].success == l.status.Returned?)
    && (WroteResponse(c, l) || WroteError(c, l))
  }

  lemma LoopWrites(c: Context, l: Loop, now: real)
    requires Accounted(c, l)
    ensures Wrote(c, Close(c, l, now))
  {}

  ghost function ClosedLoop(c: Context, act: Activity): Loop {
    match act
    case Generated(_, _, seen, at) => Close(c, GenerateLoop(c, seen), at)
    case Streamed(_, _, seen, at) => Close(c, StreamLoop(c, seen), at)
  }

  lemma LoopOfCandidates(g: Gateway, act: Activity)
    requires Legal(g, act) && EntryOf(g, act).Candidates?
    ensures LoopOf(g, act) == ClosedLoop(EntryOf(g, act).context, act)
  {}

  lemma ClosedLoopWrites(c: Context, act: Activity)
    ensures Wrote(c, ClosedLoop(c, act))
  {
    match act
    case Generated(_, _, seen, at) =>
      GenerateAccounted(c, seen);
      LoopWrites(c, GenerateLoop(c, seen), at);
    case Streamed(_, _, seen, at) =>
      StreamAccounted(c, seen);
      LoopWrites(c, StreamLoop(c, seen), at);
  }

  lemma JournalWrites(g: Gateway, act: Activity)
    requires Legal(g, act) && EntryOf(g, act).Candidates?
    ensures var c, l := EntryOf(g, act).context, LoopOf(g, act);
      && Ready(c, TermsOf(act.call, act.arrival, c.lane.request))
      && c.contract == g.contract
      && (forall i :: 0 <= i < |c.targets| ==> c.targets[i].route in g.routes)
      && Wrote(c, l)
  {
    hide LoopOf;
    hide ClosedLoop;
    hide Wrote;
    EnterIsReady(g, act.call, act.arrival);
    LoopOfCandidates(g, act);
    ClosedLoopWrites(EntryOf(g, act).context, act);
    hide Enter;
  }

  lemma LaneOfEntry(g: Gateway, act: Activity)
    requires Legal(g, act)
    ensures match EntryOf(g, act)
      case Rejected(_) => true
      case CacheHit(lane, r) => IsLane(g, act, lane) && lane.Reads()
      case Candidates(c) => IsLane(g, act, c.lane)
  {}

  /** The lane of this call. */
  ghost predicate IsLane(g: Gateway, act: Activity, lane: Lane) {
    && Resolve(act.call.request, act.arrival.rendered) == Some(lane.request)
    && lane.forced == act.call.forced
    && lane.kind == act.call.kind
    && lane.assignment == AssignmentOf(g.hash, act.call, act.arrival.live, lane.request)
  }

  // -------------------------------------------------------------------------
  // The cache never answers against policy

  const FORCED_PREFIX := "forced-route:"

  /** A namespace forces a route exactly when its lane does. */
  lemma NamespaceForces(assignment: Release.Assignment, forced: Option<RouteId>, route: RouteId)
    ensures CacheNamespace(assignment, forced) == FORCED_PREFIX + route <==> forced == Some(route)
  {
    var namespace := CacheNamespace(assignment, forced);
    if forced.Some? {
      assert (FORCED_PREFIX + forced.value)[|FORCED_PREFIX|..] == forced.value;
      assert (FORCED_PREFIX + route)[|FORCED_PREFIX|..] == route;
    } else {
      assert namespace[0] != 'f';
      assert (FORCED_PREFIX + route)[0] == 'f';
    }
  }

  /** The answer is fit for the request: by policy, by schema and by the lane it is read in. */
  ghost predicate Fits(g: Gateway, request: Request, namespace: string, r: Response) {
    && (exists route :: route in g.routes && route.id == r.routeId && Router.MeetsPolicy(request, route))
    && MeetsSchema(g.contract, request.responseSchema, r.text)
    && (forall id :: namespace == FORCED_PREFIX + id ==> r.routeId == id)
  }

  /** Requests of one scope have the same policy, so an answer that fits one fits the other. */
  lemma FitsWholeScope(g: Gateway, writer: Request, reader: Request, written: string, read: string, r: Response)
    requires Fits(g, writer, written, r)
    requires Cache.ScopeOf(writer, written) == Cache.ScopeOf(reader, read)
    ensures Fits(g, reader, read, r)
  {
    var route :| route in g.routes && route.id == r.routeId && Router.MeetsPolicy(writer, route);
    assert Router.MeetsPolicy(reader, route);
  }

  /** What a call of this lane has accepted fits its request. */
  lemma AcceptedFits(g: Gateway, c: Context, terms: Router.Terms, l: Loop)
    requires Ready(c, terms) && terms.forced == c.lane.forced && c.contract == g.contract
    requires forall i :: 0 <= i < |c.targets| ==> c.targets[i].route in g.routes
    requires WroteResponse(c, l)
    ensures Fits(g, c.lane.request, c.lane.Namespace(), l.status.response)
  {
    var r, route := l.status.response, c.targets[l.next - 1].route;
    assert Router.Feasible(terms, route) && route in g.routes && route.id == r.routeId;
    assert Router.MeetsPolicy(c.lane.request, route);
    forall id | c.lane.Namespace() == FORCED_PREFIX + id ensures r.routeId == id {
      NamespaceForces(c.lane.assignment, c.lane.forced, id);
    }
  }

  lemma OnlyLoopsWrite(g: Gateway, act: Activity)
    requires Legal(g, act) && !EntryOf(g, act).Candidates?
    ensures LoopOf(g, act).journal.writes == []
  {}

  /** This write is in the journal of a call the gateway made. */
  ghost predicate WrittenBy(g: Gateway, act: Activity, w: CacheWrite) {
    Legal(g, act) && w in LoopOf(g, act).journal.writes
  }

  /**
    Whatever a call writes to the cache is a fresh, accepted answer that fits its
    request; and only user calls that are neither canary nor bypassing write.
   */
  lemma WritesFit(g: Gateway, act: Activity, w: CacheWrite)
    requires WrittenBy(g, act, w)
    ensures Fits(g, w.request, w.namespace, w.response) && !w.response.cacheHit
    ensures act.call.kind.User? && !act.call.request.cacheMode.Bypass?
    ensures EntryOf(g, act).Candidates? && !EntryOf(g, act).context.lane.assignment.canary
    ensures LoopOf(g, act).status == Returned(w.response)
  {
    hide EntryOf;
    hide LoopOf;
    if !EntryOf(g, act).Candidates? { OnlyLoopsWrite(g, act); }
    LaneOfEntry(g, act);
    JournalWrites(g, act);
    var c, l := EntryOf(g, act).context, LoopOf(g, act);
    assert WroteResponse(c, l);
    AcceptedFits(g, c, TermsOf(act.call, act.arrival, c.lane.request), l);
  }

  /** Every write in the run comes from a call the gateway made. */
  ghost predicate Issued(g: Gateway, ops: seq<Cache.Op>) {
    forall i :: 0 <= i < |ops| && ops[i].Put? ==>
      exists act :: WrittenBy(g, act, CacheWrite(ops[i].request, ops[i].response, ops[i].namespace, ops[i].now))
  }

  /**
    Cache safety, in every run of calls, clears and clock readings: a hit returns a
    response whose route meets the reader's own capability, privacy, region and
    latency constraints, whose text meets the reader's schema, and whose route is
    the forced one in a forced lane.
   */
  lemma HitsFitTheReader(g: Gateway, config: Cache.Config, ops: seq<Cache.Op>, reader: Request, namespace: string, now: real)
    requires config.Valid() && Issued(g, ops)
    requires Cache.Hit(config, Cache.Run(config, ops), reader, namespace, now).Some?
    ensures var r := Cache.Hit(config, Cache.Run(config, ops), reader, namespace, now).value;
      Fits(g, reader, namespace, r) && r.cacheHit
  {
    var p, e := Cache.HitComesFromLivePut(config, ops, reader, namespace, now);
    var put := ops[p];
    var act :| WrittenBy(g, act, CacheWrite(put.request, put.response, put.namespace, put.now));
    WritesFit(g, act, CacheWrite(put.request, put.response, put.namespace, put.now));
    var r := Cache.Hit(config, Cache.Run(config, ops), reader, namespace, now).value;
    hide Cache.Hit;
    assert Fits(g, put.request, put.namespace, r);
    FitsWholeScope(g, put.request, reader, put.namespace, namespace, r);
  }

  /** The call was told what the cache of this run would answer. */
  ghost predicate ToldTheTruth(g: Gateway, act: Activity, config: Cache.Config, ops: seq<Cache.Op>, now: real) {
    forall lane :: IsLane(g, act, lane) && lane.Reads() ==>
      act.arrival.cached == Cache.Hit(config, Cache.Run(config, ops), lane.request, lane.Namespace(), now)
  }

  /** Every response that a call returns, fresh or cached, fits the request it answers. */
  lemma EveryAnswerFits(g: Gateway, act: Activity, config: Cache.Config, ops: seq<Cache.Op>, now: real, lane: Lane)
    requires Legal(g, act) && config.Valid() && Issued(g, ops) && ToldTheTruth(g, act, config, ops, now)
    requires IsLane(g, act, lane) && LoopOf(g, act).status.Returned?
    ensures Fits(g, lane.request, lane.Namespace(), LoopOf(g, act).status.response)
    ensures act.call.forced.Some? ==> LoopOf(g, act).status.response.routeId == act.call.forced.value
    ensures LoopOf(g, act).status.response.requestId == act.call.request.requestId
  {
    hide LoopOf;
    hide EntryOf;
    hide Fits;
    LaneOfEntry(g, act);
    if EntryOf(g, act).CacheHit? {
      HitReturnsRewritten(g, act);
      var cached := act.arrival.cached.value;
      HitsFitTheReader(g, config, ops, lane.request, lane.Namespace(), now);
      SameTextAndRouteFit(g, lane.request, lane.Namespace(), cached, LoopOf(g, act).status.response);
    } else {
      if EntryOf(g, act).Rejected? { RejectedRaises(g, act); }
      JournalWrites(g, act);
      var c := EntryOf(g, act).context;
      AcceptedFits(g, c, TermsOf(act.call, act.arrival, c.lane.request), LoopOf(g, act));
    }
    if act.call.forced.Some? {
      NamespaceForces(lane.assignment, lane.forced, act.call.forced.value);
      FitsForcedRoute(g, lane.request, lane.Namespace(), LoopOf(g, act).status.response, act.call.forced.value);
    }
  }

  lemma FitsForcedRoute(g: Gateway, request: Request, namespace: string, r: Response, id: RouteId)
    requires Fits(g, request, namespace, r) && namespace == FORCED_PREFIX + id
    ensures r.routeId == id
  {}

  lemma SameTextAndRouteFit(g: Gateway, request: Request, namespace: string, r: Response, same: Response)
    requires Fits(g, request, namespace, r) && same.text == r.text && same.routeId == r.routeId
    ensures Fits(g, request, namespace, same)
  {}

  lemma RejectedRaises(g: Gateway, act: Activity)
    requires Legal(g, act) && EntryOf(g, act).Rejected?
    ensures LoopOf(g, act).status.Raised?
  {}

  lemma HitReturnsRewritten(g: Gateway, act: Activity)
    requires Legal(g, act) && EntryOf(g, act).CacheHit?
    ensures act.arrival.cached.Some? && LoopOf(g, act).status.Returned?
    ensures var r, cached := LoopOf(g, act).status.response, act.arrival.cached.value;
      r.text == cached.text && r.routeId == cached.routeId && r.requestId == act.call.request.requestId
  {}

  // -------------------------------------------------------------------------
  // The ledger and the background

  /** Only a plain user call can be a canary, and a canary has no shadow. */
  lemma CanariesArePlainUserCalls(g: Gateway, act: Activity, lane: Lane)
    requires Legal(g, act) && IsLane(g, act, lane)
    ensures lane.assignment.canary ==>
              lane.kind.User? && lane.forced.None? && lane.assignment.shadowRouteId.None? && lane.assignment.releaseId.Some?
    ensures !lane.kind.User? ==> lane.assignment.shadowRouteId.None?
  {}

  lemma HitJournal(g: Gateway, act: Activity)
    requires Legal(g, act) && !EntryOf(g, act).Candidates?
    ensures var l := LoopOf(g, act);
      match EntryOf(g, act)
      case Rejected(_) => l.journal.rows == [] && l.journal.tasks == []
      case CacheHit(lane, r) =>
        && RowsOf(lane, l.journal.rows, true)
        && (forall i :: 0 <= i < |l.journal.rows| ==> l.journal.rows[i].success && l.journal.rows[i].usage == Usage(0, 0, 0.0))
        && l.journal.tasks == PostResponse(lane)
        && l.status.Returned?
  {}

  /** The lane of a call, and what its journal says of it. */
  ghost predicate MarksLane(act: Activity, lane: Lane, l: Loop) {
    && (lane.assignment.canary ==>
          lane.kind.User? && lane.forced.None? && lane.assignment.shadowRouteId.None? && lane.assignment.releaseId.Some?)
    && (!lane.kind.User? ==> lane.assignment.shadowRouteId.None?)
    && lane.kind == act.call.kind && lane.forced == act.call.forced
    && lane.request.requestId == act.call.request.requestId && lane.request.tenantId == act.call.request.tenantId
    && (forall i :: 0 <= i < |l.journal.rows| ==> l.journal.rows[i].success == l.status.Returned?)
    && (RowsOf(lane, l.journal.rows, false) || (RowsOf(lane, l.journal.rows, true) && !lane.assignment.canary && lane.kind.User?
          && forall i :: 0 <= i < |l.journal.rows| ==> l.journal.rows[i].success && l.journal.rows[i].usage == Usage(0, 0, 0.0)))
    && (l.journal.tasks == [] || l.journal.tasks == Assessment(lane.assignment)
        || (l.journal.tasks == PostResponse(lane) && l.status.Returned?))
  }

  lemma JournalMarksLane(g: Gateway, act: Activity) returns (lane: Lane)
    requires Legal(g, act) && !EntryOf(g, act).Rejected?
    ensures MarksLane(act, lane, LoopOf(g, act))
  {
    hide LoopOf;
    hide EntryOf;
    LaneOfEntry(g, act);
    if EntryOf(g, act).CacheHit? {
      lane := EntryOf(g, act).lane;
      HitJournal(g, act);
    } else {
      lane := EntryOf(g, act).context.lane;
      JournalWrites(g, act);
    }
    CanariesArePlainUserCalls(g, act, lane);
    hide AssignmentOf;
    hide PostResponse;
    hide RowsOf;
  }

  /**
    What the evidence of a call says of it: it names its request and tenant and
    whether it succeeded; a canary row is never a cache hit and never a shadow row,
    shadow rows are exactly those of shadow calls, and a cache hit costs nothing.
   */
  lemma RowsTellLanesApart(g: Gateway, act: Activity, row: Metric)
    requires Legal(g, act) && row in LoopOf(g, act).journal.rows
    ensures row.canary ==> !row.cacheHit && !row.shadow && act.call.kind.User? && act.call.forced.None?
    ensures row.shadow <==> act.call.kind.Shadow?
    ensures row.success <==> LoopOf(g, act).status.Returned?
    ensures row.requestId == act.call.request.requestId && row.tenantId == act.call.request.tenantId
    ensures row.cacheHit ==> row.success && row.usage == Usage(0, 0, 0.0)
  {
    hide LoopOf;
    hide EntryOf;
    if EntryOf(g, act).Rejected? {
      HitJournal(g, act);
    } else {
      var lane := JournalMarksLane(g, act);
    }
  }

  /** Every user request spawns at most one background task, and other calls none. */
  lemma AtMostOneBackgroundTask(g: Gateway, act: Activity)
    requires Legal(g, act)
    ensures var tasks := LoopOf(g, act).journal.tasks;
      && |tasks| <= 1
      && (!act.call.kind.User? ==> tasks == [])
      && (tasks != [] && tasks[0].ShadowTask? ==>
            tasks[0].call.kind.Shadow? && tasks[0].call.Made() && !tasks[0].call.request.shadowEnabled
            && tasks[0].call.request.cacheMode.Bypass? && LoopOf(g, act).status.Returned?)
  {
    hide LoopOf;
    hide EntryOf;
    if EntryOf(g, act).Rejected? {
      HitJournal(g, act);
    } else {
      var lane := JournalMarksLane(g, act);
    }
  }

  /** Every row of the ledger comes from a call the gateway made. */
  ghost predicate Recorded(g: Gateway, ledger: seq<Metric>) {
    forall i :: 0 <= i < |ledger| ==> exists act :: Legal(g, act) && ledger[i] in LoopOf(g, act).journal.rows
  }

  /** A release is judged by real canary outcomes only: the newest rows of its own canary calls. */
  lemma ReleasesAreJudgedByRealCanaries(g: Gateway, ledger: seq<Metric>, id: ReleaseId, limit: nat)
    requires Recorded(g, ledger)
    ensures forall row :: row in Release.Newest(ledger, Release.CanaryQuery(id), limit) ==>
              row.releaseId == Some(id) && row.canary && !row.cacheHit && !row.shadow
  {
    hide LoopOf;
    var query := Release.CanaryQuery(id);
    Release.NewestDependsOnItsRows(ledger, query, limit);
    forall row | row in Release.Newest(ledger, query, limit)
      ensures row.releaseId == Some(id) && row.canary && !row.cacheHit && !row.shadow
    {
      assert row in Release.Rows(ledger, query);
      Release.RowsMatch(ledger, query, row);
      var i :| 0 <= i < |ledger| && ledger[i] == row;
      var act :| Legal(g, act) && ledger[i] in LoopOf(g, act).journal.rows;
      RowsTellLanesApart(g, act, row);
    }
  }

  /**
    The request of a shadow call is already resolved but still names its prompt, so
    the prompt is rendered a second time: the shadow model is asked the same as the
    user's model exactly when the request has no prompt.
   */
  lemma ShadowAsksTheSameIff(lane: Lane, call: Call, rendered: Option<string>, again: Option<string>, route: RouteId)
    requires Resolve(call.request, rendered) == Some(lane.request)
    ensures var shadow := ShadowCall(lane.request, route, lane.assignment.releaseId);
      Resolve(shadow.request, again).Some? ==>
        (Resolve(shadow.request, again).value.messages == lane.request.messages <==> call.request.prompt.None?)
  {
    var shadow := ShadowCall(lane.request, route, lane.assignment.releaseId);
    if call.request.prompt.Some? && again.Some? {
      assert |Resolve(shadow.request, again).value.messages| == |lane.request.messages| + 1;
    }
  }

  // -------------------------------------------------------------------------
  // What a hit promises only to requests that are not longer

  /** The answer meets the whole contract of the request, context window and cost included. */
  ghost predicate FitsWhole(g: Gateway, request: Request, r: Response) {
    exists route :: route in g.routes && route.id == r.routeId
      && Router.MeetsPolicy(request, route) && Router.MeetsBudget(request, route)
  }

  /** Whatever a call writes to the cache meets the whole contract of its own request. */
  lemma WritesFitWhole(g: Gateway, act: Activity, w: CacheWrite)
    requires WrittenBy(g, act, w)
    ensures FitsWhole(g, w.request, w.response)
  {
    hide EntryOf;
    hide LoopOf;
    if !EntryOf(g, act).Candidates? { OnlyLoopsWrite(g, act); }
    JournalWrites(g, act);
    var c, l := EntryOf(g, act).context, LoopOf(g, act);
    assert WroteResponse(c, l);
    var route := c.targets[l.next - 1].route;
    assert Router.Feasible(TermsOf(act.call, act.arrival, c.lane.request), route);
    assert route in g.routes && route.id == w.response.routeId;
  }

  /** Requests of one scope have the same policy and limits; so what fits one fits a shorter one. */
  lemma WholeFitCarriesOver(g: Gateway, writer: Request, reader: Request, written: string, read: string, r: Response)
    requires forall i :: 0 <= i < |g.routes| ==> g.routes[i].Valid()
    requires FitsWhole(g, writer, r) && Cache.ScopeOf(writer, written) == Cache.ScopeOf(reader, read)
    requires Router.InputTokens(reader.messages) <= Router.InputTokens(writer.messages)
    ensures FitsWhole(g, reader, r)
  {
    var route :| route in g.routes && route.id == r.routeId
      && Router.MeetsPolicy(writer, route) && Router.MeetsBudget(writer, route);
    Router.CostGrowsWithTokens(route, Router.InputTokens(reader.messages), reader.maxOutputTokens,
                               Router.InputTokens(writer.messages), writer.maxOutputTokens);
    assert Router.MeetsPolicy(reader, route) && Router.MeetsBudget(reader, route);
  }

  /**
    In every run, a hit that comes from a request at least as long meets the whole
    contract of its reader, context window and cost included.
   */
  lemma HitsFromLongerRequestsFitWhole(
    g: Gateway, config: Cache.Config, ops: seq<Cache.Op>, reader: Request, namespace: string, now: real) returns (p: int)
    requires config.Valid() && Issued(g, ops) && forall i :: 0 <= i < |g.routes| ==> g.routes[i].Valid()
    requires Cache.Hit(config, Cache.Run(config, ops), reader, namespace, now).Some?
    ensures 0 <= p < |ops| && ops[p].Put?
    ensures Cache.Hit(config, Cache.Run(config, ops), reader, namespace, now) == Some(ops[p].response.(cacheHit := true))
    ensures Router.InputTokens(reader.messages) <= Router.InputTokens(ops[p].request.messages) ==>
              FitsWhole(g, reader, Cache.Hit(config, Cache.Run(config, ops), reader, namespace, now).value)
  {
    var e;
    p, e := Cache.HitComesFromLivePut(config, ops, reader, namespace, now);
    hide Cache.Hit;
    hide Cache.Run;
    var put := ops[p];
    var w := CacheWrite(put.request, put.response, put.namespace, put.now);
    var act :| WrittenBy(g, act, w);
    WritesFitWhole(g, act, w);
    var r := put.response.(cacheHit := true);
    assert FitsWhole(g, put.request, r);
    if Router.InputTokens(reader.messages) <= Router.InputTokens(put.request.messages) {
      WholeFitCarriesOver(g, put.request, reader, put.namespace, namespace, r);
    }
  }

  /** For every reader that is longer than a writer of the same key, some route meets the writer's contract only. */
  lemma AnswersOfTheTightRouteAreHits(
    config: Cache.Config, writer: Request, reader: Request, namespace: string, response: Response, now: real)
    requires config.Valid() && writer.Valid() && reader.Valid()
    requires Cache.FingerprintOf(writer, namespace) == Cache.FingerprintOf(reader, namespace)
    requires Router.InputTokens(reader.messages) > Router.InputTokens(writer.messages)
    ensures var route := Router.TightRoute(writer);
      && route.Valid() && Router.MeetsPolicy(writer, route) && Router.MeetsBudget(writer, route)
      && Router.MeetsPolicy(reader, route) && !Router.MeetsBudget(reader, route)
    ensures Cache.Hit(config, Cache.Run(config, [Cache.Put(writer, response, namespace, now)]), reader, namespace, now)
            == Some(response.(cacheHit := true))
  {
    Router.TightRouteIsTight(writer, reader);
    assert Cache.ScopeOf(writer, namespace) == Cache.ScopeOf(reader, namespace);
    SameKeyHits(config, writer, reader, namespace, response, now);
  }

  /** What has just been put answers every request of its key. */
  lemma SameKeyHits(config: Cache.Config, writer: Request, reader: Request, namespace: string, response: Response, now: real)
    requires config.Valid() && Cache.FingerprintOf(writer, namespace) == Cache.FingerprintOf(reader, namespace)
    ensures Cache.Hit(config, Cache.Run(config, [Cache.Put(writer, response, namespace, now)]), reader, namespace, now)
            == Some(response.(cacheHit := true))
  {
    assert Cache.ScopeOf(writer, namespace) == Cache.ScopeOf(reader, namespace);
    var put := Cache.Put(writer, response, namespace, now);
    var e := Cache.EntryFor(config, writer, response, namespace, now);
    assert [put][..0] == [] && Cache.Run(config, []) == [];
    assert Cache.Run(config, [put]) == Cache.Apply(config, [], put);
    Cache.PutDropsOnlyTheLeastRecent(config, [], writer, response, namespace, now);
    assert Cache.Run(config, [put]) == [e];
    Cache.HitIsExactElseMostSimilar(config, [e], reader, namespace, now);
    assert Cache.IsExact([e], reader, namespace, now, e);
  }

  /** A gateway with one route, which just meets the budget of this request. */
  function TightGateway(writer: Request): Gateway {
    Gateway([Router.TightRoute(writer)], Router.Weights(1.0, 1.0, 1.0),
            Contract(text => Some(Object(text)), (value, schema) => Conforms), name => 0)
  }

  /** A user's call in which the one route answers at once. */
  function TightCall(writer: Request): Activity {
    Generated(Call(writer, None, User), Arrival(0.0, None, true, None, None, 0.0, {"tight"}),
              [Seen(0.0, true, Completed("", 0, 0, 0.0, "m"), Readings(0.0, 0.0, 0.0, 0.0, 0.0, 0.0))], 0.0)
  }

  lemma TightCallIsRouted(writer: Request) returns (c: Context)
    requires writer.Valid() && writer.prompt.None?
    ensures Legal(TightGateway(writer), TightCall(writer))
    ensures EntryOf(TightGateway(writer), TightCall(writer)) == Candidates(c)
    ensures c.lane == Lane(writer, None, User, Release.NO_ASSIGNMENT) && c.started == 0.0
    ensures c.contract == TightGateway(writer).contract
    ensures c.targets != [] && c.targets[0].route == Router.TightRoute(writer)
  {
    hide Router.Ranked;
    hide Router.Feasible;
    hide Router.OrderedCandidates;
    var g, act := TightGateway(writer), TightCall(writer);
    var route, terms := Router.TightRoute(writer), Router.Terms(writer, None, {}, {"tight"});
    assert route in g.routes;
    assert Router.Feasible(terms, route) by { TightRouteIsFeasible(writer); }
    Router.RankedMembers(g.weights, terms, g.routes);
    assert Router.Offers(Router.Ranked(g.weights, terms, g.routes), route.id);
    EnterIsReady(g, act.call, act.arrival);
    c := EntryOf(g, act).context;
    assert c.targets[0].route in g.routes;
  }

  lemma TightRouteIsFeasible(writer: Request)
    requires writer.Valid()
    ensures Router.Feasible(Router.Terms(writer, None, {}, {"tight"}), Router.TightRoute(writer))
  {
    Router.TightRouteIsTight(writer, writer);
  }

  /** The answer of the tight route to its writer is written to the cache. */
  lemma TightCallWrites(writer: Request) returns (w: CacheWrite)
    requires writer.Valid() && writer.prompt.None? && !writer.cacheMode.Bypass?
    ensures WrittenBy(TightGateway(writer), TightCall(writer), w)
    ensures w.request == writer && w.namespace == "default" && w.response.routeId == "tight"
  {
    var g, act := TightGateway(writer), TightCall(writer);
    var c := TightCallIsRouted(writer);
    hide EntryOf;
    hide TightGateway;
    var l := GenerateLoop(c, act.seen);
    assert act.seen[..0] == [] && GenerateLoop(c, act.seen[..0]) == INIT;
    assert Remaining(c, 0.0) > 0.0;
    assert l == GenerateStep(c, INIT, act.seen[0]);
    w := l.journal.writes[0];
    LoopOfCandidates(g, act);
  }

  /** A cache that has just been filled with this answer gives it to the reader, and it meets the reader's whole contract. */
  ghost predicate HitFits(g: Gateway, config: Cache.Config, w: CacheWrite, reader: Request) {
    var hit := Cache.Hit(config, Cache.Run(config, [PutOf(w)]), reader, w.namespace, w.at);
    hit.Some? && FitsWhole(g, reader, hit.value)
  }

  function PutOf(w: CacheWrite): Cache.Op { Cache.Put(w.request, w.response, w.namespace, w.at) }

  ghost predicate ValidRoutes(g: Gateway) { forall i :: 0 <= i < |g.routes| ==> g.routes[i].Valid() }

  /** Whatever any gateway answers to the writer meets the whole contract of the reader that gets it from the cache. */
  ghost predicate AnswersFit(config: Cache.Config, writer: Request, reader: Request) {
    forall g, act, w :: ValidRoutes(g) && WrittenBy(g, act, w) && w.request == writer && w.namespace == "default" ==>
      HitFits(g, config, w, reader)
  }

  /**
    A longer reader of the same key can be misled: there is a gateway, and a call in
    which it answers the writer and fills its cache, such that the reader gets that
    answer from a route that does not meet the reader's budget.
   */
  lemma LongerReadersMayMissTheirBudget(config: Cache.Config, writer: Request, reader: Request)
    returns (g: Gateway, act: Activity, w: CacheWrite)
    requires config.Valid() && writer.Valid() && reader.Valid()
    requires writer.prompt.None? && !writer.cacheMode.Bypass?
    requires Cache.FingerprintOf(writer, "default") == Cache.FingerprintOf(reader, "default")
    requires Router.InputTokens(reader.messages) > Router.InputTokens(writer.messages)
    ensures g.routes == [Router.TightRoute(writer)] && ValidRoutes(g)
    ensures WrittenBy(g, act, w) && w.request == writer && w.namespace == "default" && Issued(g, [PutOf(w)])
    ensures var hit := Cache.Hit(config, Cache.Run(config, [PutOf(w)]), reader, w.namespace, w.at);
      hit == Some(w.response.(cacheHit := true)) && FitsWhole(g, writer, hit.value) && !FitsWhole(g, reader, hit.value)
  {
    g, act := TightGateway(writer), TightCall(writer);
    w := TightCallWrites(writer);
    AnswersOfTheTightRouteAreHits(config, writer, reader, "default", w.response, w.at);
    WritesFitWhole(g, act, w);
    hide TightCall;
    hide WrittenBy;
    hide Cache.Hit;
    hide Router.MeetsBudget;
    hide Router.MeetsPolicy;
    assert WrittenBy(g, act, w) && PutOf(w).Put?;
  }

  /**
    When hits meet the whole contract of their readers, budget included. For a writer
    without a prompt that may fill the cache and a reader of the same key: whatever
    any gateway answers to the writer fits the reader exactly when the reader is not
    estimated longer.
   */
  lemma HitsFitWholeIff(config: Cache.Config, writer: Request, reader: Request)
    requires config.Valid() && writer.Valid() && reader.Valid()
    requires writer.prompt.None? && !writer.cacheMode.Bypass?
    requires Cache.FingerprintOf(writer, "default") == Cache.FingerprintOf(reader, "default")
    ensures AnswersFit(config, writer, reader) <==>
            Router.InputTokens(reader.messages) <= Router.InputTokens(writer.messages)
  {
    hide Cache.Hit;
    hide Cache.Run;
    hide WrittenBy;
    hide FitsWhole;
    if Router.InputTokens(reader.messages) <= Router.InputTokens(writer.messages) {
      forall g, act, w | ValidRoutes(g) && WrittenBy(g, act, w) && w.request == writer && w.namespace == "default"
        ensures HitFits(g, config, w, reader)
      {
        SameKeyHits(config, writer, reader, "default", w.response, w.at);
        WritesFitWhole(g, act, w);
        SameRouteFitsWhole(g, writer, w.response, w.response.(cacheHit := true));
        WholeFitCarriesOver(g, writer, reader, "default", "default", w.response.(cacheHit := true));
      }
    } else {
      var g, act, w := LongerReadersMayMissTheirBudget(config, writer, reader);
      assert !HitFits(g, config, w, reader);
    }
  }

  lemma SameRouteFitsWhole(g: Gateway, request: Request, r: Response, same: Response)
    requires FitsWhole(g, request, r) && same.routeId == r.routeId
    ensures FitsWhole(g, request, same)
  {}

  /** There are such requests: the same text, read as one message or as two. */
  lemma ContextFitDoesNotCarryOver(config: Cache.Config, writer: Request, response: Response, namespace: string, now: real)
    requires config.Valid() && writer.Valid() && writer.messages == [Message("user", "a\nuser:b", None)]
    ensures var reader := writer.(messages := [Message("user", "a", None), Message("user", "b", None)]);
      && Cache.FingerprintOf(writer, namespace) == Cache.FingerprintOf(reader, namespace)
      && !Router.MeetsBudget(reader, Router.TightRoute(writer))
      && Cache.Hit(config, Cache.Run(config, [Cache.Put(writer, response, namespace, now)]), reader, namespace, now).Some?
      && (writer.prompt.None? && !writer.cacheMode.Bypass? ==> !AnswersFit(config, writer, reader))
  {
    Transcripts.TranscriptIsNotInjective();
    var a, b := Message("user", "a", None), Message("user", "b", None);
    var reader := writer.(messages := [a, b]);
    assert reader.messages[..1] == [a] && [a][..0] == [] && writer.messages[..0] == [];
    assert Router.InputTokens([a]) == 5;
    AnswersOfTheTightRouteAreHits(config, writer, reader, namespace, response, now);
    hide Router.InputTokens;
    hide Router.MeetsBudget;
    hide AnswersFit;
    hide Cache.Hit;
    if writer.prompt.None? && !writer.cacheMode.Bypass? { HitsFitWholeIff(config, writer, reader); }
  }
}
