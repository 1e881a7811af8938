/**
  What a call is told. The clock and the providers are the world that the call runs
  in. The limiter, the releases, the cache and the circuits answer from the state
  that the log of all calls has led to by then.
 */
module Sightings {
  import opened Domain
  import opened Engine
  import opened SharedLog
  import Cache
  import CircuitBreaker
  import RateLimit
  import Release
  import Router

  /** What a provider's stream delivers before it ends, and how it ends. */
  datatype StreamReply = StreamReply(events: seq<ProviderEvent>, ending: Ending)

  /**
    The world of one call. The clock is read anew wherever the code reads it: when the
    call starts, by the limiter, by the cache, for the age of a hit, by each circuit
    that the router asks, and then in each round of the loop, once for the deadline
    and again for everything that follows. Besides there are the providers, and what
    other calls do at each point where this one waits. Candidate i has the points
    i + 1; point 0 is before the loop.
   */
  datatype World = World(
    started: real,
    tokenClock: real,
    cacheClock: real,
    hitClock: real,
    routeClock: RouteId -> real,
    checkClock: nat -> real,
    at: nat -> Readings,
    firstDelta: nat -> real,
    closeClock: real,
    others: (nat, nat) -> Log,
    rendered: Option<string>,
    reply: (nat, int) -> Reply,
    streamReply: (nat, int) -> StreamReply)

  /** The settings of the collaborators. */
  datatype Setup = Setup(circuits: CircuitBreaker.Settings, cache: Cache.Config, limits: RateLimit.Limits)

  // -------------------------------------------------------------------------
  // Answers of the shared state

  /** At this point of the log the call takes a token of its tenant, and this is the answer. */
  ghost predicate TokenAt(p: Setup, log: Log, at: nat, me: nat, tenant: string, now: real, admitted: bool) {
    var request := RateLimit.Call(tenant, 1.0, now);
    && at < |log|
    && log[at] == Logged(me, OnLimiter(request))
    && (admitted <==> RateLimit.Answer(p.limits, RateLimit.After(p.limits, LimiterCalls(log[..at])), request).Granted?)
  }

  /** At this point the call asks which release is live. */
  ghost predicate LiveAt(log: Log, at: nat, me: nat, live: Option<Release.Release>) {
    && at < |log|
    && log[at] == Logged(me, AskedLive("default"))
    && Release.MayBeLive(Release.Run(Commands(log[..at])), "default", live)
  }

  /** At this point the call looks into the cache. */
  ghost predicate CacheAt(p: Setup, log: Log, at: nat, me: nat, request: Request, namespace: string, now: real, hit: Option<Response>) {
    && at < |log|
    && log[at] == Logged(me, OnCache(Cache.Get(request, namespace, now)))
    && hit == Cache.Hit(p.cache, Cache.Run(p.cache, CacheOps(log[..at])), request, namespace, now)
  }

  /** From this point on the call asks for the availability of these routes, one after the other. */
  ghost predicate CircuitsAt(p: Setup, log: Log, at: nat, me: nat, routes: seq<Route>, clock: RouteId -> real, available: set<RouteId>) {
    && at <= |log|
    && log[..at] + Queries(me, RouteIds(routes), clock) <= log
    && available == Router.AvailableIn(p.circuits, CircuitBreaker.ReplayAll(p.circuits, CircuitCalls(log[..at])), routes, clock)
  }

  lemma TokenIsSeen(p: Setup, log: Log, me: nat, tenant: string, now: real)
    ensures var request := RateLimit.Call(tenant, 1.0, now);
      TokenAt(p, log + [Logged(me, OnLimiter(request))], |log|, me, tenant, now,
              RateLimit.Answer(p.limits, RateLimit.After(p.limits, LimiterCalls(log)), request).Granted?)
  {
    assert (log + [Logged(me, OnLimiter(RateLimit.Call(tenant, 1.0, now)))])[..|log|] == log;
  }

  // -------------------------------------------------------------------------
  // The log only grows, so what a call saw stays true

  lemma TokenStays(p: Setup, log: Log, more: Log, at: nat, me: nat, tenant: string, now: real, admitted: bool)
    requires Extends(log, more) && TokenAt(p, log, at, me, tenant, now, admitted)
    ensures TokenAt(p, more, at, me, tenant, now, admitted)
  {
    assert more[..at] == log[..at];
  }

  lemma LiveStays(log: Log, more: Log, at: nat, me: nat, live: Option<Release.Release>)
    requires Extends(log, more) && LiveAt(log, at, me, live)
    ensures LiveAt(more, at, me, live)
  {
    assert more[..at] == log[..at];
  }

  lemma CacheStays(p: Setup, log: Log, more: Log, at: nat, me: nat, request: Request, namespace: string, now: real, hit: Option<Response>)
    requires Extends(log, more) && CacheAt(p, log, at, me, request, namespace, now, hit)
    ensures CacheAt(p, more, at, me, request, namespace, now, hit)
  {
    assert more[..at] == log[..at];
  }

  // -------------------------------------------------------------------------
  // Before the loop

  /** The lane of a call that has been told this. */
  function LaneFrom(g: Gateway, call: Call, a: Arrival, request: Request): Lane {
    Lane(request, call.forced, call.kind, AssignmentOf(g.hash, call, a.live, request))
  }

  predicate AsksLive(call: Call) { call.kind.User? && call.forced.None? }

  /** Where in the log a call takes its token, asks for the live release, looks into the cache, and asks the circuits. */
  datatype Moments = Moments(token: nat, live: nat, cached: nat, routed: nat)

  /**
    Whatever a call is told before its loop is what the world and the shared state say:
    the limiter first, then the releases, then the cache, then the circuits.
   */
  ghost predicate Told(g: Gateway, p: Setup, w: World, mark: Log, log: Log, me: nat, call: Call, a: Arrival, m: Moments) {
    && a.started == w.started && a.rendered == w.rendered
    && |mark| <= m.token <= m.live <= m.cached <= m.routed <= |log|
    && var resolved := Resolve(call.request, a.rendered);
       resolved.Some? ==>
         && (call.kind.User? ==> TokenAt(p, log, m.token, me, resolved.value.tenantId, w.tokenClock, a.admitted))
         && ((call.kind.User? ==> a.admitted) ==> ToldInLane(g, p, w, log, me, call, a, resolved.value, m))
  }

  ghost predicate ToldInLane(g: Gateway, p: Setup, w: World, log: Log, me: nat, call: Call, a: Arrival, request: Request, m: Moments) {
    var lane := LaneFrom(g, call, a, request);
    && (AsksLive(call) ==> LiveAt(log, m.live, me, a.live))
    && (lane.Reads() ==> CacheAt(p, log, m.cached, me, lane.request, lane.Namespace(), w.cacheClock, a.cached))
    && (if lane.Reads() && a.cached.Some? then a.hitAt == w.hitClock
        else CircuitsAt(p, log, m.routed, me, g.routes, w.routeClock, a.available))
  }

  lemma ToldInLaneAt(g: Gateway, p: Setup, w: World, log: Log, me: nat, call: Call, a: Arrival, request: Request, m: Moments, token: nat)
    requires ToldInLane(g, p, w, log, me, call, a, request, m)
    ensures ToldInLane(g, p, w, log, me, call, a, request, m.(token := token))
  {}

  /** All that a call does before its loop: it asks these things, in this order, each once. */
  function Inquiries(g: Gateway, w: World, call: Call, a: Arrival): seq<Mark> {
    var resolved := Resolve(call.request, a.rendered);
    if resolved.None? then []
    else
      (if call.kind.User? then [Inquiry(OnLimiter(RateLimit.Call(resolved.value.tenantId, 1.0, w.tokenClock)))] else [])
      + (if call.kind.User? ==> a.admitted then LaneInquiries(g, w, call, a, resolved.value) else [])
  }

  function LaneInquiries(g: Gateway, w: World, call: Call, a: Arrival, request: Request): seq<Mark> {
    var lane := LaneFrom(g, call, a, request);
    (if AsksLive(call) then [Inquiry(AskedLive("default"))] else [])
    + (if lane.Reads() then [Inquiry(OnCache(Cache.Get(lane.request, lane.Namespace(), w.cacheClock)))] else [])
    + (if lane.Reads() && a.cached.Some? then [] else QueryMarks(RouteIds(g.routes), w.routeClock))
  }

  /**
    Between `mark` and `log` the call has asked exactly what the code asks, in that
    order, and it has been told what the shared state said at each of these points.
   */
  ghost predicate Informed(g: Gateway, p: Setup, w: World, mark: Log, log: Log, me: nat, call: Call, a: Arrival) {
    && Did(p.circuits, mark, log, me, Inquiries(g, w, call, a))
    && exists m :: Told(g, p, w, mark, log, me, call, a, m)
  }

  // -------------------------------------------------------------------------
  // In the loop

  /** The i-th round of `generate` sees these readings of the clock and the provider's reply to the budget it is told. */
  ghost predicate Heard(c: Context, w: World, i: nat, s: Seen) {
    && s.now == w.checkClock(i) && s.at == w.at(i)
    && (s.admitted && Remaining(c, s.now) > 0.0 ==> s.reply == w.reply(i, AttemptBudgetMs(Remaining(c, s.now))))
  }

  ghost predicate HeardAll(c: Context, w: World, seen: seq<Seen>) {
    forall i :: 0 <= i < |seen| ==> Heard(c, w, i, seen[i])
  }

  ghost predicate StreamHeard(c: Context, w: World, i: nat, s: StreamSeen) {
    && s.now == w.checkClock(i) && s.at == w.at(i)
    && (s.admitted && Remaining(c, s.now) > 0.0 ==>
          && StreamReply(s.events, s.ending) == w.streamReply(i, AttemptBudgetMs(Remaining(c, s.now)))
          && s.firstDeltaAt == w.firstDelta(i))
  }

  ghost predicate StreamHeardAll(c: Context, w: World, seen: seq<StreamSeen>) {
    forall i :: 0 <= i < |seen| ==> StreamHeard(c, w, i, seen[i])
  }

  lemma HearsMore(c: Context, w: World, seen: seq<Seen>, s: Seen)
    requires HeardAll(c, w, seen) && Heard(c, w, |seen|, s)
    ensures HeardAll(c, w, seen + [s])
  {}

  lemma StreamHearsMore(c: Context, w: World, seen: seq<StreamSeen>, s: StreamSeen)
    requires StreamHeardAll(c, w, seen) && StreamHeard(c, w, |seen|, s)
    ensures StreamHeardAll(c, w, seen + [s])
  {}
}
