/**
  The gateway service: `generate` and `stream` over the shared collaborators.

  Other calls run whenever a call waits. What they do then is part of the world a
  call runs in: any sequence of atomic effects that calls of the gateway may have.
  So the methods below are verified for every interleaving, and each shows that its
  own effects are those of its journal and again ones that the gateway may have.
 */
module Service {
  import opened Answers
  import opened Domain
  import opened Engine
  import opened EngineProofs
  import opened Runs
  import opened SharedLog
  import opened Sightings
  import Cache
  import CircuitBreaker
  import RateLimit
  import Release
  import Router

  /** A call answers, fails with an error of the gateway, or dies of an exception that it does not handle. */
  datatype Outcome = Answer(response: Response) | Failure(error: Error) | Crash

  /** An effect that some call of the gateway has. */
  ghost predicate Genuine(g: Gateway, effect: Effect) {
    && (effect.OnCache? && effect.op.Put? ==>
          exists act :: WrittenBy(g, act, CacheWrite(effect.op.request, effect.op.response, effect.op.namespace, effect.op.now)))
    && (effect.OnLedger? ==> exists act :: Legal(g, act) && effect.row in LoopOf(g, act).journal.rows)
  }

  ghost predicate GenuineLog(g: Gateway, log: Log) {
    forall i :: 0 <= i < |log| ==> Genuine(g, log[i].effect)
  }

  lemma GenuineByKind(g: Gateway, effect: Effect)
    requires !effect.OnLedger? && !(effect.OnCache? && effect.op.Put?)
    ensures Genuine(g, effect)
  {}

  /** The cache operations of a genuine log are issued by calls of the gateway. */
  lemma {:induction false} GenuineLogIsIssued(g: Gateway, log: Log)
    requires GenuineLog(g, log)
    ensures Issued(g, CacheOps(log))
  {
    hide WrittenBy;
    if log != [] {
      GenuineLogIsIssued(g, log[..|log| - 1]);
      assert Genuine(g, log[|log| - 1].effect);
    }
  }

  /** Effects of calls other than `me`. */
  ghost predicate Foreign(g: Gateway, effects: Log, me: nat) {
    GenuineLog(g, effects) && forall i :: 0 <= i < |effects| ==> effects[i].owner != me
  }

  ghost predicate Fair(g: Gateway, w: World, me: nat) {
    forall i: nat, point: nat :: Foreign(g, w.others(i, point), me)
  }

  /** The values of the shared state. */
  datatype Shared = Shared(
    circuits: CircuitBreaker.Circuits,
    entries: seq<Cache.Entry>,
    rows: seq<Metric>,
    buckets: RateLimit.Buckets,
    releases: Release.Releases)

  /** The shared state is the replay of the log, and the log has only genuine effects. */
  ghost predicate InSync(g: Gateway, p: Setup, state: Shared, log: Log) {
    && p.cache.Valid()
    && state.circuits == CircuitBreaker.ReplayAll(p.circuits, CircuitCalls(log))
    && state.entries == Cache.Run(p.cache, CacheOps(log))
    && state.rows == LedgerRows(log)
    && state.buckets == RateLimit.After(p.limits, LimiterCalls(log))
    && state.releases == Release.Run(Commands(log))
    && GenuineLog(g, log)
  }

  /** The shared state after one effect. */
  ghost function After(p: Setup, state: Shared, effect: Effect): Shared {
    match effect
    case OnCircuits(call) => state.(circuits := CircuitBreaker.ApplyCall(p.circuits, state.circuits, call))
    case OnCache(op) => state.(entries := Cache.Apply(p.cache, state.entries, op))
    case OnLedger(row) => state.(rows := state.rows + [row])
    case OnLimiter(request) => state.(buckets := RateLimit.Apply(p.limits, state.buckets, request))
    case OnReleases(command) => state.(releases := Release.Do(state.releases, command))
    case AskedLive(_) => state
  }

  lemma StaysInSync(g: Gateway, p: Setup, state: Shared, log: Log, x: Logged)
    requires InSync(g, p, state, log) && Genuine(g, x.effect)
    ensures InSync(g, p, After(p, state, x.effect), log + [x])
  {
    hide CircuitBreaker.ApplyCall;
    hide Cache.Apply;
    hide RateLimit.Apply;
    hide Release.Do;
    hide CircuitCalls;
    hide CacheOps;
    hide LedgerRows;
    hide LimiterCalls;
    hide Commands;
    hide CircuitBreaker.ReplayAll;
    hide Cache.Run;
    hide RateLimit.After;
    hide Release.Run;
    hide Genuine;
    LogGrows(log, x);
    match x.effect
    case OnCircuits(call) => ReplayGrows(p.circuits, CircuitCalls(log), call);
    case OnCache(op) => RunGrows(p.cache, CacheOps(log), op);
    case OnLimiter(request) => BucketsGrow(p.limits, LimiterCalls(log), request);
    case OnReleases(command) => ReleasesGrow(Commands(log), command);
    case _ =>
  }

  lemma QueriesStayInSync(g: Gateway, p: Setup, state: Shared, log: Log, me: nat, ids: seq<RouteId>, clock: RouteId -> real)
    requires InSync(g, p, state, log)
    ensures InSync(g, p, state.(circuits := Router.QueryAll(p.circuits, state.circuits, ids, clock)), log + Queries(me, ids, clock))
  {
    hide Genuine;
    QueriesLogged(p.circuits, log, me, ids, clock);
    QueriesAreGenuine(g, log, me, ids, clock);
    hide Router.QueryAll;
    hide CircuitCalls;
    hide CacheOps;
    hide LedgerRows;
    hide LimiterCalls;
    hide Commands;
    hide CircuitBreaker.ReplayAll;
    hide Cache.Run;
    hide RateLimit.After;
    hide Release.Run;
  }

  /** Everything in the cache fits whoever reads it. */
  lemma SyncedCacheIsSafe(g: Gateway, p: Setup, state: Shared, log: Log)
    requires InSync(g, p, state, log)
    ensures Cache.DistinctKeys(state.entries)
    ensures forall request, namespace, now :: Cache.Hit(p.cache, state.entries, request, namespace, now).Some? ==>
              Fits(g, request, namespace, Cache.Hit(p.cache, state.entries, request, namespace, now).value)
  {
    hide Issued;
    hide Fits;
    hide Cache.Hit;
    Cache.EntriesAreOrderedByLastTouch(p.cache, CacheOps(log));
    GenuineLogIsIssued(g, log);
    forall request, namespace, now | Cache.Hit(p.cache, state.entries, request, namespace, now).Some?
      ensures Fits(g, request, namespace, Cache.Hit(p.cache, state.entries, request, namespace, now).value)
    {
      HitsFitTheReader(g, p.cache, CacheOps(log), request, namespace, now);
    }
  }

  class GatewayService {
    const gateway: Gateway
    const router: Router.PolicyRouter
    const limiter: RateLimit.TokenBucketLimiter
    const circuits: CircuitBreaker.CircuitBreakers
    const cache: Cache.SemanticCache
    const releases: Release.ReleaseRegistry
    const evidence: Release.EvidenceStore
    ghost var log: Log

    ghost predicate Valid()
      reads this, limiter, circuits, cache, releases, evidence
    {
      && Distinct(RouteIds(gateway.routes))
      && router.routes == gateway.routes && router.weights == gateway.weights && router.circuits == circuits
      && InSync(gateway, Settings(), State(), log)
    }

    ghost function State(): Shared
      reads limiter, circuits, cache, releases, evidence
    {
      Shared(circuits.circuits, cache.entries, evidence.rows, limiter.buckets, releases.rows)
    }

    function Settings(): Setup {
      Setup(circuits.settings, cache.config, limiter.settings)
    }

    constructor (
      gateway: Gateway, router: Router.PolicyRouter, limiter: RateLimit.TokenBucketLimiter,
      circuits: CircuitBreaker.CircuitBreakers, cache: Cache.SemanticCache, releases: Release.ReleaseRegistry,
      evidence: Release.EvidenceStore)
      requires Distinct(RouteIds(gateway.routes))
      requires router.routes == gateway.routes && router.weights == gateway.weights && router.circuits == circuits
      requires cache.config.Valid()
      requires circuits.circuits == map[] && cache.entries == [] && evidence.rows == []
      requires limiter.buckets == map[] && releases.rows == map[]
      ensures Valid() && log == []
      ensures this.gateway == gateway && this.circuits == circuits && this.cache == cache && this.evidence == evidence
    {
      this.gateway := gateway;
      this.router := router;
      this.limiter := limiter;
      this.circuits := circuits;
      this.cache := cache;
      this.releases := releases;
      this.evidence := evidence;
      this.log := [];
    }

    method PerformOnCircuits(x: Logged)
      requires Valid() && x.effect.OnCircuits?
      modifies this`log, circuits
      ensures Valid() && log == old(log) + [x]
    {
      GenuineByKind(gateway, x.effect);
      StaysInSync(gateway, Settings(), State(), log, x);
      hide InSync;
      hide Genuine;
      hide CircuitBreaker.ApplyCall;
      circuits.Perform(x.effect.call);
      log := log + [x];
    }

    method PerformOnCache(x: Logged)
      requires Valid() && x.effect.OnCache? && Genuine(gateway, x.effect)
      modifies this`log, cache
      ensures Valid() && log == old(log) + [x]
    {
      assert cache.config.Valid();
      StaysInSync(gateway, Settings(), State(), log, x);
      SyncedCacheIsSafe(gateway, Settings(), State(), log);
      hide InSync;
      hide Genuine;
      hide Cache.Apply;
      hide Cache.Hit;
      hide Fits;
      cache.Perform(x.effect.op);
      log := log + [x];
    }

    method PerformOnLedger(x: Logged)
      requires Valid() && x.effect.OnLedger? && Genuine(gateway, x.effect)
      modifies this`log, evidence
      ensures Valid() && log == old(log) + [x]
    {
      StaysInSync(gateway, Settings(), State(), log, x);
      hide InSync;
      hide Genuine;
      evidence.RecordMetric(x.effect.row);
      log := log + [x];
    }

    method PerformOnLimiter(x: Logged) returns (answer: RateLimit.Outcome)
      requires Valid() && x.effect.OnLimiter?
      modifies this`log, limiter
      ensures Valid() && log == old(log) + [x]
      ensures answer == RateLimit.Answer(limiter.settings, old(limiter.buckets), x.effect.request)
    {
      GenuineByKind(gateway, x.effect);
      StaysInSync(gateway, Settings(), State(), log, x);
      hide InSync;
      hide Genuine;
      hide RateLimit.Apply;
      hide RateLimit.Answer;
      answer := limiter.Consume(x.effect.request.key, x.effect.request.tokens, x.effect.request.now);
      log := log + [x];
    }

    method PerformOnReleases(x: Logged)
      requires Valid() && x.effect.OnReleases?
      modifies this`log, releases
      ensures Valid() && log == old(log) + [x]
    {
      GenuineByKind(gateway, x.effect);
      StaysInSync(gateway, Settings(), State(), log, x);
      hide InSync;
      hide Genuine;
      hide Release.Do;
      releases.Perform(x.effect.command);
      log := log + [x];
    }

    /** Asking which release is live leaves the state alone. */
    method PerformNothing(x: Logged)
      requires Valid() && x.effect.AskedLive?
      modifies this`log
      ensures Valid() && log == old(log) + [x]
    {
      GenuineByKind(gateway, x.effect);
      StaysInSync(gateway, Settings(), State(), log, x);
      hide InSync;
      hide Genuine;
      log := log + [x];
    }

    /** One atomic effect on the shared state. */
    method Perform(x: Logged)
      requires Valid() && Genuine(gateway, x.effect)
      modifies this`log, limiter, circuits, cache, releases, evidence
      ensures Valid() && log == old(log) + [x]
    {
      match x.effect {
        case OnCircuits(_) => PerformOnCircuits(x);
        case OnCache(_) => PerformOnCache(x);
        case OnLedger(_) => PerformOnLedger(x);
        case OnLimiter(_) => var answer := PerformOnLimiter(x);
        case OnReleases(_) => PerformOnReleases(x);
        case AskedLive(_) => PerformNothing(x);
      }
    }

    /** Other calls run while `me` waits; its own record is untouched. */
    method Interleave(effects: Log, me: nat, ghost mark: Log, ghost marks: seq<Mark>)
      requires Valid() && Foreign(gateway, effects, me) && Did(circuits.settings, mark, log, me, marks)
      modifies this`log, limiter, circuits, cache, releases, evidence
      ensures Extends(old(log), log)
      ensures Valid() && Did(circuits.settings, mark, log, me, marks)
    {
      hide Did;
      hide Genuine;
      var i := 0;
      while i < |effects|
        invariant 0 <= i <= |effects| && old(log) <= log
        invariant Valid() && Did(circuits.settings, mark, log, me, marks)
      {
        OthersLeaveNoMark(circuits.settings, mark, log, effects[i], me, marks);
        Perform(effects[i]);
        i := i + 1;
      }
    }

    method AskCircuit(route: RouteId, now: real, me: nat) returns (admitted: bool)
      requires Valid()
      modifies this`log, circuits
      ensures Valid() && log == old(log) + [Logged(me, OnCircuits(CircuitBreaker.On(route, CircuitBreaker.Before(now))))]
      ensures MarkOf(circuits.settings, old(log), OnCircuits(CircuitBreaker.On(route, CircuitBreaker.Before(now))))
              == OfCircuit(Asked(route, admitted, now))
    {
      var call := CircuitBreaker.On(route, CircuitBreaker.Before(now));
      GenuineByKind(gateway, OnCircuits(call));
      StaysInSync(gateway, Settings(), State(), log, Logged(me, OnCircuits(call)));
      assert circuits.circuits == CircuitBreaker.ReplayAll(circuits.settings, CircuitCalls(log));
      hide InSync;
      hide Genuine;
      hide CircuitBreaker.ApplyCall;
      hide CircuitBreaker.Admit;
      hide CircuitBreaker.At;
      hide CircuitBreaker.ReplayAll;
      hide CircuitCalls;
      var admission := circuits.BeforeRequest(route, now);
      log := log + [Logged(me, OnCircuits(call))];
      admitted := admission.Admitted?;
    }

    method BeforeRequest(route: RouteId, now: real, waiting: Log, me: nat, ghost mark: Log, ghost j: Journal)
      returns (admitted: bool, ghost k: Journal)
      requires Valid() && Foreign(gateway, waiting, me) && DidExactly(circuits.settings, mark, log, me, j)
      requires j.rows == [] && j.writes == []
      modifies this`log, limiter, circuits, cache, releases, evidence
      ensures Extends(old(log), log)
      ensures k == j.(circuits := j.circuits + [Asked(route, admitted, now)])
      ensures Valid() && DidExactly(circuits.settings, mark, log, me, k)
    {
      hide Did;
      hide MarksOf;
      hide Valid;
      hide MarkOf;
      Interleave(waiting, me, mark, MarksOf(j));
      ghost var before := log;
      admitted := AskCircuit(route, now, me);
      k := j.(circuits := j.circuits + [Asked(route, admitted, now)]);
      DidNext(circuits.settings, mark, before, OnCircuits(CircuitBreaker.On(route, CircuitBreaker.Before(now))), me, MarksOf(j));
      MarksOfMoreCircuits(j, Asked(route, admitted, now));
    }

    /** `record_success` or `record_failure`. */
    method Record(route: RouteId, success: bool, now: real, waiting: Log, me: nat, ghost mark: Log, ghost j: Journal)
      returns (ghost k: Journal)
      requires Valid() && Foreign(gateway, waiting, me) && DidExactly(circuits.settings, mark, log, me, j)
      requires j.rows == [] && j.writes == []
      modifies this`log, limiter, circuits, cache, releases, evidence
      ensures Extends(old(log), log)
      ensures k == j.(circuits := j.circuits + [if success then Succeeded(route) else Failed(route, now)])
      ensures Valid() && DidExactly(circuits.settings, mark, log, me, k)
    {
      hide Did;
      hide MarksOf;
      hide Valid;
      Interleave(waiting, me, mark, MarksOf(j));
      var op := if success then CircuitBreaker.Success else CircuitBreaker.Failure(now);
      ghost var entry := if success then Succeeded(route) else Failed(route, now);
      var call := CircuitBreaker.On(route, op);
      DidNext(circuits.settings, mark, log, OnCircuits(call), me, MarksOf(j));
      MarksOfMoreCircuits(j, entry);
      GenuineByKind(gateway, OnCircuits(call));
      Perform(Logged(me, OnCircuits(call)));
      k := j.(circuits := j.circuits + [entry]);
    }

    method WriteRow(row: Metric, waiting: Log, ghost act: Activity, me: nat, ghost mark: Log, ghost j: Journal)
      returns (ghost k: Journal)
      requires Valid() && Foreign(gateway, waiting, me) && DidExactly(circuits.settings, mark, log, me, j)
      requires Legal(gateway, act) && row in LoopOf(gateway, act).journal.rows && j.writes == []
      modifies this`log, limiter, circuits, cache, releases, evidence
      ensures Extends(old(log), log)
      ensures k == j.(rows := j.rows + [row])
      ensures Valid() && DidExactly(circuits.settings, mark, log, me, k)
    {
      hide Did;
      hide MarksOf;
      hide Valid;
      hide LoopOf;
      Interleave(waiting, me, mark, MarksOf(j));
      DidNext(circuits.settings, mark, log, OnLedger(row), me, MarksOf(j));
      MarksOfMoreRows(j, row);
      Perform(Logged(me, OnLedger(row)));
      k := j.(rows := j.rows + [row]);
    }

    method FillCache(
      request: Request, response: Response, namespace: string, now: real, waiting: Log,
      ghost act: Activity, me: nat, ghost mark: Log, ghost j: Journal)
      returns (ghost k: Journal)
      requires Valid() && Foreign(gateway, waiting, me) && DidExactly(circuits.settings, mark, log, me, j)
      requires WrittenBy(gateway, act, CacheWrite(request, response, namespace, now))
      modifies this`log, limiter, circuits, cache, releases, evidence
      ensures Extends(old(log), log)
      ensures k == j.(writes := j.writes + [CacheWrite(request, response, namespace, now)])
      ensures Valid() && DidExactly(circuits.settings, mark, log, me, k)
    {
      hide Did;
      hide MarksOf;
      hide Valid;
      hide WrittenBy;
      Interleave(waiting, me, mark, MarksOf(j));
      DidNext(circuits.settings, mark, log, OnCache(Cache.Put(request, response, namespace, now)), me, MarksOf(j));
      MarksOfMoreWrites(j, CacheWrite(request, response, namespace, now));
      Perform(Logged(me, OnCache(Cache.Put(request, response, namespace, now))));
      k := j.(writes := j.writes + [CacheWrite(request, response, namespace, now)]);
    }

    // -----------------------------------------------------------------------
    // Before the loop

    method ConsumeToken(tenant: string, now: real, me: nat) returns (admitted: bool)
      requires Valid()
      modifies this`log, limiter
      ensures Valid() && log == old(log) + [Logged(me, OnLimiter(RateLimit.Call(tenant, 1.0, now)))]
      ensures TokenAt(Settings(), log, |old(log)|, me, tenant, now, admitted)
    {
      TokenIsSeen(Settings(), log, me, tenant, now);
      assert limiter.buckets == RateLimit.After(limiter.settings, LimiterCalls(log));
      hide Valid;
      hide TokenAt;
      hide RateLimit.Answer;
      hide RateLimit.After;
      hide LimiterCalls;
      var answer := PerformOnLimiter(Logged(me, OnLimiter(RateLimit.Call(tenant, 1.0, now))));
      admitted := answer.Granted?;
    }

    /** One token of this tenant, and nothing else. */
    method TakeToken(tenant: string, now: real, waiting: Log, me: nat, ghost mark: Log, ghost marks: seq<Mark>)
      returns (admitted: bool, ghost at: nat)
      requires Valid() && Foreign(gateway, waiting, me) && Did(circuits.settings, mark, log, me, marks)
      modifies this`log, limiter, circuits, cache, releases, evidence
      ensures Extends(old(log), log) && |old(log)| <= at < |log|
      ensures Valid()
      ensures Did(circuits.settings, mark, log, me, marks + [Inquiry(OnLimiter(RateLimit.Call(tenant, 1.0, now)))])
      ensures TokenAt(Settings(), log, at, me, tenant, now, admitted)
    {
      hide Did;
      hide Valid;
      Interleave(waiting, me, mark, marks);
      at := |log|;
      DidNext(circuits.settings, mark, log, OnLimiter(RateLimit.Call(tenant, 1.0, now)), me, marks);
      hide TokenAt;
      admitted := ConsumeToken(tenant, now, me);
    }

    method ReadLive(me: nat) returns (live: Option<Release.Release>)
      requires Valid()
      modifies this`log
      ensures Valid() && log == old(log) + [Logged(me, AskedLive("default"))]
      ensures LiveAt(log, |old(log)|, me, live)
    {
      assert releases.rows == Release.Run(Commands(log));
      hide Release.MayBeLive;
      hide Release.Run;
      hide Commands;
      live := releases.GetLive("default");
      hide Valid;
      PerformNothing(Logged(me, AskedLive("default")));
      assert log[..|old(log)|] == old(log);
    }

    method LiveRelease(waiting: Log, me: nat, ghost mark: Log, ghost marks: seq<Mark>)
      returns (live: Option<Release.Release>, ghost at: nat)
      requires Valid() && Foreign(gateway, waiting, me) && Did(circuits.settings, mark, log, me, marks)
      modifies this`log, limiter, circuits, cache, releases, evidence
      ensures Extends(old(log), log) && |old(log)| <= at < |log|
      ensures Valid() && Did(circuits.settings, mark, log, me, marks + [Inquiry(AskedLive("default"))])
      ensures LiveAt(log, at, me, live)
    {
      hide Did;
      hide Valid;
      Interleave(waiting, me, mark, marks);
      at := |log|;
      DidNext(circuits.settings, mark, log, AskedLive("default"), me, marks);
      hide LiveAt;
      live := ReadLive(me);
    }

    /** A hit fits its reader, because everything in the cache was written by calls of the gateway. */
    method LookUp(request: Request, namespace: string, now: real, me: nat) returns (hit: Option<Response>)
      requires Valid()
      modifies this`log, cache
      ensures Valid() && log == old(log) + [Logged(me, OnCache(Cache.Get(request, namespace, now)))]
      ensures CacheAt(Settings(), log, |old(log)|, me, request, namespace, now, hit)
      ensures hit.Some? ==> Fits(gateway, request, namespace, hit.value)
    {
      hide Genuine;
      hide GenuineLog;
      hide CircuitBreaker.ReplayAll;
      hide RateLimit.After;
      hide Release.Run;
      hide Cache.Apply;
      hide Cache.Hit;
      hide Cache.Run;
      hide CacheOps;
      hide Fits;
      ghost var x := Logged(me, OnCache(Cache.Get(request, namespace, now)));
      GenuineByKind(gateway, x.effect);
      StaysInSync(gateway, Settings(), State(), log, x);
      SyncedCacheIsSafe(gateway, Settings(), State(), log);
      assert cache.entries == Cache.Run(cache.config, CacheOps(log));
      hide InSync;
      hit := cache.Get(request, namespace, now);
      log := log + [x];
      assert log[..|old(log)|] == old(log);
    }

    method ReadCache(request: Request, namespace: string, now: real, waiting: Log, me: nat, ghost mark: Log, ghost marks: seq<Mark>)
      returns (hit: Option<Response>, ghost at: nat)
      requires Valid() && Foreign(gateway, waiting, me) && Did(circuits.settings, mark, log, me, marks)
      modifies this`log, limiter, circuits, cache, releases, evidence
      ensures Extends(old(log), log) && |old(log)| <= at < |log|
      ensures Valid() && Did(circuits.settings, mark, log, me, marks + [Inquiry(OnCache(Cache.Get(request, namespace, now)))])
      ensures CacheAt(Settings(), log, at, me, request, namespace, now, hit)
      ensures hit.Some? ==> Fits(gateway, request, namespace, hit.value)
    {
      hide Did;
      hide Valid;
      hide Fits;
      Interleave(waiting, me, mark, marks);
      at := |log|;
      DidNext(circuits.settings, mark, log, OnCache(Cache.Get(request, namespace, now)), me, marks);
      hide CacheAt;
      hit := LookUp(request, namespace, now, me);
    }

    /** The routing decision. The circuits are asked without a break, since nobody awaits while holding their lock. */
    method Decide(request: Request, preferred: Option<RouteId>, forced: Option<RouteId>, clock: RouteId -> real, waiting: Log,
                  me: nat, ghost mark: Log, ghost marks: seq<Mark>)
      returns (outcome: Router.Outcome, ghost available: set<RouteId>, ghost at: nat)
      requires Valid() && Foreign(gateway, waiting, me) && Did(circuits.settings, mark, log, me, marks)
      requires request.Valid()
      modifies this`log, limiter, circuits, cache, releases, evidence
      ensures Extends(old(log), log) && |old(log)| <= at <= |log|
      ensures Valid() && Did(circuits.settings, mark, log, me, marks + QueryMarks(RouteIds(gateway.routes), clock))
      ensures CircuitsAt(Settings(), log, at, me, gateway.routes, clock, available)
      ensures outcome == Router.DecisionFor(gateway.weights, gateway.routes, Router.Terms(request, forced, {}, available), preferred)
    {
      hide Did;
      Interleave(waiting, me, mark, marks);
      ghost var before, ids := log, RouteIds(gateway.routes);
      at := |log|;
      QueriesStayInSync(gateway, Settings(), State(), log, me, ids, clock);
      DidQueries(circuits.settings, mark, log, me, marks, ids, clock);
      assert circuits.circuits == CircuitBreaker.ReplayAll(circuits.settings, CircuitCalls(log));
      hide InSync;
      hide Router.DecisionFor;
      hide Router.QueryAll;
      hide Router.AvailableIn;
      hide CircuitBreaker.ReplayAll;
      hide CircuitCalls;
      hide Queries;
      hide QueryMarks;
      available := router.Available(clock);
      outcome := router.Decide(request, preferred, forced, {}, clock);
      log := log + Queries(me, ids, clock);
      assert log[..|before|] == before;
    }

    method Arrive(call: Call, w: World, me: nat) returns (entry: Entry, ghost a: Arrival)
      requires Valid() && Fair(gateway, w, me)
      requires call.Made() && call.request.Valid()
      modifies this`log, limiter, circuits, cache, releases, evidence
      ensures Extends(old(log), log) && Valid()
      ensures entry == Enter(gateway, call, a) && Informed(gateway, Settings(), w, old(log), log, me, call, a)
      ensures entry.CacheHit? ==> Fits(gateway, entry.lane.request, entry.lane.Namespace(), entry.response)
    {
      hide Did;
      hide Valid;
      hide Foreign;
      hide Router.DecisionFor;
      hide Router.OrderedCandidates;
      hide Fits;
      hide ToldInLane;
      hide LaneInquiries;
      hide TokenAt;
      ghost var mark, marks: seq<Mark>, token := log, [], |log|;
      assert Extends(log, log);
      DidNothingYet(circuits.settings, log, me);
      var resolved := Resolve(call.request, w.rendered);
      a := Arrival(w.started, w.rendered, false, None, None, 0.0, {});
      if resolved.None? {
        ValidIsDistinct();
        assert Told(gateway, Settings(), w, mark, log, me, call, a, Moments(token, token, token, token));
        return Rejected(PromptError), a;
      }
      if call.kind.User? {
        var admitted;
        admitted, token := TakeToken(resolved.value.tenantId, w.tokenClock, w.others(0, 0), me, mark, marks);
        ghost var taken := Inquiry(OnLimiter(RateLimit.Call(resolved.value.tenantId, 1.0, w.tokenClock)));
        assert marks + [taken] == [taken];
        marks := [taken];
        if !admitted {
          ValidIsDistinct();
          assert Inquiries(gateway, w, call, a) == marks;
          assert Told(gateway, Settings(), w, mark, log, me, call, a, Moments(token, token, token, token));
          return Rejected(RateLimited), a;
        }
      }
      ghost var before, m := log, Moments(0, 0, 0, 0);
      entry, a, m := ArriveInLane(call, resolved.value, w, me, mark, marks);
      ValidIsDistinct();
      hide Enter;
      if call.kind.User? {
        TokenStays(Settings(), before, log, token, me, resolved.value.tenantId, w.tokenClock, true);
      }
      ToldInLaneAt(gateway, Settings(), w, log, me, call, a, resolved.value, m, token);
      assert Told(gateway, Settings(), w, mark, log, me, call, a, m.(token := token));
    }

    lemma ValidIsDistinct()
      requires Valid()
      ensures Distinct(RouteIds(gateway.routes))
    {}

    /** A request past the limiter: its release, the cache, and the routing decision. */
    method ArriveInLane(call: Call, request: Request, w: World, me: nat, ghost mark: Log, ghost marks: seq<Mark>)
      returns (entry: Entry, ghost a: Arrival, ghost m: Moments)
      requires Valid() && Fair(gateway, w, me) && Did(circuits.settings, mark, log, me, marks)
      requires call.Made() && call.request.Valid() && Resolve(call.request, w.rendered) == Some(request)
      modifies this`log, limiter, circuits, cache, releases, evidence
      ensures Extends(old(log), log)
      ensures Valid() && Did(circuits.settings, mark, log, me, marks + LaneInquiries(gateway, w, call, a, request))
      ensures a.started == w.started && a.rendered == w.rendered && a.admitted
      ensures |old(log)| <= m.live <= m.cached <= m.routed <= |log|
      ensures entry == Enter(gateway, call, a) && ToldInLane(gateway, Settings(), w, log, me, call, a, request, m)
      ensures entry.CacheHit? ==> Fits(gateway, entry.lane.request, entry.lane.Namespace(), entry.response)
    {
      hide Did;
      hide Foreign;
      hide InSync;
      hide Router.DecisionFor;
      hide Router.OrderedCandidates;
      hide Router.Feasible;
      hide Fits;
      hide AssignmentOf;
      hide CacheNamespace;
      hide LiveAt;
      hide CacheAt;
      hide CircuitsAt;
      hide QueryMarks;
      a := Arrival(w.started, w.rendered, true, None, None, 0.0, {});
      var live, cached;
      ghost var liveAt, cachedAt, routedAt, asked, looked;
      live, liveAt, asked := AskLive(call, w, me, mark, marks);
      a := a.(live := live);
      var lane := Lane(request, call.forced, call.kind, AssignmentOf(gateway.hash, call, live, request));
      ghost var first := log;
      cached, cachedAt, looked := AskCache(lane, w, me, mark, asked);
      if AsksLive(call) { LiveStays(first, log, liveAt, me, live); }
      a := a.(cached := cached);
      m := Moments(liveAt, liveAt, cachedAt, |log|);
      if cached.Some? {
        a := a.(hitAt := w.hitClock);
        var response := RewriteHit(lane, cached.value, (w.hitClock - w.started) * 1000.0);
        RewritingKeepsFit(gateway, lane, cached.value, response);
        assert looked == marks + LaneInquiries(gateway, w, call, a, request);
        return CacheHit(lane, response), a, m;
      }
      ghost var second := log;
      entry, a, routedAt := RouteInLane(call, lane, w, me, mark, looked, a);
      hide Enter;
      m := m.(routed := routedAt);
      assert looked + QueryMarks(RouteIds(gateway.routes), w.routeClock) == marks + LaneInquiries(gateway, w, call, a, request);
      if AsksLive(call) { LiveStays(second, log, liveAt, me, live); }
      if lane.Reads() { CacheStays(Settings(), second, log, cachedAt, me, request, lane.Namespace(), w.cacheClock, None); }
    }

    method AskLive(call: Call, w: World, me: nat, ghost mark: Log, ghost marks: seq<Mark>)
      returns (live: Option<Release.Release>, ghost at: nat, ghost done: seq<Mark>)
      requires Valid() && Fair(gateway, w, me) && Did(circuits.settings, mark, log, me, marks)
      modifies this`log, limiter, circuits, cache, releases, evidence
      ensures Extends(old(log), log) && |old(log)| <= at <= |log|
      ensures done == marks + if AsksLive(call) then [Inquiry(AskedLive("default"))] else []
      ensures Valid() && Did(circuits.settings, mark, log, me, done)
      ensures if AsksLive(call) then LiveAt(log, at, me, live) else live == None
    {
      hide Did;
      hide Valid;
      hide LiveAt;
      if !AsksLive(call) {
        assert marks + [] == marks;
        return None, |log|, marks;
      }
      live, at := LiveRelease(w.others(0, 1), me, mark, marks);
      done := marks + [Inquiry(AskedLive("default"))];
    }

    method AskCache(lane: Lane, w: World, me: nat, ghost mark: Log, ghost marks: seq<Mark>)
      returns (cached: Option<Response>, ghost at: nat, ghost done: seq<Mark>)
      requires Valid() && Fair(gateway, w, me) && Did(circuits.settings, mark, log, me, marks)
      modifies this`log, limiter, circuits, cache, releases, evidence
      ensures Extends(old(log), log) && |old(log)| <= at <= |log|
      ensures done == marks +
        if lane.Reads() then [Inquiry(OnCache(Cache.Get(lane.request, lane.Namespace(), w.cacheClock)))] else []
      ensures Valid() && Did(circuits.settings, mark, log, me, done)
      ensures if lane.Reads() then CacheAt(Settings(), log, at, me, lane.request, lane.Namespace(), w.cacheClock, cached)
              else cached == None
      ensures cached.Some? ==> Fits(gateway, lane.request, lane.Namespace(), cached.value)
    {
      hide Did;
      hide Valid;
      hide CacheAt;
      hide Fits;
      hide CacheNamespace;
      if !lane.Reads() {
        assert marks + [] == marks;
        return None, |log|, marks;
      }
      cached, at := ReadCache(lane.request, lane.Namespace(), w.cacheClock, w.others(0, 2), me, mark, marks);
      done := marks + [Inquiry(OnCache(Cache.Get(lane.request, lane.Namespace(), w.cacheClock)))];
    }

    /** The routing decision of a lane that the cache has not answered. */
    method RouteInLane(call: Call, lane: Lane, w: World, me: nat, ghost mark: Log, ghost marks: seq<Mark>, ghost told: Arrival)
      returns (entry: Entry, ghost a: Arrival, ghost at: nat)
      requires Valid() && Fair(gateway, w, me) && Did(circuits.settings, mark, log, me, marks)
      requires call.request.Valid() && Resolve(call.request, told.rendered) == Some(lane.request)
      requires lane == LaneFrom(gateway, call, told, lane.request)
      requires told.admitted && told.started == w.started && !(lane.Reads() && told.cached.Some?)
      modifies this`log, limiter, circuits, cache, releases, evidence
      ensures Extends(old(log), log) && |old(log)| <= at <= |log|
      ensures Valid() && Did(circuits.settings, mark, log, me, marks + QueryMarks(RouteIds(gateway.routes), w.routeClock))
      ensures a == told.(available := a.available) && entry == Enter(gateway, call, a) && !entry.CacheHit?
      ensures CircuitsAt(Settings(), log, at, me, gateway.routes, w.routeClock, a.available)
    {
      hide Did;
      hide Foreign;
      hide InSync;
      hide Router.DecisionFor;
      hide Router.OrderedCandidates;
      hide Router.Feasible;
      hide AssignmentOf;
      hide CacheNamespace;
      hide CircuitsAt;
      hide QueryMarks;
      var request := lane.request;
      var outcome;
      ghost var available;
      outcome, available, at :=
        Decide(request, lane.assignment.preferredRouteId, call.forced, w.routeClock, w.others(0, 3), me, mark, marks);
      a := told.(available := available);
      if outcome.NoEligibleRoute? {
        return Rejected(NoEligibleRoute), a, at;
      }
      DecisionHasRoutes(gateway, Router.Terms(request, call.forced, {}, available), lane.assignment.preferredRouteId);
      entry := Candidates(
        Context(gateway.contract, lane, w.started, Targets(gateway.routes, Router.OrderedCandidates(outcome.decision))));
    }

    // -----------------------------------------------------------------------
    // The end of a call, good or bad

    /** An accepted answer: record the success, write the evidence, fill the cache, start the background tasks. */
    method Settle(c: Context, response: Response, i: nat, w: World, me: nat, ghost mark: Log, ghost j: Journal,
                  ghost act: Activity, ghost after: Loop)
      returns (tasks: seq<Task>)
      requires Valid() && Fair(gateway, w, me) && DidExactly(circuits.settings, mark, log, me, j)
      requires Legal(gateway, act) && LoopOf(gateway, act) == after
      requires exists l, events :: after == Accept(c, l, j, response, w.at(i).stored, events) && Quiet(j)
      modifies this`log, limiter, circuits, cache, releases, evidence
      ensures Extends(old(log), log)
      ensures Valid() && DidExactly(circuits.settings, mark, log, me, after.journal)
      ensures tasks == after.journal.tasks
    {
      hide DidExactly;
      hide Valid;
      hide Foreign;
      hide LoopOf;
      hide ResponseRow;
      ghost var k := Record(response.routeId, true, w.at(i).recorded, w.others(i + 1, 1), me, mark, j);
      if !c.lane.kind.Evaluation? {
        var row := ResponseRow(c.lane, response);
        assert row in after.journal.rows by { assert after.journal.rows[|j.rows|] == row; }
        k := WriteRow(row, w.others(i + 1, 2), act, me, mark, k);
      }
      if c.lane.Writes() {
        ghost var write := CacheWrite(c.lane.request, response, c.lane.Namespace(), w.at(i).stored);
        assert write in after.journal.writes by { assert after.journal.writes[|j.writes|] == write; }
        k := FillCache(c.lane.request, response, c.lane.Namespace(), w.at(i).stored, w.others(i + 1, 3), act, me, mark, k);
      }
      tasks := PostResponse(c.lane);
      SameMarks(circuits.settings, mark, log, me, k, after.journal);
    }

    /** The evidence of a call that has failed. */
    method Fail(c: Context, error: Error, route: Route, fallback: nat, now: real, waiting: Log, me: nat,
                ghost mark: Log, ghost j: Journal, ghost act: Activity)
      returns (tasks: seq<Task>, ghost k: Journal)
      requires Valid() && Foreign(gateway, waiting, me) && DidExactly(circuits.settings, mark, log, me, j)
      requires Legal(gateway, act) && ErrorRow(c.lane, route, error, fallback, (now - c.started) * 1000.0) in LoopOf(gateway, act).journal.rows
      requires j.writes == []
      modifies this`log, limiter, circuits, cache, releases, evidence
      ensures Extends(old(log), log)
      ensures k == j.(rows := j.rows + [ErrorRow(c.lane, route, error, fallback, (now - c.started) * 1000.0)])
      ensures Valid() && DidExactly(circuits.settings, mark, log, me, k)
      ensures tasks == Assessment(c.lane.assignment)
    {
      hide DidExactly;
      hide Valid;
      hide LoopOf;
      k := WriteRow(ErrorRow(c.lane, route, error, fallback, (now - c.started) * 1000.0), waiting, act, me, mark, j);
      tasks := Assessment(c.lane.assignment);
    }

    /** After the loop: the last error is raised. Both assertions of the source hold here. */
    method Conclude(c: Context, lastError: Option<Blame>, fallback: nat, now: real, waiting: Log, me: nat,
                    ghost mark: Log, ghost l: Loop, ghost act: Activity)
      returns (error: Error, tasks: seq<Task>)
      requires Valid() && Foreign(gateway, waiting, me) && DidExactly(circuits.settings, mark, log, me, l.journal)
      requires l.lastError == lastError && l.fallback == fallback && lastError.Some? && Quiet(l.journal)
      requires Legal(gateway, act) && LoopOf(gateway, act) == Finish(c, l, now)
      modifies this`log, limiter, circuits, cache, releases, evidence
      ensures Extends(old(log), log)
      ensures Valid() && DidExactly(circuits.settings, mark, log, me, LoopOf(gateway, act).journal)
      ensures LoopOf(gateway, act).status == Raised(error)
      ensures c.lane.kind.Evaluation? ==> tasks == []
      ensures tasks == LoopOf(gateway, act).journal.tasks
    {
      hide DidExactly;
      hide Valid;
      hide Foreign;
      hide LoopOf;
      error := lastError.value.error;
      tasks := [];
      if !c.lane.kind.Evaluation? {
        ghost var k;
        tasks, k := Fail(c, error, lastError.value.route, fallback, now, waiting, me, mark, l.journal, act);
        SameMarks(circuits.settings, mark, log, me, k, LoopOf(gateway, act).journal);
      }
    }

    // -----------------------------------------------------------------------
    // generate

    /** One round of the loop, past the deadline check. */
    method AttemptGenerate(c: Context, i: nat, fallback: nat, ghost lastError: Option<Blame>, now: real, w: World, me: nat,
                           ghost mark: Log, ghost l: Loop, ghost call: Call, ghost a: Arrival, ghost before: seq<Seen>)
      returns (round: Round, ghost s: Seen)
      requires Valid() && Fair(gateway, w, me) && DidExactly(circuits.settings, mark, log, me, l.journal)
      requires GenerateRuns(gateway, c, w, call, a, before, l) && i < |c.targets| && InLoop(c, l, i, fallback, lastError)
      requires now == w.checkClock(i) && Remaining(c, now) > 0.0
      modifies this`log, limiter, circuits, cache, releases, evidence
      ensures Extends(old(log), log)
      ensures Heard(c, w, i, s) && s.now == now
      ensures Valid() && DidExactly(circuits.settings, mark, log, me, GenerateStep(c, l, s).journal)
      ensures Tells(round, c, l, GenerateStep(c, l, s))
    {
      hide DidExactly;
      hide Valid;
      hide Foreign;
      hide Enter;
      hide LoopOf;
      hide GenerateLoop;
      hide Validate;
      hide AttemptBudgetMs;
      hide Remaining;
      var route := c.targets[i].route;
      var budget := AttemptBudgetMs(Remaining(c, now));
      var admitted;
      ghost var k;
      admitted, k := BeforeRequest(route.id, w.at(i).asked, w.others(i + 1, 0), me, mark, l.journal);
      if !admitted {
        s := Seen(now, false, TimedOut, w.at(i));
        return Fell(CircuitOpen, false), s;
      }
      var reply := w.reply(i, budget);
      s := Seen(now, true, reply, w.at(i));
      ghost var after := GenerateStep(c, l, s);
      match reply {
        case Completed(text, _, _, _, _) =>
          var v := Validate(c.contract, c.lane.request.responseSchema, text);
          if v.Violated? {
            SameMarks(circuits.settings, mark, log, me, k, after.journal);
            return Fell(SchemaViolation, false), s;
          }
          if v.Unchecked? {
            SameMarks(circuits.settings, mark, log, me, k, after.journal);
            return Died, s;
          }
          var response := CompleteResponse(c, fallback, c.targets[i], reply, v, w.at(i).measured);
          ghost var j := Admit(c, l, route, now, w.at(i));
          SameMarks(circuits.settings, mark, log, me, k, j);
          assert after == Accept(c, l, j, response, w.at(i).stored, []);
          WonLoop(gateway, call, a, before, s, c, l);
          var tasks := Settle(c, response, i, w, me, mark, j, Generated(call, a, before + [s], 0.0), after);
          return Won(response, tasks), s;
        case TimedOut =>
          ghost var f := Record(route.id, false, w.at(i).recorded, w.others(i + 1, 1), me, mark, k);
          SameMarks(circuits.settings, mark, log, me, f, after.journal);
          return Fell(ProviderTimeout, false), s;
        case ProviderError(code) =>
          ghost var f := Record(route.id, false, w.at(i).recorded, w.others(i + 1, 1), me, mark, k);
          SameMarks(circuits.settings, mark, log, me, f, after.journal);
          return Fell(ProviderFailure(code), code == INVALID_REQUEST), s;
      }
    }

    method TryGenerate(c: Context, w: World, me: nat, ghost mark: Log, ghost call: Call, ghost a: Arrival)
      returns (outcome: Outcome, tasks: seq<Task>, ghost act: Activity)
      requires Valid() && Fair(gateway, w, me) && DidExactly(circuits.settings, mark, log, me, EMPTY_JOURNAL)
      requires Legal(gateway, Generated(call, a, [], 0.0)) && Enter(gateway, call, a) == Candidates(c)
      modifies this`log, limiter, circuits, cache, releases, evidence
      ensures Extends(old(log), log)
      ensures Valid() && Legal(gateway, act) && act.Generated? && act.call == call && act.arrival == a
      ensures Reports(gateway, act, outcome, tasks) && HeardAll(c, w, act.seen) && act.finishedAt == w.closeClock
      ensures DidExactly(circuits.settings, mark, log, me, LoopOf(gateway, act).journal)
    {
      hide DidExactly;
      hide Valid;
      hide Foreign;
      hide Enter;
      hide LoopOf;
      hide GenerateStep;
      hide Legal;
      hide Remaining;
      var i, fallback := 0, 0;
      var lastError: Option<Blame> := None;
      ghost var seen: seq<Seen> := [];
      ghost var l := INIT;
      GenerateStarts(gateway, c, w, call, a);
      assert Extends(log, log);
      hide Extends;
      hide GenerateRuns;
      hide InLoop;
      hide OutOfLoop;
      hide Heard;
      hide HeardAll;
      hide Active;
      hide Tells;
      while i < |c.targets|
        invariant 0 <= i == |seen| <= |c.targets| && Extends(old(log), log)
        invariant Valid() && DidExactly(circuits.settings, mark, log, me, l.journal)
        invariant GenerateRuns(gateway, c, w, call, a, seen, l) && InLoop(c, l, i, fallback, lastError)
      {
        var route := c.targets[i].route;
        var now := w.checkClock(i);
        InLoopIsActive(c, l, i, fallback, lastError);
        if Remaining(c, now) <= 0.0 {
          GenerateExpires(gateway, c, w, call, a, seen, l, fallback, lastError);
          seen, l := seen + [Seen(now, false, TimedOut, w.at(i))], Expire(l, route);
          if lastError.None? {
            lastError := Some(Blame(ProviderTimeout, route));
            fallback := fallback + 1;
          }
          break;
        }
        var round;
        ghost var s, earlier := *, log;
        round, s := AttemptGenerate(c, i, fallback, lastError, now, w, me, mark, l, call, a, seen);
        ExtendsFurther(old(log), earlier, log);
        GenerateGoesOn(gateway, c, w, call, a, seen, l, s, fallback, lastError, round);
        match round {
          case Won(response, spawned) =>
            act := Generated(call, a, seen + [s], w.closeClock);
            outcome, tasks := Answer(response), spawned;
            return;
          case Broke(error, spawned) =>
            act := Generated(call, a, seen + [s], w.closeClock);
            outcome, tasks := Failure(error), spawned;
            return;
          case Died =>
            act := Generated(call, a, seen + [s], w.closeClock);
            outcome, tasks := Outcome.Crash, [];
            return;
          case Fell(error, last) =>
            lastError := Some(Blame(error, route));
            fallback := fallback + 1;
            seen, l := seen + [s], GenerateStep(c, l, s);
            if last {
              break;
            }
        }
        i := i + 1;
      }
      if i == |c.targets| { LoopRanOut(c, l, i, fallback, lastError); }
      ghost var earlier := log;
      outcome, tasks, act := GiveUp(c, lastError, fallback, w, me, mark, l, call, a, seen);
      ExtendsFurther(old(log), earlier, log);
    }

    /** The loop has run out of candidates or time, or was told to stop. */
    method GiveUp(c: Context, lastError: Option<Blame>, fallback: nat, w: World, me: nat,
                  ghost mark: Log, ghost l: Loop, ghost call: Call, ghost a: Arrival, ghost seen: seq<Seen>)
      returns (outcome: Outcome, tasks: seq<Task>, ghost act: Activity)
      requires Valid() && Fair(gateway, w, me) && DidExactly(circuits.settings, mark, log, me, l.journal)
      requires GenerateRuns(gateway, c, w, call, a, seen, l) && OutOfLoop(c, l, fallback, lastError)
      modifies this`log, limiter, circuits, cache, releases, evidence
      ensures Extends(old(log), log)
      ensures Valid() && act == Generated(call, a, seen, w.closeClock) && Legal(gateway, act)
      ensures Reports(gateway, act, outcome, tasks) && HeardAll(c, w, act.seen)
      ensures DidExactly(circuits.settings, mark, log, me, LoopOf(gateway, act).journal)
    {
      hide DidExactly;
      hide Valid;
      hide Foreign;
      hide Enter;
      hide LoopOf;
      hide GenerateLoop;
      hide HeardAll;
      hide Close;
      hide Finish;
      var now := w.closeClock;
      act := Generated(call, a, seen, now);
      ClosedGenerate(gateway, call, a, seen, now, c);
      LoopHasBlame(gateway, call, a, c, l);
      hide Accounted;
      var error;
      error, tasks := Conclude(c, lastError, fallback, now, w.others(|c.targets| + 1, 0), me, mark, l, act);
      outcome := Failure(error);
    }

    method Generate(call: Call, w: World, me: nat)
      returns (outcome: Outcome, tasks: seq<Task>, ghost act: Activity, ghost arrived: Log)
      requires Valid() && Fair(gateway, w, me) && call.Made() && call.request.Valid()
      modifies this`log, limiter, circuits, cache, releases, evidence
      ensures Extends(old(log), log)
      ensures Valid() && Legal(gateway, act) && act.Generated? && act.call == call
      ensures Reports(gateway, act, outcome, tasks)
      ensures Extends(old(log), arrived) && Truthful(gateway, Settings(), w, old(log), arrived, me, act)
      ensures DidExactly(circuits.settings, arrived, log, me, LoopOf(gateway, act).journal)
      ensures outcome.Answer? ==> Served(gateway, act, outcome.response) && Delivered(gateway, w, act, outcome.response)
    {
      hide DidExactly;
      hide Foreign;
      hide LoopOf;
      hide Enter;
      hide Informed;
      hide Extends;
      hide RelaysWorld;
      hide RelaysHit;
      assert Distinct(RouteIds(gateway.routes));
      hide Valid;
      var entry;
      ghost var a;
      entry, a := Arrive(call, w, me);
      arrived := log;
      ghost var mark := log;
      NoJournalYet(circuits.settings, log, me);
      act := Generated(call, a, [], 0.0);
      match entry {
        case Rejected(error) =>
          RejectedGenerate(gateway, call, a, error);
          SameMarks(circuits.settings, mark, log, me, EMPTY_JOURNAL, LoopOf(gateway, act).journal);
          return Failure(error), [], act, arrived;
        case CacheHit(lane, response) =>
          HitGenerate(gateway, call, a, lane, response);
          HitIsDelivered(gateway, w, act);
          var row := ResponseRow(lane, response);
          assert row in LoopOf(gateway, act).journal.rows;
          ghost var k := WriteRow(row, w.others(0, 4), act, me, mark, EMPTY_JOURNAL);
          SameMarks(circuits.settings, mark, log, me, k, LoopOf(gateway, act).journal);
          ExtendsFurther(old(log), arrived, log);
          return Answer(response), PostResponse(lane), act, arrived;
        case Candidates(c) =>
          outcome, tasks, act := TryGenerate(c, w, me, mark, call, a);
          hide HeardAll;
          ExtendsFurther(old(log), arrived, log);
          if outcome.Answer? {
            FreshAnswersFit(gateway, act);
            AnswersComeFromTheWorld(gateway, w, act, c);
          }
      }
    }

    // -----------------------------------------------------------------------
    // stream

    /** Forwards the events of one provider stream to the client and assembles its answer. */
    method ForwardEvents(route: Route, received: seq<ProviderEvent>)
      returns (sent: seq<Event>, text: string, emitted: bool, inputTokens: nat, outputTokens: nat)
      ensures sent == ForwardAll(route, received) && text == TextOf(received)
      ensures emitted == Emitted(received) && (inputTokens, outputTokens) == UsageOf(received)
    {
      sent, text, emitted, inputTokens, outputTokens := [], "", false, 0, 0;
      var i := 0;
      while i < |received|
        invariant 0 <= i <= |received|
        invariant sent == ForwardAll(route, received[..i]) && text == TextOf(received[..i])
        invariant emitted == Emitted(received[..i]) && (inputTokens, outputTokens) == UsageOf(received[..i])
      {
        var event := received[i];
        assert received[..i + 1][..i] == received[..i];
        EmittedSnoc(received[..i], event);
        assert received[..i + 1] == received[..i] + [event];
        match event {
          case StartEvent =>
            sent := sent + [Event.Start(route.id, route.provider, route.model)];
          case DeltaEvent(delta) =>
            emitted := true;
            text := text + delta;
            sent := sent + [Event.Delta(route.id, route.provider, route.model, delta)];
          case UsageEvent(input, output) =>
            inputTokens, outputTokens := OrZero(input), OrZero(output);
          case OtherEvent =>
        }
        i := i + 1;
      }
      assert received[..i] == received;
    }

    /** One round of the loop, past the deadline check; `sent` is what the client receives in it. */
    method AttemptStream(c: Context, i: nat, fallback: nat, ghost lastError: Option<Blame>, now: real, w: World, me: nat,
                         ghost mark: Log, ghost l: Loop, ghost call: Call, ghost a: Arrival, ghost before: seq<StreamSeen>)
      returns (round: Round, sent: seq<Event>, ghost s: StreamSeen)
      requires Valid() && Fair(gateway, w, me) && DidExactly(circuits.settings, mark, log, me, l.journal)
      requires StreamRuns(gateway, c, w, call, a, before, l) && i < |c.targets| && InLoop(c, l, i, fallback, lastError)
      requires now == w.checkClock(i) && Remaining(c, now) > 0.0
      modifies this`log, limiter, circuits, cache, releases, evidence
      ensures Extends(old(log), log)
      ensures StreamHeard(c, w, i, s) && s.now == now
      ensures Valid() && DidExactly(circuits.settings, mark, log, me, StreamStep(c, l, s).journal)
      ensures Tells(round, c, l, StreamStep(c, l, s))
      ensures StreamStep(c, l, s).journal.events == l.journal.events + sent
    {
      hide DidExactly;
      hide Valid;
      hide Foreign;
      hide Enter;
      hide LoopOf;
      hide StreamLoop;
      hide AttemptBudgetMs;
      hide Remaining;
      var route := c.targets[i].route;
      var budget := AttemptBudgetMs(Remaining(c, now));
      var admitted;
      ghost var k;
      admitted, k := BeforeRequest(route.id, w.at(i).asked, w.others(i + 1, 0), me, mark, l.journal);
      if !admitted {
        s := StreamSeen(now, false, [], EndOfStream, 0.0, w.at(i));
        return Fell(CircuitOpen, false), [], s;
      }
      hide StreamStep;
      hide Tells;
      var reply := w.streamReply(i, budget);
      var text, emitted, inputTokens, outputTokens;
      sent, text, emitted, inputTokens, outputTokens := ForwardEvents(route, reply.events);
      var seen := StreamSeen(now, true, reply.events, reply.ending, w.firstDelta(i), w.at(i));
      s := seen;
      if reply.ending.EndOfStream? {
        round, sent := EndStream(c, i, fallback, text, emitted, sent, seen, w, me, mark, k, l, call, a, before);
      } else {
        round := BreakStream(c, i, fallback, emitted, sent, seen, w, me, mark, k, l, call, a, before);
      }
    }

    /** The provider has ended its stream: the whole text is validated. */
    method EndStream(c: Context, i: nat, fallback: nat, text: string, emitted: bool, forwarded: seq<Event>, s: StreamSeen,
                     w: World, me: nat, ghost mark: Log, ghost asked: Journal, ghost l: Loop,
                     ghost call: Call, ghost a: Arrival, ghost before: seq<StreamSeen>)
      returns (round: Round, sent: seq<Event>)
      requires Valid() && Fair(gateway, w, me) && DidExactly(circuits.settings, mark, log, me, asked)
      requires l == StreamLoop(c, before) && Active(c, l) && l.next == i && l.fallback == fallback && Accounted(c, l)
      requires Legal(gateway, Streamed(call, a, before, 0.0)) && Enter(gateway, call, a) == Candidates(c)
      requires Remaining(c, s.now) > 0.0 && s.admitted && s.ending.EndOfStream? && s.at == w.at(i)
      requires asked == l.journal.(circuits := l.journal.circuits + [Asked(c.targets[i].route.id, true, s.at.asked)])
      requires text == TextOf(s.events) && emitted == Emitted(s.events) && forwarded == ForwardAll(c.targets[i].route, s.events)
      modifies this`log, limiter, circuits, cache, releases, evidence
      ensures Extends(old(log), log)
      ensures Valid() && DidExactly(circuits.settings, mark, log, me, StreamStep(c, l, s).journal)
      ensures Tells(round, c, l, StreamStep(c, l, s))
      ensures StreamStep(c, l, s).journal.events == l.journal.events + sent
    {
      hide DidExactly;
      hide Valid;
      hide Foreign;
      hide Enter;
      hide LoopOf;
      hide StreamLoop;
      hide Validate;
      hide AttemptBudgetMs;
      hide Remaining;
      hide ForwardAll;
      hide TextOf;
      hide Emitted;
      hide UsageOf;
      var route := c.targets[i].route;
      ghost var after := StreamStep(c, l, s);
      var v := Validate(c.contract, c.lane.request.responseSchema, text);
      sent := forwarded;
      if v.Violated? {
        if emitted {
          var tasks;
          ghost var k;
          tasks, k := InterruptStream(c, i, fallback, SchemaViolation, SchemaViolation, s.at.measured, w, me, mark, asked, l, call, a, before, s);
          SameMarks(circuits.settings, mark, log, me, k, after.journal);
          return Broke(SchemaViolation, tasks), sent;
        }
        SameMarks(circuits.settings, mark, log, me, asked, after.journal);
        return Fell(SchemaViolation, false), sent;
      }
      if v.Unchecked? {
        SameMarks(circuits.settings, mark, log, me, asked, after.journal);
        return Died, sent;
      }
      var response := StreamedResponse(c, fallback, c.targets[i], s, v);
      var done := Event.Done(route.id, route.provider, route.model, response);
      ghost var admission := Admit(c, l, route, s.now, s.at);
      ghost var j := admission.(events := admission.events + sent);
      SameMarks(circuits.settings, mark, log, me, asked, j);
      assert after == Accept(c, l, j, response, s.at.stored, [done]);
      StreamStepSettles(gateway, call, a, before, s, c, l);
      var tasks := Settle(c, response, i, w, me, mark, j, Streamed(call, a, before + [s], 0.0), after);
      sent := sent + [done];
      return Won(response, tasks), sent;
    }

    /** The provider has failed or run out of time. */
    method BreakStream(c: Context, i: nat, fallback: nat, emitted: bool, sent: seq<Event>, s: StreamSeen,
                       w: World, me: nat, ghost mark: Log, ghost asked: Journal, ghost l: Loop,
                       ghost call: Call, ghost a: Arrival, ghost before: seq<StreamSeen>)
      returns (round: Round)
      requires Valid() && Fair(gateway, w, me) && DidExactly(circuits.settings, mark, log, me, asked)
      requires l == StreamLoop(c, before) && Active(c, l) && l.next == i && l.fallback == fallback && Accounted(c, l)
      requires Legal(gateway, Streamed(call, a, before, 0.0)) && Enter(gateway, call, a) == Candidates(c)
      requires Remaining(c, s.now) > 0.0 && s.admitted && !s.ending.EndOfStream? && s.at == w.at(i)
      requires asked == l.journal.(circuits := l.journal.circuits + [Asked(c.targets[i].route.id, true, s.at.asked)])
      requires emitted == Emitted(s.events) && sent == ForwardAll(c.targets[i].route, s.events)
      modifies this`log, limiter, circuits, cache, releases, evidence
      ensures Extends(old(log), log)
      ensures Valid() && DidExactly(circuits.settings, mark, log, me, StreamStep(c, l, s).journal)
      ensures Tells(round, c, l, StreamStep(c, l, s))
      ensures StreamStep(c, l, s).journal.events == l.journal.events + sent
    {
      hide DidExactly;
      hide Valid;
      hide Foreign;
      hide Enter;
      hide LoopOf;
      hide StreamLoop;
      hide AttemptBudgetMs;
      hide Remaining;
      hide ForwardAll;
      hide Emitted;
      ghost var after := StreamStep(c, l, s);
      ghost var k := Record(c.targets[i].route.id, false, s.at.recorded, w.others(i + 1, 1), me, mark, asked);
      var cause := if s.ending.StreamTimedOut? then ProviderTimeout else ProviderFailure(s.ending.code);
      if emitted {
        var tasks;
        tasks, k := InterruptStream(c, i, fallback, StreamInterrupted, cause, s.at.measured, w, me, mark, k, l, call, a, before, s);
        SameMarks(circuits.settings, mark, log, me, k, after.journal);
        return Broke(StreamInterrupted, tasks);
      }
      SameMarks(circuits.settings, mark, log, me, k, after.journal);
      return Fell(cause, cause == ProviderFailure(INVALID_REQUEST));
    }

    /** A failure after the first delta: its evidence is written and the error raised. */
    method InterruptStream(c: Context, i: nat, fallback: nat, error: Error, cause: Error, measured: real, w: World, me: nat,
                           ghost mark: Log, ghost j: Journal, ghost l: Loop, ghost call: Call, ghost a: Arrival,
                           ghost before: seq<StreamSeen>, ghost s: StreamSeen)
      returns (tasks: seq<Task>, ghost k: Journal)
      requires Valid() && Fair(gateway, w, me) && DidExactly(circuits.settings, mark, log, me, j)
      requires l == StreamLoop(c, before) && Active(c, l) && l.next == i && l.fallback == fallback
      requires Legal(gateway, Streamed(call, a, before, 0.0)) && Enter(gateway, call, a) == Candidates(c)
      requires Quiet(l.journal) && j.writes == [] && exists journal ::
        StreamStep(c, l, s) == Interrupt(c, l, journal, error, cause, c.targets[i].route, measured) && Quiet(journal)
      modifies this`log, limiter, circuits, cache, releases, evidence
      ensures Extends(old(log), log)
      ensures k == j.(rows := j.rows + [ErrorRow(c.lane, c.targets[i].route, error, fallback, (measured - c.started) * 1000.0)])
      ensures Valid() && DidExactly(circuits.settings, mark, log, me, k)
      ensures tasks == StreamStep(c, l, s).journal.tasks
    {
      hide DidExactly;
      hide Valid;
      hide Foreign;
      hide StreamStep;
      hide LoopOf;
      hide Enter;
      StreamStepSettles(gateway, call, a, before, s, c, l);
      ghost var act := Streamed(call, a, before + [s], 0.0);
      var row := ErrorRow(c.lane, c.targets[i].route, error, fallback, (measured - c.started) * 1000.0);
      assert row in LoopOf(gateway, act).journal.rows by { assert LoopOf(gateway, act).journal.rows[0] == row; }
      tasks, k := Fail(c, error, c.targets[i].route, fallback, measured, w.others(i + 1, 2), me, mark, j, act);
    }

    method TryStream(c: Context, w: World, me: nat, ghost mark: Log, ghost call: Call, ghost a: Arrival)
      returns (outcome: Outcome, events: seq<Event>, tasks: seq<Task>, ghost act: Activity)
      requires Valid() && Fair(gateway, w, me) && DidExactly(circuits.settings, mark, log, me, EMPTY_JOURNAL)
      requires Legal(gateway, Streamed(call, a, [], 0.0)) && Enter(gateway, call, a) == Candidates(c)
      requires !c.lane.kind.Evaluation?
      modifies this`log, limiter, circuits, cache, releases, evidence
      ensures Extends(old(log), log)
      ensures Valid() && Legal(gateway, act) && act.Streamed? && act.call == call && act.arrival == a
      ensures Reports(gateway, act, outcome, tasks) && StreamHeardAll(c, w, act.streamed) && act.finishedAt == w.closeClock
      ensures LoopOf(gateway, act).journal.events == events
      ensures DidExactly(circuits.settings, mark, log, me, LoopOf(gateway, act).journal)
    {
      hide DidExactly;
      hide Valid;
      hide Foreign;
      hide Enter;
      hide LoopOf;
      hide StreamStep;
      hide Legal;
      hide Remaining;
      var i, fallback := 0, 0;
      var lastError: Option<Blame> := None;
      events := [];
      ghost var seen: seq<StreamSeen> := [];
      ghost var l := INIT;
      StreamStarts(gateway, c, w, call, a);
      assert Extends(log, log);
      hide Extends;
      hide StreamRuns;
      hide InLoop;
      hide OutOfLoop;
      hide StreamHeard;
      hide StreamHeardAll;
      hide Active;
      hide Tells;
      while i < |c.targets|
        invariant 0 <= i == |seen| <= |c.targets| && Extends(old(log), log)
        invariant Valid() && DidExactly(circuits.settings, mark, log, me, l.journal)
        invariant StreamRuns(gateway, c, w, call, a, seen, l) && InLoop(c, l, i, fallback, lastError)
        invariant events == l.journal.events
      {
        var route := c.targets[i].route;
        var now := w.checkClock(i);
        InLoopIsActive(c, l, i, fallback, lastError);
        if Remaining(c, now) <= 0.0 {
          StreamExpires(gateway, c, w, call, a, seen, l, fallback, lastError);
          seen, l := seen + [StreamSeen(now, false, [], EndOfStream, 0.0, w.at(i))], Expire(l, route);
          if lastError.None? {
            lastError := Some(Blame(ProviderTimeout, route));
            fallback := fallback + 1;
          }
          break;
        }
        var round, sent;
        ghost var s, earlier := *, log;
        round, sent, s := AttemptStream(c, i, fallback, lastError, now, w, me, mark, l, call, a, seen);
        ExtendsFurther(old(log), earlier, log);
        StreamGoesOn(gateway, c, w, call, a, seen, l, s, fallback, lastError, round);
        events := events + sent;
        match round {
          case Won(response, spawned) =>
            act := Streamed(call, a, seen + [s], w.closeClock);
            outcome, tasks := Answer(response), spawned;
            return;
          case Broke(error, spawned) =>
            act := Streamed(call, a, seen + [s], w.closeClock);
            outcome, tasks := Failure(error), spawned;
            return;
          case Died =>
            act := Streamed(call, a, seen + [s], w.closeClock);
            outcome, tasks := Outcome.Crash, [];
            return;
          case Fell(error, last) =>
            lastError := Some(Blame(error, route));
            fallback := fallback + 1;
            seen, l := seen + [s], StreamStep(c, l, s);
            if last {
              break;
            }
        }
        i := i + 1;
      }
      if i == |c.targets| { LoopRanOut(c, l, i, fallback, lastError); }
      ghost var earlier := log;
      outcome, tasks, act := GiveUpStream(c, lastError, fallback, w, me, mark, l, call, a, seen);
      ExtendsFurther(old(log), earlier, log);
    }

    /** The loop has run out of candidates or time, or was told to stop, before any delta. */
    method GiveUpStream(c: Context, lastError: Option<Blame>, fallback: nat, w: World, me: nat,
                        ghost mark: Log, ghost l: Loop, ghost call: Call, ghost a: Arrival, ghost seen: seq<StreamSeen>)
      returns (outcome: Outcome, tasks: seq<Task>, ghost act: Activity)
      requires Valid() && Fair(gateway, w, me) && DidExactly(circuits.settings, mark, log, me, l.journal)
      requires StreamRuns(gateway, c, w, call, a, seen, l) && OutOfLoop(c, l, fallback, lastError)
      modifies this`log, limiter, circuits, cache, releases, evidence
      ensures Extends(old(log), log)
      ensures Valid() && act == Streamed(call, a, seen, w.closeClock) && Legal(gateway, act)
      ensures Reports(gateway, act, outcome, tasks) && LoopOf(gateway, act).journal.events == l.journal.events
      ensures StreamHeardAll(c, w, act.streamed)
      ensures DidExactly(circuits.settings, mark, log, me, LoopOf(gateway, act).journal)
    {
      hide DidExactly;
      hide Valid;
      hide Foreign;
      hide Enter;
      hide LoopOf;
      hide StreamLoop;
      hide StreamHeardAll;
      hide Close;
      var now := w.closeClock;
      act := Streamed(call, a, seen, now);
      ClosedStream(gateway, call, a, seen, now, c);
      LoopHasBlame(gateway, call, a, c, l);
      hide Accounted;
      var error;
      error, tasks := Conclude(c, lastError, fallback, now, w.others(|c.targets| + 1, 0), me, mark, l, act);
      outcome := Failure(error);
    }

    /** A cache hit as a stream: its three events, and its evidence before the last one. */
    method StreamHit(lane: Lane, response: Response, waiting: Log, ghost act: Activity, me: nat, ghost mark: Log)
      returns (events: seq<Event>)
      requires Valid() && Foreign(gateway, waiting, me) && DidExactly(circuits.settings, mark, log, me, EMPTY_JOURNAL)
      requires Legal(gateway, act) && LoopOf(gateway, act) == HitLoop(lane, response, HitEvents(response))
      modifies this`log, limiter, circuits, cache, releases, evidence
      ensures Extends(old(log), log)
      ensures Valid() && DidExactly(circuits.settings, mark, log, me, LoopOf(gateway, act).journal)
      ensures events == HitEvents(response)
    {
      hide DidExactly;
      hide Valid;
      hide Foreign;
      hide LoopOf;
      events := [Event.Start(response.routeId, response.provider, response.model)];
      events := events + [Event.Delta(response.routeId, response.provider, response.model, response.text)];
      var row := ResponseRow(lane, response);
      assert row in LoopOf(gateway, act).journal.rows;
      ghost var k := WriteRow(row, waiting, act, me, mark, EMPTY_JOURNAL);
      SameMarks(circuits.settings, mark, log, me, k, LoopOf(gateway, act).journal);
      events := events + [Event.Done(response.routeId, response.provider, response.model, response)];
    }

    method Stream(call: Call, w: World, me: nat)
      returns (outcome: Outcome, events: seq<Event>, tasks: seq<Task>, ghost act: Activity, ghost arrived: Log)
      requires Valid() && Fair(gateway, w, me) && call.kind.User? && call.request.Valid()
      modifies this`log, limiter, circuits, cache, releases, evidence
      ensures Extends(old(log), log)
      ensures Valid() && Legal(gateway, act) && act.Streamed? && act.call == call
      ensures Reports(gateway, act, outcome, tasks) && LoopOf(gateway, act).journal.events == events
      ensures Extends(old(log), arrived) && Truthful(gateway, Settings(), w, old(log), arrived, me, act)
      ensures DidExactly(circuits.settings, arrived, log, me, LoopOf(gateway, act).journal)
      ensures outcome.Answer? ==> Served(gateway, act, outcome.response) && Delivered(gateway, w, act, outcome.response)
    {
      hide DidExactly;
      hide Foreign;
      hide LoopOf;
      hide Enter;
      hide Informed;
      hide Extends;
      hide RelaysWorld;
      hide RelaysHit;
      assert Distinct(RouteIds(gateway.routes));
      hide Valid;
      var entry;
      ghost var a;
      entry, a := Arrive(call, w, me);
      arrived := log;
      ghost var mark := log;
      NoJournalYet(circuits.settings, log, me);
      act := Streamed(call, a, [], 0.0);
      match entry {
        case Rejected(error) =>
          RejectedStream(gateway, call, a, error);
          SameMarks(circuits.settings, mark, log, me, EMPTY_JOURNAL, LoopOf(gateway, act).journal);
          return Failure(error), [], [], act, arrived;
        case CacheHit(lane, response) =>
          HitStream(gateway, call, a, lane, response);
          HitIsDelivered(gateway, w, act);
          events := StreamHit(lane, response, w.others(0, 4), act, me, mark);
          ExtendsFurther(old(log), arrived, log);
          return Answer(response), events, PostResponse(lane), act, arrived;
        case Candidates(c) =>
          LaneKind(gateway, call, a, c);
          outcome, events, tasks, act := TryStream(c, w, me, mark, call, a);
          hide StreamHeardAll;
          ExtendsFurther(old(log), arrived, log);
          if outcome.Answer? {
            FreshAnswersFit(gateway, act);
            AnswersComeFromTheWorld(gateway, w, act, c);
          }
      }
    }
  }

  /** How a round of a loop ended. */
  datatype Round =
    | Fell(error: Error, last: bool)
    | Won(response: Response, tasks: seq<Task>)
    | Broke(error: Error, tasks: seq<Task>)
    | Died

  ghost predicate Tells(round: Round, c: Context, l: Loop, after: Loop)
    requires Active(c, l)
  {
    match round
    case Fell(error, last) =>
      && after.next == l.next + 1
      && after.fallback == l.fallback + 1
      && after.lastError == Some(Blame(error, c.targets[l.next].route))
      && after.status == (if last then Broken else Trying)
    case Won(response, tasks) => after.status == Returned(response) && after.journal.tasks == tasks
    case Broke(error, tasks) => after.status == Raised(error) && after.journal.tasks == tasks
    case Died => after.status == Crashed && after.journal.tasks == []
  }

  lemma NoJournalYet(s: CircuitBreaker.Settings, log: Log, me: nat)
    ensures DidExactly(s, log, log, me, EMPTY_JOURNAL)
  {
    DidNothingYet(s, log, me);
    assert MarksOf(EMPTY_JOURNAL) == [];
  }

  /** A record depends on the journal's circuit calls, rows and cache writes only. */
  lemma SameMarks(s: CircuitBreaker.Settings, mark: Log, log: Log, me: nat, j: Journal, k: Journal)
    requires DidExactly(s, mark, log, me, j)
    requires j.circuits == k.circuits && j.rows == k.rows && j.writes == k.writes
    ensures DidExactly(s, mark, log, me, k)
  {
    assert MarksOf(j) == MarksOf(k);
  }

  lemma GenerateSnoc(c: Context, before: seq<Seen>, s: Seen)
    requires Active(c, GenerateLoop(c, before))
    ensures GenerateLoop(c, before + [s]) == GenerateStep(c, GenerateLoop(c, before), s)
  {
    assert (before + [s])[..|before|] == before;
  }

  lemma WonLoop(g: Gateway, call: Call, a: Arrival, before: seq<Seen>, s: Seen, c: Context, l: Loop)
    requires Legal(g, Generated(call, a, before, 0.0)) && Enter(g, call, a) == Candidates(c)
    requires l == GenerateLoop(c, before) && Active(c, l) && GenerateStep(c, l, s).status.Returned?
    ensures Legal(g, Generated(call, a, before + [s], 0.0))
    ensures LoopOf(g, Generated(call, a, before + [s], 0.0)) == GenerateStep(c, l, s)
  {
    GenerateSnoc(c, before, s);
    hide GenerateStep;
    hide Enter;
  }

  /** The call ends as its loop says, with these background tasks. */
  ghost predicate Reports(g: Gateway, act: Activity, outcome: Outcome, tasks: seq<Task>)
    requires Legal(g, act)
  {
    && LoopOf(g, act).status == (match outcome case Answer(r) => Returned(r) case Failure(e) => Raised(e) case Crash => Crashed)
    && LoopOf(g, act).journal.tasks == tasks
  }

  /** What the call has seen is what the world and the shared state have told it. */
  ghost predicate Truthful(g: Gateway, p: Setup, w: World, mark: Log, arrived: Log, me: nat, act: Activity)
    requires Legal(g, act)
  {
    && Informed(g, p, w, mark, arrived, me, act.call, act.arrival)
    && (EntryOf(g, act).Candidates? ==>
          var c := EntryOf(g, act).context;
          && act.finishedAt == w.closeClock
          && match act
             case Generated(_, _, seen, _) => HeardAll(c, w, seen)
             case Streamed(_, _, seen, _) => StreamHeardAll(c, w, seen))
  }

  /** The response fits the request of the call in its lane. */
  ghost predicate Served(g: Gateway, act: Activity, r: Response)
    requires Legal(g, act)
  {
    exists lane :: IsLane(g, act, lane) && Fits(g, lane.request, lane.Namespace(), r)
  }

  lemma GenerateNext(g: Gateway, call: Call, a: Arrival, before: seq<Seen>, s: Seen, c: Context, l: Loop)
    requires Legal(g, Generated(call, a, before, 0.0))
    requires l == GenerateLoop(c, before) && Active(c, l) && Accounted(c, l)
    ensures Legal(g, Generated(call, a, before + [s], 0.0))
    ensures GenerateLoop(c, before + [s]) == GenerateStep(c, l, s) && Accounted(c, GenerateStep(c, l, s))
  {
    GenerateSnoc(c, before, s);
    GenerateStepAccounted(c, l, s);
  }

  /** The loop goes on after i candidates, with these values of its variables. */
  ghost predicate InLoop(c: Context, l: Loop, i: nat, fallback: nat, lastError: Option<Blame>) {
    && Accounted(c, l)
    && l.status.Trying? && l.next == i <= |c.targets|
    && l.fallback == fallback && l.lastError == lastError
  }

  /** The loop is over without a response. */
  ghost predicate OutOfLoop(c: Context, l: Loop, fallback: nat, lastError: Option<Blame>) {
    && Accounted(c, l)
    && (l.status.Broken? || (l.status.Trying? && l.next == |c.targets|))
    && l.fallback == fallback && l.lastError == lastError
  }

  lemma InLoopIsActive(c: Context, l: Loop, i: nat, fallback: nat, lastError: Option<Blame>)
    requires InLoop(c, l, i, fallback, lastError) && i < |c.targets|
    ensures Active(c, l) && l.next == i
  {}

  lemma LoopRanOut(c: Context, l: Loop, i: nat, fallback: nat, lastError: Option<Blame>)
    requires InLoop(c, l, i, fallback, lastError) && i == |c.targets|
    ensures OutOfLoop(c, l, fallback, lastError)
  {}

  lemma ExpiringEndsTheLoop(c: Context, l: Loop, i: nat, fallback: nat, lastError: Option<Blame>)
    requires InLoop(c, l, i, fallback, lastError) && i < |c.targets|
    requires Accounted(c, Expire(l, c.targets[i].route))
    ensures var after := Expire(l, c.targets[i].route);
      && after.journal == l.journal
      && (lastError.None? ==> OutOfLoop(c, after, fallback + 1, Some(Blame(ProviderTimeout, c.targets[i].route))))
      && (lastError.Some? ==> OutOfLoop(c, after, fallback, lastError))
  {
    hide Accounted;
  }

  lemma FallingGoesOn(c: Context, l: Loop, i: nat, fallback: nat, lastError: Option<Blame>, round: Round, after: Loop)
    requires InLoop(c, l, i, fallback, lastError) && i < |c.targets|
    requires round.Fell? && Tells(round, c, l, after) && Accounted(c, after)
    ensures var error := Some(Blame(round.error, c.targets[i].route));
      if round.last then OutOfLoop(c, after, fallback + 1, error) else InLoop(c, after, i + 1, fallback + 1, error)
  {
    hide Accounted;
  }

  /** These rounds are heard, and the loop is what they make of it. */
  ghost predicate GenerateRuns(g: Gateway, c: Context, w: World, call: Call, a: Arrival, seen: seq<Seen>, l: Loop) {
    && Legal(g, Generated(call, a, seen, 0.0)) && Enter(g, call, a) == Candidates(c)
    && HeardAll(c, w, seen)
    && l == GenerateLoop(c, seen)
  }

  lemma GenerateStarts(g: Gateway, c: Context, w: World, call: Call, a: Arrival)
    requires Legal(g, Generated(call, a, [], 0.0)) && Enter(g, call, a) == Candidates(c)
    ensures GenerateRuns(g, c, w, call, a, [], INIT) && InLoop(c, INIT, 0, 0, None)
  {
    hide Enter;
    InitAccounted(c);
  }

  lemma GenerateRunsOn(g: Gateway, c: Context, w: World, call: Call, a: Arrival, seen: seq<Seen>, l: Loop, s: Seen)
    requires GenerateRuns(g, c, w, call, a, seen, l) && Active(c, l) && Accounted(c, l) && Heard(c, w, |seen|, s)
    ensures GenerateRuns(g, c, w, call, a, seen + [s], GenerateStep(c, l, s)) && Accounted(c, GenerateStep(c, l, s))
  {
    GenerateNext(g, call, a, seen, s, c, l);
    HearsMore(c, w, seen, s);
    hide Enter;
    hide HeardAll;
    hide GenerateLoop;
    hide GenerateStep;
    hide Accounted;
  }

  /** The deadline is gone before the next candidate. */
  lemma GenerateExpires(g: Gateway, c: Context, w: World, call: Call, a: Arrival, seen: seq<Seen>, l: Loop,
                        fallback: nat, lastError: Option<Blame>)
    requires GenerateRuns(g, c, w, call, a, seen, l) && |seen| < |c.targets| && InLoop(c, l, |seen|, fallback, lastError)
    requires Remaining(c, w.checkClock(|seen|)) <= 0.0
    ensures var now := w.checkClock(|seen|); var after := Expire(l, c.targets[|seen|].route);
      && after.journal == l.journal
      && GenerateRuns(g, c, w, call, a, seen + [Seen(now, false, TimedOut, w.at(|seen|))], after)
      && (lastError.None? ==> OutOfLoop(c, after, fallback + 1, Some(Blame(ProviderTimeout, c.targets[|seen|].route))))
      && (lastError.Some? ==> OutOfLoop(c, after, fallback, lastError))
  {
    var now := w.checkClock(|seen|);
    var s := Seen(now, false, TimedOut, w.at(|seen|));
    GenerateRunsOn(g, c, w, call, a, seen, l, s);
    hide GenerateRuns;
    assert GenerateStep(c, l, s) == Expire(l, c.targets[|seen|].route);
    ExpiringEndsTheLoop(c, l, |seen|, fallback, lastError);
    hide Accounted;
    hide OutOfLoop;
    hide GenerateStep;
  }

  /** A round past the deadline check. */
  lemma GenerateGoesOn(g: Gateway, c: Context, w: World, call: Call, a: Arrival, seen: seq<Seen>, l: Loop, s: Seen,
                       fallback: nat, lastError: Option<Blame>, round: Round)
    requires GenerateRuns(g, c, w, call, a, seen, l) && |seen| < |c.targets| && InLoop(c, l, |seen|, fallback, lastError)
    requires Heard(c, w, |seen|, s) && Active(c, l) && Tells(round, c, l, GenerateStep(c, l, s))
    ensures GenerateRuns(g, c, w, call, a, seen + [s], GenerateStep(c, l, s))
    ensures match round
      case Fell(error, last) =>
        var after, blame := GenerateStep(c, l, s), Some(Blame(error, c.targets[|seen|].route));
        if last then OutOfLoop(c, after, fallback + 1, blame) else InLoop(c, after, |seen| + 1, fallback + 1, blame)
      case Won(response, tasks) => GenerateSettled(g, c, w, call, a, seen + [s], GenerateStep(c, l, s), Answer(response), tasks)
      case Broke(error, tasks) => GenerateSettled(g, c, w, call, a, seen + [s], GenerateStep(c, l, s), Failure(error), tasks)
      case Died => GenerateSettled(g, c, w, call, a, seen + [s], GenerateStep(c, l, s), Outcome.Crash, [])
  {
    hide GenerateStep;
    hide LoopOf;
    hide Enter;
    hide HeardAll;
    hide GenerateLoop;
    hide Legal;
    hide Accounted;
    GenerateRunsOn(g, c, w, call, a, seen, l, s);
    if round.Fell? {
      FallingGoesOn(c, l, |seen|, fallback, lastError, round, GenerateStep(c, l, s));
    } else {
      GenerateEnds(g, call, a, seen, s, w.closeClock, c, l);
    }
    hide InLoop;
    hide OutOfLoop;
  }

  /** The call is over with these rounds. */
  ghost predicate GenerateSettled(
    g: Gateway, c: Context, w: World, call: Call, a: Arrival, seen: seq<Seen>, after: Loop, outcome: Outcome, tasks: seq<Task>)
  {
    var act := Generated(call, a, seen, w.closeClock);
    && Legal(g, act) && HeardAll(c, w, seen)
    && LoopOf(g, act) == after
    && Reports(g, act, outcome, tasks)
  }

  lemma ClosedGenerate(g: Gateway, call: Call, a: Arrival, seen: seq<Seen>, now: real, c: Context)
    requires Legal(g, Generated(call, a, seen, 0.0)) && Enter(g, call, a) == Candidates(c)
    ensures Legal(g, Generated(call, a, seen, now))
    ensures LoopOf(g, Generated(call, a, seen, now)) == Close(c, GenerateLoop(c, seen), now)
  {
    hide Enter;
    hide Close;
    hide GenerateLoop;
  }

  /** A round that settles the call. */
  lemma GenerateEnds(g: Gateway, call: Call, a: Arrival, seen: seq<Seen>, s: Seen, now: real, c: Context, l: Loop)
    requires Legal(g, Generated(call, a, seen, 0.0)) && Enter(g, call, a) == Candidates(c)
    requires l == GenerateLoop(c, seen) && Active(c, l)
    requires GenerateStep(c, l, s).status.Returned? || GenerateStep(c, l, s).status.Raised? || GenerateStep(c, l, s).status.Crashed?
    ensures Legal(g, Generated(call, a, seen + [s], now))
    ensures LoopOf(g, Generated(call, a, seen + [s], now)) == GenerateStep(c, l, s)
  {
    GenerateSnoc(c, seen, s);
    hide GenerateStep;
    hide GenerateLoop;
    hide Enter;
  }

  lemma LoopHasBlame(g: Gateway, call: Call, a: Arrival, c: Context, l: Loop)
    requires Legal(g, Generated(call, a, [], 0.0)) || Legal(g, Streamed(call, a, [], 0.0))
    requires Enter(g, call, a) == Candidates(c)
    requires Accounted(c, l) && (l.status.Broken? || (l.status.Trying? && l.next == |c.targets|))
    ensures l.lastError.Some? && Quiet(l.journal) && !Active(c, l)
    ensures forall now :: Close(c, l, now) == Finish(c, l, now)
  {
    EnterIsReady(g, call, a);
  }

  lemma RejectedGenerate(g: Gateway, call: Call, a: Arrival, error: Error)
    requires Legal(g, Generated(call, a, [], 0.0)) && Enter(g, call, a) == Rejected(error)
    ensures LoopOf(g, Generated(call, a, [], 0.0)) == INIT.(status := Raised(error))
  {
    hide Enter;
  }

  lemma HitGenerate(g: Gateway, call: Call, a: Arrival, lane: Lane, r: Response)
    requires Legal(g, Generated(call, a, [], 0.0)) && Enter(g, call, a) == CacheHit(lane, r)
    ensures LoopOf(g, Generated(call, a, [], 0.0)) == HitLoop(lane, r, [])
    ensures IsLane(g, Generated(call, a, [], 0.0), lane)
  {
    LaneOfEntry(g, Generated(call, a, [], 0.0));
    hide Enter;
  }

  lemma FreshAnswersFit(g: Gateway, act: Activity)
    requires Legal(g, act) && EntryOf(g, act).Candidates? && LoopOf(g, act).status.Returned?
    ensures Served(g, act, LoopOf(g, act).status.response)
  {
    hide LoopOf;
    hide EntryOf;
    JournalWrites(g, act);
    LaneOfEntry(g, act);
    var c := EntryOf(g, act).context;
    AcceptedFits(g, c, TermsOf(act.call, act.arrival, c.lane.request), LoopOf(g, act));
  }

  lemma StreamSnoc(c: Context, before: seq<StreamSeen>, s: StreamSeen)
    requires Active(c, StreamLoop(c, before))
    ensures StreamLoop(c, before + [s]) == StreamStep(c, StreamLoop(c, before), s)
  {
    assert (before + [s])[..|before|] == before;
  }

  lemma StreamStepSettles(g: Gateway, call: Call, a: Arrival, before: seq<StreamSeen>, s: StreamSeen, c: Context, l: Loop)
    requires Legal(g, Streamed(call, a, before, 0.0)) && Enter(g, call, a) == Candidates(c)
    requires l == StreamLoop(c, before) && Active(c, l)
    requires StreamStep(c, l, s).status.Returned? || StreamStep(c, l, s).status.Raised? || StreamStep(c, l, s).status.Crashed?
    ensures Legal(g, Streamed(call, a, before + [s], 0.0))
    ensures LoopOf(g, Streamed(call, a, before + [s], 0.0)) == StreamStep(c, l, s)
  {
    StreamSnoc(c, before, s);
    hide StreamStep;
    hide Enter;
  }

  lemma StreamNext(g: Gateway, call: Call, a: Arrival, before: seq<StreamSeen>, s: StreamSeen, c: Context, l: Loop)
    requires Legal(g, Streamed(call, a, before, 0.0))
    requires l == StreamLoop(c, before) && Active(c, l) && Accounted(c, l)
    ensures Legal(g, Streamed(call, a, before + [s], 0.0))
    ensures StreamLoop(c, before + [s]) == StreamStep(c, l, s) && Accounted(c, StreamStep(c, l, s))
  {
    StreamSnoc(c, before, s);
    StreamStepAccounted(c, l, s);
  }

  ghost predicate StreamRuns(g: Gateway, c: Context, w: World, call: Call, a: Arrival, seen: seq<StreamSeen>, l: Loop) {
    && Legal(g, Streamed(call, a, seen, 0.0)) && Enter(g, call, a) == Candidates(c)
    && StreamHeardAll(c, w, seen)
    && l == StreamLoop(c, seen)
  }

  lemma StreamStarts(g: Gateway, c: Context, w: World, call: Call, a: Arrival)
    requires Legal(g, Streamed(call, a, [], 0.0)) && Enter(g, call, a) == Candidates(c)
    ensures StreamRuns(g, c, w, call, a, [], INIT) && InLoop(c, INIT, 0, 0, None)
  {
    hide Enter;
    InitAccounted(c);
  }

  lemma StreamRunsOn(g: Gateway, c: Context, w: World, call: Call, a: Arrival, seen: seq<StreamSeen>, l: Loop, s: StreamSeen)
    requires StreamRuns(g, c, w, call, a, seen, l) && Active(c, l) && Accounted(c, l) && StreamHeard(c, w, |seen|, s)
    ensures StreamRuns(g, c, w, call, a, seen + [s], StreamStep(c, l, s)) && Accounted(c, StreamStep(c, l, s))
  {
    StreamNext(g, call, a, seen, s, c, l);
    StreamHearsMore(c, w, seen, s);
    hide Enter;
    hide StreamHeardAll;
    hide StreamLoop;
    hide StreamStep;
    hide Accounted;
  }

  lemma StreamExpires(g: Gateway, c: Context, w: World, call: Call, a: Arrival, seen: seq<StreamSeen>, l: Loop,
                      fallback: nat, lastError: Option<Blame>)
    requires StreamRuns(g, c, w, call, a, seen, l) && |seen| < |c.targets| && InLoop(c, l, |seen|, fallback, lastError)
    requires Remaining(c, w.checkClock(|seen|)) <= 0.0
    ensures var now := w.checkClock(|seen|); var after := Expire(l, c.targets[|seen|].route);
      && after.journal == l.journal
      && StreamRuns(g, c, w, call, a, seen + [StreamSeen(now, false, [], EndOfStream, 0.0, w.at(|seen|))], after)
      && (lastError.None? ==> OutOfLoop(c, after, fallback + 1, Some(Blame(ProviderTimeout, c.targets[|seen|].route))))
      && (lastError.Some? ==> OutOfLoop(c, after, fallback, lastError))
  {
    var now := w.checkClock(|seen|);
    var s := StreamSeen(now, false, [], EndOfStream, 0.0, w.at(|seen|));
    StreamRunsOn(g, c, w, call, a, seen, l, s);
    hide StreamRuns;
    assert StreamStep(c, l, s) == Expire(l, c.targets[|seen|].route);
    ExpiringEndsTheLoop(c, l, |seen|, fallback, lastError);
    hide Accounted;
    hide OutOfLoop;
    hide StreamStep;
  }

  lemma StreamGoesOn(g: Gateway, c: Context, w: World, call: Call, a: Arrival, seen: seq<StreamSeen>, l: Loop, s: StreamSeen,
                     fallback: nat, lastError: Option<Blame>, round: Round)
    requires StreamRuns(g, c, w, call, a, seen, l) && |seen| < |c.targets| && InLoop(c, l, |seen|, fallback, lastError)
    requires StreamHeard(c, w, |seen|, s) && Active(c, l) && Tells(round, c, l, StreamStep(c, l, s))
    ensures StreamRuns(g, c, w, call, a, seen + [s], StreamStep(c, l, s))
    ensures match round
      case Fell(error, last) =>
        var after, blame := StreamStep(c, l, s), Some(Blame(error, c.targets[|seen|].route));
        if last then OutOfLoop(c, after, fallback + 1, blame) else InLoop(c, after, |seen| + 1, fallback + 1, blame)
      case Won(response, tasks) => StreamSettled(g, c, w, call, a, seen + [s], StreamStep(c, l, s), Answer(response), tasks)
      case Broke(error, tasks) => StreamSettled(g, c, w, call, a, seen + [s], StreamStep(c, l, s), Failure(error), tasks)
      case Died => StreamSettled(g, c, w, call, a, seen + [s], StreamStep(c, l, s), Outcome.Crash, [])
  {
    hide StreamStep;
    hide LoopOf;
    hide Enter;
    hide StreamHeardAll;
    hide StreamLoop;
    hide Legal;
    hide Accounted;
    StreamRunsOn(g, c, w, call, a, seen, l, s);
    if round.Fell? {
      FallingGoesOn(c, l, |seen|, fallback, lastError, round, StreamStep(c, l, s));
    } else {
      StreamEnds(g, call, a, seen, s, w.closeClock, c, l);
    }
    hide InLoop;
    hide OutOfLoop;
  }

  ghost predicate StreamSettled(
    g: Gateway, c: Context, w: World, call: Call, a: Arrival, seen: seq<StreamSeen>, after: Loop, outcome: Outcome, tasks: seq<Task>)
  {
    var act := Streamed(call, a, seen, w.closeClock);
    && Legal(g, act) && StreamHeardAll(c, w, seen)
    && LoopOf(g, act) == after
    && Reports(g, act, outcome, tasks)
  }

  lemma ClosedStream(g: Gateway, call: Call, a: Arrival, seen: seq<StreamSeen>, now: real, c: Context)
    requires Legal(g, Streamed(call, a, seen, 0.0)) && Enter(g, call, a) == Candidates(c)
    ensures Legal(g, Streamed(call, a, seen, now))
    ensures LoopOf(g, Streamed(call, a, seen, now)) == Close(c, StreamLoop(c, seen), now)
  {
    hide Enter;
    hide Close;
    hide StreamLoop;
  }

  lemma StreamEnds(g: Gateway, call: Call, a: Arrival, seen: seq<StreamSeen>, s: StreamSeen, now: real, c: Context, l: Loop)
    requires Legal(g, Streamed(call, a, seen, 0.0)) && Enter(g, call, a) == Candidates(c)
    requires l == StreamLoop(c, seen) && Active(c, l)
    requires StreamStep(c, l, s).status.Returned? || StreamStep(c, l, s).status.Raised? || StreamStep(c, l, s).status.Crashed?
    ensures Legal(g, Streamed(call, a, seen + [s], now))
    ensures LoopOf(g, Streamed(call, a, seen + [s], now)) == StreamStep(c, l, s)
  {
    StreamSnoc(c, seen, s);
    hide StreamStep;
    hide StreamLoop;
    hide Enter;
  }

  lemma RejectedStream(g: Gateway, call: Call, a: Arrival, error: Error)
    requires Legal(g, Streamed(call, a, [], 0.0)) && Enter(g, call, a) == Rejected(error)
    ensures LoopOf(g, Streamed(call, a, [], 0.0)) == INIT.(status := Raised(error))
  {
    hide Enter;
  }

  lemma HitStream(g: Gateway, call: Call, a: Arrival, lane: Lane, r: Response)
    requires Legal(g, Streamed(call, a, [], 0.0)) && Enter(g, call, a) == CacheHit(lane, r)
    ensures LoopOf(g, Streamed(call, a, [], 0.0)) == HitLoop(lane, r, HitEvents(r))
    ensures IsLane(g, Streamed(call, a, [], 0.0), lane)
  {
    LaneOfEntry(g, Streamed(call, a, [], 0.0));
    hide Enter;
  }

  lemma LaneKind(g: Gateway, call: Call, a: Arrival, c: Context)
    requires call.request.Valid() && Distinct(RouteIds(g.routes)) && Enter(g, call, a) == Candidates(c)
    ensures c.lane.kind == call.kind
  {
    EnterIsReady(g, call, a);
  }

  lemma {:induction false} QueriesAreGenuine(g: Gateway, log: Log, me: nat, ids: seq<RouteId>, clock: RouteId -> real)
    requires GenuineLog(g, log)
    ensures GenuineLog(g, log + Queries(me, ids, clock))
  {
    hide Genuine;
    if ids != [] {
      QueriesAreGenuine(g, log, me, ids[..|ids| - 1], clock);
      var x := Logged(me, OnCircuits(CircuitBreaker.On(ids[|ids| - 1], CircuitBreaker.Query(clock(ids[|ids| - 1])))));
      GenuineByKind(g, x.effect);
      assert log + Queries(me, ids, clock) == log + Queries(me, ids[..|ids| - 1], clock) + [x];
    }
  }

  lemma RewritingKeepsFit(g: Gateway, lane: Lane, cached: Response, response: Response)
    requires Fits(g, lane.request, lane.Namespace(), cached)
    requires response.text == cached.text && response.routeId == cached.routeId
    ensures Fits(g, lane.request, lane.Namespace(), response)
  {}
}
