/**
  The log of the shared state as a history: what holds between the effects of all the
  calls, whoever they belong to, and what follows for one call from its clock.
 */
module Histories {
  import opened Contracts
  import opened Domain
  import opened Engine
  import opened EngineProofs
  import opened Runs
  import opened SharedLog
  import opened Sightings
  import opened Service
  import Cache
  import CircuitBreaker
  import LimiterClock
  import RateLimit
  import Router

  // -------------------------------------------------------------------------
  // Probes

  /** What an effect does to the circuit of one route. */
  function OpsOf(x: Logged, route: RouteId): seq<CircuitBreaker.Op> {
    if !x.effect.OnCircuits? then []
    else
      match x.effect.call
      case On(r, op) => if r == route then [op] else []
      case Snapshot(clock) => [CircuitBreaker.Query(clock(route))]
  }

  /** The history of one circuit. */
  function RouteOps(log: Log, route: RouteId): seq<CircuitBreaker.Op> {
    CircuitBreaker.Only(CircuitCalls(log), route)
  }

  /** Here some call is admitted by a half-open circuit: it probes the route. */
  ghost predicate ProbeAt(s: CircuitBreaker.Settings, log: Log, i: nat, route: RouteId) {
    && i < |log|
    && log[i].effect.OnCircuits? && log[i].effect.call.On?
    && log[i].effect.call.route == route && log[i].effect.call.op.Before?
    && CircuitBreaker.Admit(
         s, CircuitBreaker.At(CircuitBreaker.ReplayAll(s, CircuitCalls(log[..i])), route), log[i].effect.call.op.now)
       == CircuitBreaker.Admitted(CircuitBreaker.HalfOpen)
  }

  /** Here some call records an outcome on this route. */
  ghost predicate RecordAt(log: Log, k: nat, route: RouteId) {
    && k < |log|
    && log[k].effect.OnCircuits? && log[k].effect.call.On?
    && log[k].effect.call.route == route && CircuitBreaker.IsRecord(log[k].effect.call.op)
  }

  lemma RouteOpsGrow(log: Log, route: RouteId, n: nat)
    requires n < |log|
    ensures RouteOps(log[..n + 1], route) == RouteOps(log[..n], route) + OpsOf(log[n], route)
  {
    assert log[..n + 1] == log[..n] + [log[n]];
    LogGrows(log[..n], log[n]);
    var calls := CircuitCalls(log[..n]);
    if log[n].effect.OnCircuits? {
      assert (calls + [log[n].effect.call])[..|calls|] == calls;
    }
  }

  lemma {:induction false} RouteOpsExtend(log: Log, route: RouteId, m: nat, n: nat)
    requires m <= n <= |log|
    ensures RouteOps(log[..m], route) <= RouteOps(log[..n], route)
  {
    hide RouteOps;
    if m < n {
      RouteOpsExtend(log, route, m, n - 1);
      RouteOpsGrow(log, route, n - 1);
    }
  }

  /** Every operation in the history of a circuit comes from an effect in the log. */
  lemma {:induction false} OpIsInTheLog(log: Log, route: RouteId, m: nat, n: nat, q: nat) returns (k: nat)
    requires m <= n <= |log| && |RouteOps(log[..m], route)| <= q < |RouteOps(log[..n], route)|
    ensures m <= k < n && OpsOf(log[k], route) == [RouteOps(log[..n], route)[q]]
  {
    hide RouteOps;
    RouteOpsGrow(log, route, n - 1);
    if q < |RouteOps(log[..n - 1], route)| {
      k := OpIsInTheLog(log, route, m, n - 1, q);
    } else {
      k := n - 1;
    }
  }

  lemma ProbeInHistory(s: CircuitBreaker.Settings, log: Log, i: nat, route: RouteId)
    requires ProbeAt(s, log, i, route)
    ensures CircuitBreaker.IsProbe(s, RouteOps(log, route), |RouteOps(log[..i], route)|)
    ensures |RouteOps(log[..i + 1], route)| == |RouteOps(log[..i], route)| + 1
  {
    RouteOpsGrow(log, route, i);
    RouteOpsExtend(log, route, i + 1, |log|);
    assert log[..|log|] == log;
    CircuitBreaker.RoutesAreIndependent(s, CircuitCalls(log[..i]), route);
    var h, before := RouteOps(log, route), RouteOps(log[..i], route);
    assert h[..|before|] == before;
  }

  /**
    At most one probe at a time, over all calls: between any two effects that are
    admitted by the half-open circuit of a route, some call has recorded an outcome
    on that route.
   */
  lemma ProbesOfTheLogAreSeparated(s: CircuitBreaker.Settings, log: Log, i: nat, j: nat, route: RouteId)
    requires i < j && ProbeAt(s, log, i, route) && ProbeAt(s, log, j, route)
    ensures exists k :: i < k < j && RecordAt(log, k, route)
  {
    var h := RouteOps(log, route);
    var a, b := |RouteOps(log[..i], route)|, |RouteOps(log[..j], route)|;
    ProbeInHistory(s, log, i, route);
    ProbeInHistory(s, log, j, route);
    hide ProbeAt;
    hide RouteOps;
    RouteOpsExtend(log, route, i + 1, j);
    RouteOpsExtend(log, route, j, |log|);
    assert log[..|log|] == log;
    CircuitBreaker.ProbesAreSeparatedByRecords(s, h, a, b);
    hide CircuitBreaker.IsProbe;
    var q :| a < q < b && CircuitBreaker.IsRecord(h[q]);
    var k := OpIsInTheLog(log, route, i + 1, j, q);
    assert RecordAt(log, k, route);
  }

  // -------------------------------------------------------------------------
  // Tokens

  /** Here a user call of this tenant gets its token, at a reading in the window. */
  ghost predicate AdmittedAt(p: Setup, log: Log, at: nat, tenant: string, from: real, to: real) {
    && at < |log|
    && log[at].effect.OnLimiter?
    && var request := log[at].effect.request;
       && request.key == tenant && request.tokens == 1.0 && from <= request.now <= to
       && RateLimit.Answer(p.limits, RateLimit.After(p.limits, LimiterCalls(log[..at])), request).Granted?
  }

  ghost function Admissions(p: Setup, log: Log, tenant: string, from: real, to: real): set<nat> {
    set at: nat | at < |log| && AdmittedAt(p, log, at, tenant, from, to)
  }

  /** A call that is told that it has its token is counted. */
  lemma AdmittedCallsAreCounted(p: Setup, log: Log, at: nat, me: nat, tenant: string, now: real, from: real, to: real)
    requires TokenAt(p, log, at, me, tenant, now, true) && from <= now <= to
    ensures at in Admissions(p, log, tenant, from, to)
  {
    assert AdmittedAt(p, log, at, tenant, from, to);
  }

  lemma AdmissionsGrow(p: Setup, log: Log, tenant: string, from: real, to: real)
    requires log != []
    ensures var before := log[..|log| - 1];
      Admissions(p, log, tenant, from, to) == Admissions(p, before, tenant, from, to)
        + if AdmittedAt(p, log, |before|, tenant, from, to) then {|before|} else {}
  {
    var before := log[..|log| - 1];
    hide RateLimit.Answer;
    hide RateLimit.After;
    hide LimiterCalls;
    forall at: nat | at < |before|
      ensures AdmittedAt(p, log, at, tenant, from, to) <==> AdmittedAt(p, before, at, tenant, from, to)
    {
      assert before[..at] == log[..at];
    }
  }

  lemma {:induction false} AdmissionsAreGranted(p: Setup, log: Log, tenant: string, from: real, to: real)
    ensures |Admissions(p, log, tenant, from, to)| as real
            <= RateLimit.GrantedIn(p.limits, LimiterCalls(log), tenant, from, to)
  {
    hide AdmittedAt;
    hide Admissions;
    hide RateLimit.GrantedIn;
    if log == [] {
      NoAdmissionsYet(p, tenant, from, to);
      return;
    }
    var before, x := log[..|log| - 1], log[|log| - 1];
    AdmissionsAreGranted(p, before, tenant, from, to);
    AdmissionsGrow(p, log, tenant, from, to);
    GrantsGrow(p, log, tenant, from, to);
    AdmissionsAreEarlier(p, before, tenant, from, to);
  }

  lemma AdmissionsAreEarlier(p: Setup, log: Log, tenant: string, from: real, to: real)
    ensures |log| !in Admissions(p, log, tenant, from, to)
  {}

  lemma NoAdmissionsYet(p: Setup, tenant: string, from: real, to: real)
    ensures Admissions(p, [], tenant, from, to) == {}
    ensures RateLimit.GrantedIn(p.limits, LimiterCalls([]), tenant, from, to) == 0.0
  {}

  /** What one effect adds to the tokens granted is at least the token of a call that is admitted there. */
  lemma GrantsGrow(p: Setup, log: Log, tenant: string, from: real, to: real)
    requires log != []
    ensures var before := log[..|log| - 1];
      RateLimit.GrantedIn(p.limits, LimiterCalls(log), tenant, from, to)
      >= RateLimit.GrantedIn(p.limits, LimiterCalls(before), tenant, from, to)
         + if AdmittedAt(p, log, |before|, tenant, from, to) then 1.0 else 0.0
  {
    hide RateLimit.Answer;
    hide RateLimit.After;
    hide RateLimit.GrantedIn;
    var before, x := log[..|log| - 1], log[|log| - 1];
    assert log[..|before|] == before;
    if x.effect.OnLimiter? {
      GrantedSnoc(p.limits, LimiterCalls(before), x.effect.request, tenant, from, to);
    } else {
      assert LimiterCalls(log) == LimiterCalls(before);
    }
  }

  lemma GrantedSnoc(s: RateLimit.Limits, run: seq<RateLimit.Call>, c: RateLimit.Call, key: string, from: real, to: real)
    ensures var counts := c.key == key && from <= c.now <= to && RateLimit.Answer(s, RateLimit.After(s, run), c).Granted?;
      && RateLimit.GrantedIn(s, run + [c], key, from, to)
         == RateLimit.GrantedIn(s, run, key, from, to) + (if counts then c.tokens else 0.0)
      && (counts ==> c.tokens > 0.0)
  {
    assert (run + [c])[..|run|] == run;
    RateLimit.GrantedMeansEnough(s, RateLimit.After(s, run), c);
    hide RateLimit.Answer;
    hide RateLimit.After;
  }

  /**
    Over all calls: of the user calls of one tenant, no more are admitted at readings
    in any window than a burst plus the refill of that window, when the readings that
    the limiter takes for this tenant are steady.
   */
  lemma AdmissionsAreBounded(p: Setup, log: Log, tenant: string, from: real, to: real)
    requires LimiterClock.Steady(LimiterClock.Readings(RateLimit.OnlyKey(LimiterCalls(log), tenant))) && from <= to
    ensures |Admissions(p, log, tenant, from, to)| as real <= LimiterClock.Allowance(p.limits, to - from)
  {
    hide Admissions;
    hide RateLimit.GrantedIn;
    hide LimiterClock.Steady;
    hide LimiterClock.Allowance;
    AdmissionsAreGranted(p, log, tenant, from, to);
    LimiterClock.SteadyClockBounds(p.limits, LimiterCalls(log), tenant, from, to);
  }

  // -------------------------------------------------------------------------
  // Deadlines

  /** In this world the clock does not go back while the call runs, and provider timeouts are exact. */
  ghost predicate Punctual(c: Context, w: World) {
    && w.started <= w.checkClock(0)
    && forall i: nat ::
         && w.checkClock(i) <= w.at(i).asked <= w.at(i).called <= w.at(i).ended <= w.checkClock(i + 1)
         && (Remaining(c, w.checkClock(i)) > 0.0 ==> w.at(i).ended <= w.at(i).called + Remaining(c, w.checkClock(i)))
  }

  lemma {:induction false} PunctualIsTimed(c: Context, w: World, seen: seq<Seen>)
    requires Punctual(c, w) && c.started == w.started && HeardAll(c, w, seen)
    ensures Timed(c, seen) && EndOf(c, seen) <= w.checkClock(|seen|)
  {
    hide Remaining;
    if seen != [] {
      var before, s := seen[..|seen| - 1], seen[|seen| - 1];
      assert HeardAll(c, w, before);
      PunctualIsTimed(c, w, before);
      assert Heard(c, w, |before|, s);
    }
  }

  lemma {:induction false} PunctualIsStreamTimed(c: Context, w: World, seen: seq<StreamSeen>)
    requires Punctual(c, w) && c.started == w.started && StreamHeardAll(c, w, seen)
    ensures StreamTimed(c, seen) && StreamEndOf(c, seen) <= w.checkClock(|seen|)
  {
    hide Remaining;
    if seen != [] {
      var before, s := seen[..|seen| - 1], seen[|seen| - 1];
      assert StreamHeardAll(c, w, before);
      PunctualIsStreamTimed(c, w, before);
      assert StreamHeard(c, w, |before|, s);
    }
  }

  /** When the last round of a call was over. */
  function LastRoundEnd(c: Context, act: Activity): real {
    match act
    case Generated(_, _, seen, _) => EndOf(c, seen)
    case Streamed(_, _, seen, _) => StreamEndOf(c, seen)
  }

  function LoopCalls(c: Context, act: Activity): seq<ProviderCall> {
    match act
    case Generated(_, _, seen, _) => GenerateLoop(c, seen).journal.calls
    case Streamed(_, _, seen, _) => StreamLoop(c, seen).journal.calls
  }

  /** The candidates of a call are tried within the caller's time. */
  lemma DeadlineOfCall(g: Gateway, act: Activity, c: Context)
    requires Legal(g, act) && EntryOf(g, act) == Candidates(c)
    ensures c.started == act.arrival.started
    ensures c.lane.request.maxLatencyMs == act.call.request.maxLatencyMs >= 50
    ensures LoopOf(g, act).journal.calls == LoopCalls(c, act)
  {
    hide GenerateLoop;
    hide StreamLoop;
    hide Router.DecisionFor;
    hide Router.OrderedCandidates;
    hide AssignmentOf;
  }

  /**
    Every call of the gateway whose world is punctual: each of its provider attempts
    is decided on before the caller's deadline, reckoned from the start of the call,
    has exactly the rest as its timeout, and ends by the deadline, but for the time
    between the decision and the call.
   */
  lemma CallsMeetTheirDeadline(g: Gateway, p: Setup, w: World, mark: Log, arrived: Log, me: nat, act: Activity, c: Context)
    requires Legal(g, act) && Truthful(g, p, w, mark, arrived, me, act) && EntryOf(g, act) == Candidates(c)
    requires Punctual(c, w)
    ensures OnTime(c, LoopOf(g, act).journal.calls, LastRoundEnd(c, act))
    ensures Deadline(c) == w.started + act.call.request.maxLatencyMs as real / 1000.0
  {
    DeadlineOfCall(g, act, c);
    hide LoopOf;
    hide EntryOf;
    hide Did;
    hide OnTime;
    hide Punctual;
    match act
    case Generated(_, _, seen, _) =>
      PunctualIsTimed(c, w, seen);
      GenerateMeetsDeadline(c, seen);
    case Streamed(_, _, seen, _) =>
      PunctualIsStreamTimed(c, w, seen);
      StreamMeetsDeadline(c, seen);
  }

  // -------------------------------------------------------------------------
  // Policy

  /** In any state that the gateway reaches, its cache answers a reader only from routes that suit the reader. */
  lemma SyncedCacheKeepsThePolicy(g: Gateway, p: Setup, state: Shared, log: Log, reader: Request, namespace: string, now: real)
    requires InSync(g, p, state, log) && Cache.Hit(p.cache, state.entries, reader, namespace, now).Some?
    ensures FromSuitable(g, reader, Cache.Hit(p.cache, state.entries, reader, namespace, now).value)
  {
    SyncedCacheIsSafe(g, p, state, log);
    hide InSync;
    hide Cache.Hit;
    FittingIsSuitable(g, reader, namespace, Cache.Hit(p.cache, state.entries, reader, namespace, now).value);
  }

  /** Whatever a call of the gateway answers comes from a route that suits the request of its lane. */
  lemma AnswersKeepThePolicy(g: Gateway, act: Activity, r: Response)
    requires Legal(g, act) && Served(g, act, r)
    ensures exists lane :: IsLane(g, act, lane) && FromSuitable(g, lane.request, r)
  {
    var lane :| IsLane(g, act, lane) && Fits(g, lane.request, lane.Namespace(), r);
    FittingIsSuitable(g, lane.request, lane.Namespace(), r);
  }
}
