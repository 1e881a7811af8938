/**
  The log of the state that calls share. Every collaborator guards its state with a
  lock, so what happens to it is a sequence of atomic effects, by whichever call
  happens to run. The shared state is the replay of that sequence.
 */
module SharedLog {
  import opened Domain
  import opened Engine
  import Cache
  import CircuitBreaker
  import RateLimit
  import Release
  import Router

  datatype Effect =
    | OnCircuits(call: CircuitBreaker.Call)
    | OnCache(op: Cache.Op)
    | OnLedger(row: Metric)
    | OnLimiter(request: RateLimit.Call)
    | OnReleases(command: Release.Command)
    | AskedLive(name: string) // which release is live

  /** An effect and the call that it belongs to. */
  datatype Logged = Logged(owner: nat, effect: Effect)

  type Log = seq<Logged>

  /** The log only grows. */
  ghost predicate Extends(before: Log, log: Log) { before <= log }

  lemma ExtendsFurther(before: Log, log: Log, more: Log)
    requires Extends(before, log) && Extends(log, more)
    ensures Extends(before, more)
  {}

  function CircuitCalls(log: Log): seq<CircuitBreaker.Call> {
    if log == [] then []
    else CircuitCalls(log[..|log| - 1])
         + if log[|log| - 1].effect.OnCircuits? then [log[|log| - 1].effect.call] else []
  }

  function CacheOps(log: Log): seq<Cache.Op> {
    if log == [] then []
    else CacheOps(log[..|log| - 1]) + if log[|log| - 1].effect.OnCache? then [log[|log| - 1].effect.op] else []
  }

  function LedgerRows(log: Log): seq<Metric> {
    if log == [] then []
    else LedgerRows(log[..|log| - 1]) + if log[|log| - 1].effect.OnLedger? then [log[|log| - 1].effect.row] else []
  }

  function LimiterCalls(log: Log): seq<RateLimit.Call> {
    if log == [] then []
    else LimiterCalls(log[..|log| - 1])
         + if log[|log| - 1].effect.OnLimiter? then [log[|log| - 1].effect.request] else []
  }

  function Commands(log: Log): seq<Release.Command> {
    if log == [] then []
    else Commands(log[..|log| - 1])
         + if log[|log| - 1].effect.OnReleases? then [log[|log| - 1].effect.command] else []
  }

  // -------------------------------------------------------------------------
  // What one call has done

  /** An effect as the call that has it knows it: a circuit call with its outcome, a row, a write, or something it asked. */
  datatype Mark = OfCircuit(entry: CircuitCall) | OfRow(row: Metric) | OfWrite(write: CacheWrite) | Inquiry(effect: Effect)

  function MarkOf(s: CircuitBreaker.Settings, before: Log, effect: Effect): Mark {
    match effect
    case OnCircuits(On(route, Before(now))) =>
      var circuit := CircuitBreaker.At(CircuitBreaker.ReplayAll(s, CircuitCalls(before)), route);
      OfCircuit(Asked(route, CircuitBreaker.Admit(s, circuit, now).Admitted?, now))
    case OnCircuits(On(route, Success)) => OfCircuit(Succeeded(route))
    case OnCircuits(On(route, Failure(now))) => OfCircuit(Failed(route, now))
    case OnLedger(row) => OfRow(row)
    case OnCache(Put(request, response, namespace, now)) => OfWrite(CacheWrite(request, response, namespace, now))
    case _ => Inquiry(effect)
  }

  /** All effects of one call, in order. */
  function Own(s: CircuitBreaker.Settings, log: Log, me: nat): seq<Mark> {
    if log == [] then []
    else
      var before, last := log[..|log| - 1], log[|log| - 1];
      Own(s, before, me) + if last.owner == me then [MarkOf(s, before, last.effect)] else []
  }

  lemma OwnGrows(s: CircuitBreaker.Settings, log: Log, x: Logged, me: nat)
    ensures Own(s, log + [x], me) == Own(s, log, me) + if x.owner == me then [MarkOf(s, log, x.effect)] else []
  {
    assert (log + [x])[..|log|] == log;
  }

  /** Since `mark`, call `me` has had exactly these effects, in this order. */
  ghost predicate Did(s: CircuitBreaker.Settings, mark: Log, log: Log, me: nat, marks: seq<Mark>) {
    Extends(mark, log) && Own(s, log, me) == Own(s, mark, me) + marks
  }

  lemma DidNothingYet(s: CircuitBreaker.Settings, log: Log, me: nat)
    ensures Did(s, log, log, me, [])
  {}

  lemma OthersLeaveNoMark(s: CircuitBreaker.Settings, mark: Log, log: Log, x: Logged, me: nat, marks: seq<Mark>)
    requires Did(s, mark, log, me, marks) && x.owner != me
    ensures Did(s, mark, log + [x], me, marks)
  {
    OwnGrows(s, log, x, me);
  }

  lemma DidNext(s: CircuitBreaker.Settings, mark: Log, log: Log, effect: Effect, me: nat, marks: seq<Mark>)
    requires Did(s, mark, log, me, marks)
    ensures Did(s, mark, log + [Logged(me, effect)], me, marks + [MarkOf(s, log, effect)])
  {
    hide MarkOf;
    OwnGrows(s, log, Logged(me, effect), me);
  }

  /** The effects of a journal: first its circuit calls, then its rows, then its cache writes. */
  function MarksOf(j: Journal): seq<Mark> {
    seq(|j.circuits|, i requires 0 <= i < |j.circuits| => OfCircuit(j.circuits[i]))
    + seq(|j.rows|, i requires 0 <= i < |j.rows| => OfRow(j.rows[i]))
    + seq(|j.writes|, i requires 0 <= i < |j.writes| => OfWrite(j.writes[i]))
  }

  /** Since `mark`, call `me` has had exactly the effects of its journal. */
  ghost predicate DidExactly(s: CircuitBreaker.Settings, mark: Log, log: Log, me: nat, j: Journal) {
    Did(s, mark, log, me, MarksOf(j))
  }

  lemma MarksOfMoreCircuits(j: Journal, entry: CircuitCall)
    requires j.rows == [] && j.writes == []
    ensures MarksOf(j.(circuits := j.circuits + [entry])) == MarksOf(j) + [OfCircuit(entry)]
  {}

  lemma MarksOfMoreRows(j: Journal, row: Metric)
    requires j.writes == []
    ensures MarksOf(j.(rows := j.rows + [row])) == MarksOf(j) + [OfRow(row)]
  {}

  lemma MarksOfMoreWrites(j: Journal, w: CacheWrite)
    ensures MarksOf(j.(writes := j.writes + [w])) == MarksOf(j) + [OfWrite(w)]
  {}

  // -------------------------------------------------------------------------
  // Asking for availability

  function QueryOf(id: RouteId, clock: RouteId -> real): Effect {
    OnCircuits(CircuitBreaker.On(id, CircuitBreaker.Query(clock(id))))
  }

  /** The log of asking for the availability of these routes. */
  function Queries(me: nat, ids: seq<RouteId>, clock: RouteId -> real): Log {
    if ids == [] then [] else Queries(me, ids[..|ids| - 1], clock) + [Logged(me, QueryOf(ids[|ids| - 1], clock))]
  }

  function QueryMarks(ids: seq<RouteId>, clock: RouteId -> real): seq<Mark> {
    if ids == [] then [] else QueryMarks(ids[..|ids| - 1], clock) + [Inquiry(QueryOf(ids[|ids| - 1], clock))]
  }

  lemma QueriesSnoc(log: Log, me: nat, ids: seq<RouteId>, clock: RouteId -> real)
    requires ids != []
    ensures log + Queries(me, ids, clock) == log + Queries(me, ids[..|ids| - 1], clock) + [Logged(me, QueryOf(ids[|ids| - 1], clock))]
  {}

  /** Asking for availability shows in the circuits and nowhere else. */
  lemma {:induction false} QueriesLogged(s: CircuitBreaker.Settings, log: Log, me: nat, ids: seq<RouteId>, clock: RouteId -> real)
    ensures var all := log + Queries(me, ids, clock);
      && CircuitBreaker.ReplayAll(s, CircuitCalls(all)) ==
         Router.QueryAll(s, CircuitBreaker.ReplayAll(s, CircuitCalls(log)), ids, clock)
      && CacheOps(all) == CacheOps(log)
      && LedgerRows(all) == LedgerRows(log)
      && LimiterCalls(all) == LimiterCalls(log)
      && Commands(all) == Commands(log)
  {
    hide CircuitCalls;
    hide CacheOps;
    hide LedgerRows;
    hide LimiterCalls;
    hide Commands;
    hide CircuitBreaker.ReplayAll;
    hide CircuitBreaker.ApplyCall;
    if ids == [] {
      assert log + [] == log;
    } else {
      var id, before := ids[|ids| - 1], log + Queries(me, ids[..|ids| - 1], clock);
      QueriesLogged(s, log, me, ids[..|ids| - 1], clock);
      QueriesSnoc(log, me, ids, clock);
      LogGrows(before, Logged(me, QueryOf(id, clock)));
      ReplayGrows(s, CircuitCalls(before), CircuitBreaker.On(id, CircuitBreaker.Query(clock(id))));
    }
  }

  lemma {:induction false} DidQueries(
    s: CircuitBreaker.Settings, mark: Log, log: Log, me: nat, marks: seq<Mark>, ids: seq<RouteId>, clock: RouteId -> real)
    requires Did(s, mark, log, me, marks)
    ensures Did(s, mark, log + Queries(me, ids, clock), me, marks + QueryMarks(ids, clock))
  {
    hide Did;
    if ids == [] {
      assert log + [] == log && marks + [] == marks;
    } else {
      var first, id := ids[..|ids| - 1], ids[|ids| - 1];
      DidQueries(s, mark, log, me, marks, first, clock);
      QueriesSnoc(log, me, ids, clock);
      DidNext(s, mark, log + Queries(me, first, clock), QueryOf(id, clock), me, marks + QueryMarks(first, clock));
      assert marks + QueryMarks(first, clock) + [Inquiry(QueryOf(id, clock))] == marks + QueryMarks(ids, clock);
    }
  }

  // -------------------------------------------------------------------------
  // The log and the state

  lemma LogGrows(log: Log, x: Logged)
    ensures var all, e := log + [x], x.effect;
      && CircuitCalls(all) == (if e.OnCircuits? then CircuitCalls(log) + [e.call] else CircuitCalls(log))
      && CacheOps(all) == (if e.OnCache? then CacheOps(log) + [e.op] else CacheOps(log))
      && LedgerRows(all) == (if e.OnLedger? then LedgerRows(log) + [e.row] else LedgerRows(log))
      && LimiterCalls(all) == (if e.OnLimiter? then LimiterCalls(log) + [e.request] else LimiterCalls(log))
      && Commands(all) == (if e.OnReleases? then Commands(log) + [e.command] else Commands(log))
  {
    assert (log + [x])[..|log|] == log;
  }

  lemma ReplayGrows(s: CircuitBreaker.Settings, calls: seq<CircuitBreaker.Call>, call: CircuitBreaker.Call)
    ensures CircuitBreaker.ReplayAll(s, calls + [call]) == CircuitBreaker.ApplyCall(s, CircuitBreaker.ReplayAll(s, calls), call)
  {
    assert (calls + [call])[..|calls|] == calls;
  }

  lemma RunGrows(c: Cache.Config, ops: seq<Cache.Op>, op: Cache.Op)
    ensures Cache.Run(c, ops + [op]) == Cache.Apply(c, Cache.Run(c, ops), op)
  {
    assert (ops + [op])[..|ops|] == ops;
  }

  lemma BucketsGrow(s: RateLimit.Limits, run: seq<RateLimit.Call>, call: RateLimit.Call)
    ensures RateLimit.After(s, run + [call]) == RateLimit.Apply(s, RateLimit.After(s, run), call)
  {
    assert (run + [call])[..|run|] == run;
  }

  lemma ReleasesGrow(commands: seq<Release.Command>, command: Release.Command)
    ensures Release.Run(commands + [command]) == Release.Do(Release.Run(commands), command)
  {
    assert (commands + [command])[..|commands|] == commands;
  }
}
