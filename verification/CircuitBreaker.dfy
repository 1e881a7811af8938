/**
  One circuit for each route: it opens after too many failures in a row, and after
  its recovery time lets a single request through to find out.

  A circuit is shared by all requests in flight, so its life is an arbitrary
  interleaving of their calls. A history is the sequence of those calls, with the
  clock reading each one saw; the theorems hold for every history.
*/
module CircuitBreaker {
  import opened Domain

  datatype State = Closed | Open | HalfOpen
  datatype Circuit = Circuit(state: State, consecutiveFailures: nat, openedAt: Option<real>, probeInFlight: bool)

  const NEW_CIRCUIT := Circuit(Closed, 0, None, false)

  datatype Settings = Settings(failureThreshold: nat, recoverySeconds: real)
  {
    predicate Valid() { failureThreshold > 0 && recoverySeconds > 0.0 }
  }

  datatype Admission = Admitted(state: State) | Refused

  function Advance(s: Settings, c: Circuit, now: real): Circuit {
    if c.state.Open? && c.openedAt.Some? && now - c.openedAt.value >= s.recoverySeconds
    then c.(state := HalfOpen, probeInFlight := false)
    else c
  }

  predicate Free(c: Circuit) { c.state.Closed? || (c.state.HalfOpen? && !c.probeInFlight) }

  function Admit(s: Settings, c: Circuit, now: real): Admission {
    var d := Advance(s, c, now);
    if Free(d) then Admitted(d.state) else Refused
  }

  function TakeProbe(c: Circuit): Circuit {
    if c.state.HalfOpen? then c.(probeInFlight := true) else c
  }

  function Fail(s: Settings, c: Circuit, now: real): Circuit {
    var d := c.(probeInFlight := false, consecutiveFailures := c.consecutiveFailures + 1);
    if d.state.HalfOpen? || d.consecutiveFailures >= s.failureThreshold
    then d.(state := Open, openedAt := Some(now))
    else d
  }

  // -------------------------------------------------------------------------
  // Histories of one route

  /** Query stands for `is_available` and for one route's part of `snapshots`. */
  datatype Op = Query(now: real) | Before(now: real) | Success | Failure(now: real)

  predicate IsRecord(op: Op) { op.Success? || op.Failure? }

  function Apply(s: Settings, c: Circuit, op: Op): Circuit {
    match op
    case Query(now) => Advance(s, c, now)
    case Before(now) => TakeProbe(Advance(s, c, now))
    case Success => NEW_CIRCUIT
    case Failure(now) => Fail(s, c, now)
  }

  function Replay(s: Settings, h: seq<Op>): Circuit {
    if h == [] then NEW_CIRCUIT else Apply(s, Replay(s, h[..|h| - 1]), h[|h| - 1])
  }

  /** The number of failures recorded since the last success. */
  function TrailingFailures(h: seq<Op>): nat {
    if h == [] then 0
    else
      var before := TrailingFailures(h[..|h| - 1]);
      match h[|h| - 1]
      case Success => 0
      case Failure(_) => before + 1
      case _ => before
  }

  /** The position of the latest record, or -1. */
  function LastRecord(h: seq<Op>): (r: int)
    ensures -1 <= r < |h|
    ensures r >= 0 ==> IsRecord(h[r])
    ensures forall k :: r < k < |h| ==> !IsRecord(h[k])
  {
    if h == [] then -1
    else if IsRecord(h[|h| - 1]) then |h| - 1
    else LastRecord(h[..|h| - 1])
  }

  lemma {:induction false} OpenMeansFailedLast(s: Settings, h: seq<Op>)
    requires TrailingFailures(h) > 0
    ensures LastRecord(h) >= 0 && h[LastRecord(h)].Failure?
  {
    if !IsRecord(h[|h| - 1]) { OpenMeansFailedLast(s, h[..|h| - 1]); }
  }

  /** The circuit has tripped, and no success has been recorded since. */
  predicate Tripped(s: Settings, h: seq<Op>) { TrailingFailures(h) >= s.failureThreshold }

  /** Call k came after the latest failure and saw the recovery time over. */
  ghost predicate SawRecovery(s: Settings, h: seq<Op>, k: int) {
    var r := LastRecord(h);
    r >= 0 && h[r].Failure? && r < k < |h| && !IsRecord(h[k]) && h[k].now - h[r].now >= s.recoverySeconds
  }

  /** Some call since the latest failure saw the recovery time over. */
  ghost predicate Recovered(s: Settings, h: seq<Op>) {
    exists k :: SawRecovery(s, h, k)
  }

  /** A request passed the recovered circuit and no record has come back. */
  ghost predicate ProbeOut(s: Settings, h: seq<Op>) {
    exists k, m :: SawRecovery(s, h, k) && k <= m < |h| && h[m].Before?
  }

  /** What a circuit must be, read off its history alone. */
  ghost function FromHistory(s: Settings, h: seq<Op>): Circuit {
    var n := TrailingFailures(h);
    if !Tripped(s, h) then Circuit(Closed, n, None, false)
    else
      var r := LastRecord(h);
      Circuit(
        if Recovered(s, h) then HalfOpen else Open,
        n,
        if r >= 0 && h[r].Failure? then Some(h[r].now) else None,
        ProbeOut(s, h))
  }

  lemma LastRecordSnoc(h: seq<Op>, op: Op)
    ensures LastRecord(h + [op]) == if IsRecord(op) then |h| else LastRecord(h)
    ensures TrailingFailures(h + [op]) ==
            if op.Success? then 0 else if op.Failure? then TrailingFailures(h) + 1 else TrailingFailures(h)
  {
    assert (h + [op])[..|h|] == h;
  }

  lemma RecoveredSnoc(s: Settings, h: seq<Op>, op: Op)
    requires LastRecord(h) >= 0 && h[LastRecord(h)].Failure? && !IsRecord(op)
    ensures Recovered(s, h + [op]) <==>
            Recovered(s, h) || op.now - h[LastRecord(h)].now >= s.recoverySeconds
    ensures ProbeOut(s, h + [op]) <==>
            ProbeOut(s, h) || (op.Before? && Recovered(s, h + [op]))
  {
    var g := h + [op];
    LastRecordSnoc(h, op);
    forall k
      ensures SawRecovery(s, g, k) <==>
              (SawRecovery(s, h, k) || (k == |h| && op.now - h[LastRecord(h)].now >= s.recoverySeconds))
    {}
    if Recovered(s, h) {
      var k :| SawRecovery(s, h, k);
      assert SawRecovery(s, g, k);
    }
    assert SawRecovery(s, g, |h|) <==> op.now - h[LastRecord(h)].now >= s.recoverySeconds;
    if ProbeOut(s, h) {
      var k, m :| SawRecovery(s, h, k) && k <= m < |h| && h[m].Before?;
      assert SawRecovery(s, g, k) && k <= m < |g| && g[m].Before?;
    }
    if op.Before? && Recovered(s, g) {
      var k :| SawRecovery(s, g, k);
      assert k <= |h| < |g| && g[|h|].Before?;
    }
    if ProbeOut(s, g) {
      var k, m :| SawRecovery(s, g, k) && k <= m < |g| && g[m].Before?;
      if m < |h| { assert SawRecovery(s, h, k) && h[m].Before?; }
    }
  }

  /**
    The circuit is exactly the fold of its history: the failure count is the
    trailing run of failures, CLOSED means that run is below the threshold,
    HALF_OPEN that somebody has looked after the recovery time, and the probe
    flag that somebody has been admitted since.
   */
  lemma {:induction false} CircuitIsItsHistory(s: Settings, h: seq<Op>)
    requires s.Valid()
    ensures Replay(s, h) == FromHistory(s, h)
  {
    if h != [] {
      var g, op := h[..|h| - 1], h[|h| - 1];
      assert h == g + [op];
      CircuitIsItsHistory(s, g);
      LastRecordSnoc(g, op);
      if !IsRecord(op) && Tripped(s, g) {
        OpenMeansFailedLast(s, g);
        RecoveredSnoc(s, g, op);
      } else if op.Failure? && Tripped(s, h) {
        assert LastRecord(h) == |g|;
        assert forall k :: !SawRecovery(s, h, k);
      }
    }
  }

  // -------------------------------------------------------------------------
  // What callers may rely on

  ghost predicate Monotone(h: seq<Op>, now: real) {
    && (forall i, j :: 0 <= i < j < |h| && !h[i].Success? && !h[j].Success? ==> h[i].now <= h[j].now)
    && (forall i :: 0 <= i < |h| && !h[i].Success? ==> h[i].now <= now)
  }

  /** Some request was let through once the recovery time after the latest failure was over. */
  ghost predicate ProbedSince(s: Settings, h: seq<Op>) {
    exists m :: SawRecovery(s, h, m) && h[m].Before?
  }

  /**
    Exact admission rule under a monotone clock. Until the trailing failures reach
    the threshold everything passes; afterwards a request passes exactly when the
    recovery time since the latest failure is over and nobody has probed yet.
   */
  lemma AdmissionRule(s: Settings, h: seq<Op>, now: real)
    requires s.Valid() && Monotone(h, now)
    ensures Admit(s, Replay(s, h), now).Admitted? <==>
            || !Tripped(s, h)
            || (LastRecord(h) >= 0 && h[LastRecord(h)].Failure?
                && now - h[LastRecord(h)].now >= s.recoverySeconds && !ProbedSince(s, h))
    ensures Tripped(s, h) && Admit(s, Replay(s, h), now).Admitted? ==> Admit(s, Replay(s, h), now) == Admitted(HalfOpen)
    ensures !Tripped(s, h) ==> Admit(s, Replay(s, h), now) == Admitted(Closed)
  {
    CircuitIsItsHistory(s, h);
    if Tripped(s, h) {
      OpenMeansFailedLast(s, h);
      var r := LastRecord(h);
      if Recovered(s, h) {
        var k :| SawRecovery(s, h, k);
        assert h[k].now <= now;
      }
      if ProbeOut(s, h) {
        var k, m :| SawRecovery(s, h, k) && k <= m < |h| && h[m].Before?;
        assert k == m || h[k].now <= h[m].now;
        assert SawRecovery(s, h, m);
      }
    }
  }

  /** Without a record the probe stays out and everything is refused, whatever the clock does. */
  lemma {:induction false} ProbeHoldsUntilRecord(s: Settings, h: seq<Op>, i: nat)
    requires i <= |h| && Replay(s, h[..i]).state.HalfOpen? && Replay(s, h[..i]).probeInFlight
    requires forall k :: i <= k < |h| ==> !IsRecord(h[k])
    ensures Replay(s, h) == Replay(s, h[..i])
    ensures forall now :: Admit(s, Replay(s, h), now).Refused?
  {
    if i < |h| {
      var g := h[..|h| - 1];
      assert g[..i] == h[..i];
      ProbeHoldsUntilRecord(s, g, i);
    } else {
      assert h[..i] == h;
    }
  }

  /** A set probe flag implies HALF_OPEN, in every history. */
  lemma ProbeImpliesHalfOpen(s: Settings, h: seq<Op>)
    requires s.Valid()
    ensures Replay(s, h).probeInFlight ==> Replay(s, h).state.HalfOpen?
  {
    CircuitIsItsHistory(s, h);
    if ProbeOut(s, h) {
      var k, m :| SawRecovery(s, h, k) && k <= m < |h| && h[m].Before?;
      assert Recovered(s, h);
    }
  }

  /** Call i is a `before_request` that was answered with HALF_OPEN: it is a probe. */
  ghost predicate IsProbe(s: Settings, h: seq<Op>, i: nat) {
    i < |h| && h[i].Before? && Admit(s, Replay(s, h[..i]), h[i].now) == Admitted(HalfOpen)
  }

  /** At most one probe at a time: between any two there is a recorded outcome. */
  lemma ProbesAreSeparatedByRecords(s: Settings, h: seq<Op>, i: nat, j: nat)
    requires i < j && IsProbe(s, h, i) && IsProbe(s, h, j)
    ensures exists k :: i < k < j && IsRecord(h[k])
  {
    if forall k :: i < k < j ==> !IsRecord(h[k]) {
      var upTo := h[..j];
      assert upTo[..i + 1] == h[..i + 1];
      assert h[..i + 1][..i] == h[..i];
      ProbeHoldsUntilRecord(s, upTo, i + 1);
      assert false;
    }
  }

  /**
    After the failure that opened the circuit (or any later one), as long as no
    success is recorded and the clock is monotone, nothing is admitted before the
    recovery time since the latest failure is over.
   */
  lemma NothingAdmittedWhileOpen(s: Settings, h: seq<Op>, now: real)
    requires s.Valid() && Monotone(h, now) && Tripped(s, h)
    requires now - h[OpenedBy(s, h)].now < s.recoverySeconds
    ensures Admit(s, Replay(s, h), now) == Refused
  {
    AdmissionRule(s, h, now);
  }

  /** The failure that opened the circuit last. */
  ghost function OpenedBy(s: Settings, h: seq<Op>): (r: nat)
    requires s.Valid() && Tripped(s, h)
    ensures r < |h| && h[r].Failure? && r == LastRecord(h)
    ensures forall k :: r < k < |h| ==> !IsRecord(h[k])
  {
    OpenMeansFailedLast(s, h);
    LastRecord(h)
  }

  /** A late success closes even an OPEN circuit at once. */
  lemma LateSuccessCloses(s: Settings, h: seq<Op>, now: real)
    requires s.Valid()
    ensures Admit(s, Replay(s, h + [Success]), now) == Admitted(Closed)
  {
    assert (h + [Success])[..|h|] == h;
  }

  // -------------------------------------------------------------------------
  // The registry of circuits

  type Circuits = map<RouteId, Circuit>

  function At(m: Circuits, route: RouteId): Circuit {
    if route in m then m[route] else NEW_CIRCUIT
  }

  /** A call on one route, or a report on all of them, which reads the clock anew for each. */
  datatype Call = On(route: RouteId, op: Op) | Snapshot(clock: RouteId -> real)

  function ApplyCall(s: Settings, m: Circuits, call: Call): Circuits {
    match call
    case On(route, op) => m[route := Apply(s, At(m, route), op)]
    case Snapshot(clock) => map route | route in m :: Advance(s, m[route], clock(route))
  }

  function ReplayAll(s: Settings, calls: seq<Call>): Circuits {
    if calls == [] then map[] else ApplyCall(s, ReplayAll(s, calls[..|calls| - 1]), calls[|calls| - 1])
  }

  /** The history that one route sees inside a history of all routes. */
  function Only(calls: seq<Call>, route: RouteId): seq<Op> {
    if calls == [] then []
    else
      var before := Only(calls[..|calls| - 1], route);
      match calls[|calls| - 1]
      case On(r, op) => if r == route then before + [op] else before
      case Snapshot(clock) => before + [Query(clock(route))]
  }

  /** Routes fail independently: each circuit is the replay of its own calls. */
  lemma {:induction false} RoutesAreIndependent(s: Settings, calls: seq<Call>, route: RouteId)
    ensures At(ReplayAll(s, calls), route) == Replay(s, Only(calls, route))
  {
    if calls != [] {
      var before, last := calls[..|calls| - 1], calls[|calls| - 1];
      RoutesAreIndependent(s, before, route);
      var h := Only(before, route);
      if last.Snapshot? {
        assert (h + [Query(last.clock(route))])[..|h|] == h;
      } else {
        assert (h + [last.op])[..|h|] == h;
      }
    }
  }

  class CircuitBreakers {
    const settings: Settings
    var circuits: Circuits

    constructor (settings: Settings)
      requires settings.Valid()
      ensures this.settings == settings && circuits == map[]
    {
      this.settings := settings;
      circuits := map[];
    }

    method IsAvailable(route: RouteId, now: real) returns (available: bool)
      modifies this
      ensures circuits == ApplyCall(settings, old(circuits), On(route, Query(now)))
      ensures available <==> Admit(settings, At(old(circuits), route), now).Admitted?
    {
      var circuit := Advance(settings, At(circuits, route), now);
      circuits := circuits[route := circuit];
      available := circuit.state.Closed? || (circuit.state.HalfOpen? && !circuit.probeInFlight);
    }

    method BeforeRequest(route: RouteId, now: real) returns (admission: Admission)
      modifies this
      ensures circuits == ApplyCall(settings, old(circuits), On(route, Before(now)))
      ensures admission == Admit(settings, At(old(circuits), route), now)
    {
      var circuit := Advance(settings, At(circuits, route), now);
      circuits := circuits[route := circuit];
      if circuit.state.Open? {
        return Refused;
      }
      if circuit.state.HalfOpen? {
        if circuit.probeInFlight {
          return Refused;
        }
        circuit := circuit.(probeInFlight := true);
        circuits := circuits[route := circuit];
      }
      return Admitted(circuit.state);
    }

    method RecordSuccess(route: RouteId) returns (state: State)
      modifies this
      ensures circuits == ApplyCall(settings, old(circuits), On(route, Success))
      ensures state == circuits[route].state
    {
      circuits := circuits[route := Circuit(Closed, 0, None, false)];
      state := Closed;
    }

    method RecordFailure(route: RouteId, now: real) returns (state: State)
      modifies this
      ensures circuits == ApplyCall(settings, old(circuits), On(route, Failure(now)))
      ensures state == circuits[route].state
    {
      var circuit := At(circuits, route);
      circuit := circuit.(probeInFlight := false);
      circuit := circuit.(consecutiveFailures := circuit.consecutiveFailures + 1);
      if circuit.state.HalfOpen? || circuit.consecutiveFailures >= settings.failureThreshold {
        circuit := circuit.(state := Open, openedAt := Some(now));
      }
      circuits := circuits[route := circuit];
      state := circuit.state;
    }

    /** Visits the routes in arbitrary order, advancing each one. */
    method Snapshots(clock: RouteId -> real) returns (result: map<RouteId, Circuit>)
      modifies this
      ensures circuits == ApplyCall(settings, old(circuits), Snapshot(clock))
      ensures result == circuits
    {
      result := map[];
      var todo := circuits.Keys;
      while todo != {}
        invariant todo <= circuits.Keys == old(circuits).Keys
        invariant result.Keys == circuits.Keys - todo
        invariant forall route :: route in circuits ==>
          circuits[route] == if route in todo then old(circuits)[route] else Advance(settings, old(circuits)[route], clock(route))
        invariant forall route :: route in result ==> result[route] == circuits[route]
      {
        var route :| route in todo;
        var circuit := Advance(settings, circuits[route], clock(route));
        circuits := circuits[route := circuit];
        result := result[route := circuit];
        todo := todo - {route};
      }
    }

    /** Any one of the calls above. */
    method Perform(call: Call)
      modifies this
      ensures circuits == ApplyCall(settings, old(circuits), call)
    {
      hide Apply;
      hide Admit;
      match call {
        case On(route, Query(now)) => var available := IsAvailable(route, now);
        case On(route, Before(now)) => var admission := BeforeRequest(route, now);
        case On(route, Success) => var state := RecordSuccess(route);
        case On(route, Failure(now)) => var state := RecordFailure(route, now);
        case Snapshot(clock) => var snapshots := Snapshots(clock);
      }
    }
  }
}
