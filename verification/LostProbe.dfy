/**
  A probe can be lost. A provider's answer that does not meet the schema makes no
  record on the circuit, and neither does the call that got it ever after. If that
  attempt was the half-open probe, the route stays shut.
 */
module LostProbe {
  import opened Domain
  import opened Engine
  import opened EngineProofs
  import CircuitBreaker

  /** This call has asked the circuit of the route, if at all, without recording an outcome. */
  ghost predicate NoOutcome(calls: seq<CircuitCall>, route: RouteId) {
    forall i :: 0 <= i < |calls| && calls[i].route == route ==> calls[i].Asked?
  }

  /** The routes of the candidates from n on are still untouched. */
  ghost predicate Untouched(c: Context, calls: seq<CircuitCall>, n: nat) {
    forall i, k :: 0 <= i < |calls| && n <= k < |c.targets| ==> calls[i].route != TargetIds(c)[k]
  }

  lemma RoundKeepsUntouched(c: Context, calls: seq<CircuitCall>, round: seq<CircuitCall>, n: nat, next: nat)
    requires Distinct(TargetIds(c)) && n < |c.targets| && Untouched(c, calls, n)
    requires forall i :: 0 <= i < |round| ==> round[i].route == c.targets[n].route.id
    requires round != [] ==> next == n + 1
    requires next == n || next == n + 1
    ensures Untouched(c, calls + round, next)
  {
    var all := calls + round;
    forall i, k | 0 <= i < |all| && next <= k < |c.targets| ensures all[i].route != TargetIds(c)[k] {
      if i < |calls| { assert all[i] == calls[i]; } else { assert all[i] == round[i - |calls|]; }
    }
  }

  lemma {:induction false} GenerateLeavesLaterRoutes(c: Context, seen: seq<Seen>)
    requires Distinct(TargetIds(c))
    ensures Untouched(c, GenerateLoop(c, seen).journal.circuits, GenerateLoop(c, seen).next)
  {
    hide GenerateStep;
    if seen != [] {
      var before, s := seen[..|seen| - 1], seen[|seen| - 1];
      GenerateLeavesLaterRoutes(c, before);
      var l := GenerateLoop(c, before);
      if Active(c, l) {
        GenerateStepRecords(c, l, s);
        GenerateStepCounts(c, l, s);
        RoundKeepsUntouched(c, l.journal.circuits, GenerateRound(c, c.targets[l.next].route, s), l.next, GenerateLoop(c, seen).next);
      }
      hide Untouched;
    }
  }

  lemma {:induction false} StreamLeavesLaterRoutes(c: Context, seen: seq<StreamSeen>)
    requires Distinct(TargetIds(c))
    ensures Untouched(c, StreamLoop(c, seen).journal.circuits, StreamLoop(c, seen).next)
  {
    hide StreamStep;
    if seen != [] {
      var before, s := seen[..|seen| - 1], seen[|seen| - 1];
      StreamLeavesLaterRoutes(c, before);
      var l := StreamLoop(c, before);
      if Active(c, l) {
        StreamStepRecords(c, l, s);
        RoundKeepsUntouched(c, l.journal.circuits, StreamRound(c, c.targets[l.next].route, s), l.next, StreamLoop(c, seen).next);
      }
      hide Untouched;
    }
  }

  lemma LaterRoundKeepsSilence(c: Context, calls: seq<CircuitCall>, round: seq<CircuitCall>, lost: nat, n: nat)
    requires Distinct(TargetIds(c)) && lost < n < |c.targets| && NoOutcome(calls, TargetIds(c)[lost])
    requires forall i :: 0 <= i < |round| ==> round[i].route == c.targets[n].route.id
    ensures NoOutcome(calls + round, TargetIds(c)[lost])
  {
    var all := calls + round;
    assert forall i :: |calls| <= i < |all| ==> all[i] == round[i - |calls|];
    assert forall i :: 0 <= i < |calls| ==> all[i] == calls[i];
  }

  /** After an answer of candidate `lost` that does not meet the schema, the call never records an outcome on its route. */
  lemma {:induction false} GenerateStaysSilent(c: Context, before: seq<Seen>, s: Seen, more: seq<Seen>)
    requires Distinct(TargetIds(c)) && Active(c, GenerateLoop(c, before)) && Violates(c, s)
    ensures var lost := GenerateLoop(c, before).next;
      && NoOutcome(GenerateLoop(c, before + [s] + more).journal.circuits, TargetIds(c)[lost])
      && GenerateLoop(c, before + [s] + more).next > lost
  {
    hide GenerateStep;
    var all := before + [s] + more;
    var l := GenerateLoop(c, before);
    if more == [] {
      assert all == before + [s] && (before + [s])[..|before|] == before;
      GenerateStepRecords(c, l, s);
      GenerateStepCounts(c, l, s);
      GenerateLeavesLaterRoutes(c, before);
      assert GenerateRound(c, c.targets[l.next].route, s) == [Asked(c.targets[l.next].route.id, true, s.at.asked)];
    } else {
      var rest, last := more[..|more| - 1], more[|more| - 1];
      assert all[..|all| - 1] == before + [s] + rest && all[|all| - 1] == last;
      GenerateStaysSilent(c, before, s, rest);
      var k := GenerateLoop(c, before + [s] + rest);
      if Active(c, k) {
        GenerateStepRecords(c, k, last);
        GenerateStepCounts(c, k, last);
        LaterRoundKeepsSilence(c, k.journal.circuits, GenerateRound(c, c.targets[k.next].route, last), l.next, k.next);
      }
      hide NoOutcome;
    }
  }

  lemma {:induction false} StreamStaysSilent(c: Context, before: seq<StreamSeen>, s: StreamSeen, more: seq<StreamSeen>)
    requires Distinct(TargetIds(c)) && Active(c, StreamLoop(c, before)) && StreamViolates(c, s)
    ensures var lost := StreamLoop(c, before).next;
      && NoOutcome(StreamLoop(c, before + [s] + more).journal.circuits, TargetIds(c)[lost])
      && StreamLoop(c, before + [s] + more).next > lost
  {
    hide StreamStep;
    var all := before + [s] + more;
    var l := StreamLoop(c, before);
    if more == [] {
      assert all == before + [s] && (before + [s])[..|before|] == before;
      StreamStepRecords(c, l, s);
      StreamLeavesLaterRoutes(c, before);
      assert StreamRound(c, c.targets[l.next].route, s) == [Asked(c.targets[l.next].route.id, true, s.at.asked)];
    } else {
      var rest, last := more[..|more| - 1], more[|more| - 1];
      assert all[..|all| - 1] == before + [s] + rest && all[|all| - 1] == last;
      StreamStaysSilent(c, before, s, rest);
      var k := StreamLoop(c, before + [s] + rest);
      if Active(c, k) {
        StreamStepRecords(c, k, last);
        LaterRoundKeepsSilence(c, k.journal.circuits, StreamRound(c, c.targets[k.next].route, last), l.next, k.next);
      }
      hide NoOutcome;
    }
  }

  /** These calls on the route's circuit follow `h` and the probe, none of them a record. */
  ghost predicate Unrecorded(more: seq<CircuitBreaker.Op>) {
    forall k :: 0 <= k < |more| ==> !CircuitBreaker.IsRecord(more[k])
  }

  ghost predicate ShutFor(settings: CircuitBreaker.Settings, h: seq<CircuitBreaker.Op>) {
    forall now :: CircuitBreaker.Admit(settings, CircuitBreaker.Replay(settings, h), now).Refused?
  }

  lemma ProbeStaysOut(
    settings: CircuitBreaker.Settings, h: seq<CircuitBreaker.Op>, asked: real, more: seq<CircuitBreaker.Op>)
    requires CircuitBreaker.Admit(settings, CircuitBreaker.Replay(settings, h), asked) == CircuitBreaker.Admitted(CircuitBreaker.HalfOpen)
    requires Unrecorded(more)
    ensures ShutFor(settings, h + [CircuitBreaker.Before(asked)] + more)
  {
    var probed := h + [CircuitBreaker.Before(asked)];
    assert probed[..|h|] == h;
    var all := probed + more;
    assert all[..|probed|] == probed;
    CircuitBreaker.ProbeHoldsUntilRecord(settings, all, |probed|);
  }

  /**
    Whichever candidate of `generate` was the probe: if its answer does not meet the
    schema, the call never records an outcome on that route, whatever it sees next;
    and the route refuses everybody, at any time, until some other call records one.
   */
  lemma SchemaViolationLosesTheProbe(
    c: Context, before: seq<Seen>, s: Seen, later: seq<Seen>,
    settings: CircuitBreaker.Settings, h: seq<CircuitBreaker.Op>, more: seq<CircuitBreaker.Op>)
    requires Distinct(TargetIds(c)) && Active(c, GenerateLoop(c, before)) && Violates(c, s)
    requires CircuitBreaker.Admit(settings, CircuitBreaker.Replay(settings, h), s.at.asked) == CircuitBreaker.Admitted(CircuitBreaker.HalfOpen)
    requires Unrecorded(more)
    ensures var route := c.targets[GenerateLoop(c, before).next].route.id;
      NoOutcome(GenerateLoop(c, before + [s] + later).journal.circuits, route)
    ensures ShutFor(settings, h + [CircuitBreaker.Before(s.at.asked)] + more)
  {
    GenerateStaysSilent(c, before, s, later);
    ProbeStaysOut(settings, h, s.at.asked, more);
    hide GenerateLoop;
    hide Violates;
  }

  /** The same for `stream`. */
  lemma StreamViolationLosesTheProbe(
    c: Context, before: seq<StreamSeen>, s: StreamSeen, later: seq<StreamSeen>,
    settings: CircuitBreaker.Settings, h: seq<CircuitBreaker.Op>, more: seq<CircuitBreaker.Op>)
    requires Distinct(TargetIds(c)) && Active(c, StreamLoop(c, before)) && StreamViolates(c, s)
    requires CircuitBreaker.Admit(settings, CircuitBreaker.Replay(settings, h), s.at.asked) == CircuitBreaker.Admitted(CircuitBreaker.HalfOpen)
    requires Unrecorded(more)
    ensures var route := c.targets[StreamLoop(c, before).next].route.id;
      NoOutcome(StreamLoop(c, before + [s] + later).journal.circuits, route)
    ensures ShutFor(settings, h + [CircuitBreaker.Before(s.at.asked)] + more)
  {
    StreamStaysSilent(c, before, s, later);
    ProbeStaysOut(settings, h, s.at.asked, more);
    hide StreamLoop;
    hide StreamViolates;
  }
}
