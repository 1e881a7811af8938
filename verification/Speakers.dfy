/**
  When does a stream name one route? Deltas and the final event always do. But a
  start event is forwarded before the first delta, when another route may still
  follow. This module has the exact condition for the whole stream.
 */
module Speakers {
  import opened Domain
  import opened Engine
  import opened EngineProofs

  predicate Audible(event: ProviderEvent) { event.StartEvent? || event.DeltaEvent? }

  ghost predicate SaysSomething(events: seq<ProviderEvent>) { exists i :: 0 <= i < |events| && Audible(events[i]) }

  /**
    The client receives something in this round: it is in time and admitted, and the
    provider starts or sends a delta, or its answer is accepted at the end.
   */
  ghost predicate Speaks(c: Context, s: StreamSeen) {
    && Remaining(c, s.now) > 0.0
    && s.admitted
    && (|| SaysSomething(s.events)
        || (s.ending.EndOfStream? && MeetsSchema(c.contract, c.lane.request.responseSchema, TextOf(s.events))))
  }

  ghost predicate AtMostOneSpeaks(c: Context, seen: seq<StreamSeen>, n: nat)
    requires n <= |seen|
  {
    forall i, j :: 0 <= i < j < n ==> !(Speaks(c, seen[i]) && Speaks(c, seen[j]))
  }

  ghost predicate OneRoute(events: seq<Event>) {
    forall i, j :: 0 <= i < |events| && 0 <= j < |events| ==> events[i].routeId == events[j].routeId
  }

  ghost predicate AllName(events: seq<Event>, id: RouteId) {
    forall i :: 0 <= i < |events| ==> events[i].routeId == id
  }

  lemma SaysSnoc(events: seq<ProviderEvent>, event: ProviderEvent)
    ensures SaysSomething(events + [event]) <==> SaysSomething(events) || Audible(event)
  {
    var all := events + [event];
    assert all[|events|] == event;
    if i :| 0 <= i < |events| && Audible(events[i]) { assert Audible(all[i]); }
  }

  /** What is forwarded names the route, and there is some exactly when the provider says something. */
  lemma {:induction false} ForwardedNames(route: Route, events: seq<ProviderEvent>)
    ensures AllName(ForwardAll(route, events), route.id)
    ensures ForwardAll(route, events) != [] <==> SaysSomething(events)
  {
    if events == [] {
      return;
    }
    hide SaysSomething;
    var before, last := events[..|events| - 1], events[|events| - 1];
    assert events == before + [last];
    ForwardedNames(route, before);
    SaysSnoc(before, last);
    ForwardSnoc(route, before, last);
    hide ForwardAll;
    assert Forwarded(route, last) != [] <==> Audible(last);
  }

  /** A round adds events of its own route only, and it adds some exactly when it speaks. */
  lemma StepAdds(c: Context, l: Loop, s: StreamSeen) returns (more: seq<Event>)
    requires Active(c, l)
    ensures StreamStep(c, l, s).journal.events == l.journal.events + more
    ensures AllName(more, c.targets[l.next].route.id)
    ensures more != [] <==> Speaks(c, s)
  {
    hide ForwardAll;
    hide TextOf;
    hide Emitted;
    hide AttemptBudgetMs;
    var route := c.targets[l.next].route;
    ForwardedNames(route, s.events);
    hide SaysSomething;
    if Remaining(c, s.now) <= 0.0 || !s.admitted {
      more := [];
      return;
    }
    var v := Validate(c.contract, c.lane.request.responseSchema, TextOf(s.events));
    hide Validate;
    hide MeetsSchema;
    more := ForwardAll(route, s.events);
    if s.ending.EndOfStream? && v.Valid? {
      more := more + [Done(route.id, route.provider, route.model, StreamedResponse(c, l.fallback, c.targets[l.next], s, v))];
    }
  }

  /** Some round before n speaks for this route. */
  ghost predicate Spoken(c: Context, seen: seq<StreamSeen>, n: nat, id: RouteId)
    requires n <= |seen| && n <= |c.targets|
  {
    exists k :: 0 <= k < n && Speaks(c, seen[k]) && TargetIds(c)[k] == id
  }

  ghost predicate Named(events: seq<Event>, id: RouteId) { exists i :: 0 <= i < |events| && events[i].routeId == id }

  /** The events name exactly the routes whose round has spoken. */
  ghost predicate NamesSpeakers(c: Context, seen: seq<StreamSeen>, l: Loop) {
    && l.next <= |seen| && l.next <= |c.targets|
    && forall id :: Named(l.journal.events, id) <==> Spoken(c, seen, l.next, id)
  }

  lemma NamedConcat(events: seq<Event>, more: seq<Event>, id: RouteId)
    ensures Named(events + more, id) <==> Named(events, id) || Named(more, id)
  {
    var all := events + more;
    if i :| 0 <= i < |events| && events[i].routeId == id { assert all[i].routeId == id; }
    if i :| 0 <= i < |more| && more[i].routeId == id { assert all[|events| + i].routeId == id; }
  }

  lemma SpokenSnoc(c: Context, seen: seq<StreamSeen>, s: StreamSeen, n: nat, id: RouteId)
    requires n <= |seen| && n <= |c.targets|
    ensures Spoken(c, seen + [s], n, id) <==> Spoken(c, seen, n, id)
    ensures n == |seen| < |c.targets| ==>
              (Spoken(c, seen + [s], n + 1, id) <==> Spoken(c, seen, n, id) || (Speaks(c, s) && TargetIds(c)[n] == id))
  {
    hide Speaks;
    var all := seen + [s];
    assert forall k :: 0 <= k < n ==> all[k] == seen[k];
    if k :| 0 <= k < n && Speaks(c, seen[k]) && TargetIds(c)[k] == id { assert Speaks(c, all[k]); }
    if n == |seen| { assert all[n] == s; }
  }

  lemma {:induction false} StreamNamesSpeakers(c: Context, seen: seq<StreamSeen>)
    ensures NamesSpeakers(c, seen, StreamLoop(c, seen))
    ensures StreamLoop(c, seen).status.Trying? && Active(c, StreamLoop(c, seen)) ==> StreamLoop(c, seen).next == |seen|
  {
    hide StreamStep;
    if seen == [] {
      return;
    }
    var before, s := seen[..|seen| - 1], seen[|seen| - 1];
    assert seen == before + [s];
    StreamNamesSpeakers(c, before);
    var l := StreamLoop(c, before);
    StreamFollows(c, seen);
    if Active(c, l) {
      var more := StepAdds(c, l, s);
      StreamStepRecords(c, l, s);
      assert Speaks(c, s) ==> Remaining(c, s.now) > 0.0;
      hide Speaks;
      hide Named;
      hide Spoken;
      forall id ensures Named(StreamLoop(c, seen).journal.events, id) <==> Spoken(c, seen, StreamLoop(c, seen).next, id) {
        NamedConcat(l.journal.events, more, id);
        SpokenSnoc(c, before, s, l.next, id);
        NamedAll(more, c.targets[l.next].route.id, id);
      }
    } else {
      hide Speaks;
      hide Named;
      hide Spoken;
      forall id ensures Spoken(c, seen, l.next, id) <==> Spoken(c, before, l.next, id) {
        SpokenSnoc(c, before, s, l.next, id);
      }
    }
  }

  lemma NamedAll(events: seq<Event>, from: RouteId, id: RouteId)
    requires AllName(events, from)
    ensures Named(events, id) <==> events != [] && id == from
  {
    if events != [] { assert events[0].routeId == from; }
  }

  lemma SpeakersDiffer(c: Context, seen: seq<StreamSeen>, l: Loop, i: nat, j: nat)
    requires Distinct(TargetIds(c)) && NamesSpeakers(c, seen, l)
    requires i < j < l.next && Speaks(c, seen[i]) && Speaks(c, seen[j])
    ensures !OneRoute(l.journal.events)
  {
    hide Speaks;
    var events, ids := l.journal.events, TargetIds(c);
    assert Spoken(c, seen, l.next, ids[i]) && Spoken(c, seen, l.next, ids[j]);
    var x :| 0 <= x < |events| && events[x].routeId == ids[i];
    var y :| 0 <= y < |events| && events[y].routeId == ids[j];
    assert events[x].routeId != events[y].routeId;
  }

  /** All events of a stream name one route exactly when at most one round speaks. */
  lemma LoopNamesOneRouteIff(c: Context, seen: seq<StreamSeen>)
    requires Distinct(TargetIds(c))
    ensures StreamLoop(c, seen).next <= |seen|
    ensures OneRoute(StreamLoop(c, seen).journal.events) <==> AtMostOneSpeaks(c, seen, StreamLoop(c, seen).next)
  {
    StreamNamesSpeakers(c, seen);
    var l := StreamLoop(c, seen);
    var events, ids := l.journal.events, TargetIds(c);
    hide StreamLoop;
    hide Speaks;
    if AtMostOneSpeaks(c, seen, l.next) {
      forall i, j | 0 <= i < |events| && 0 <= j < |events| ensures events[i].routeId == events[j].routeId {
        assert Named(events, events[i].routeId) && Named(events, events[j].routeId);
        var k :| 0 <= k < l.next && Speaks(c, seen[k]) && ids[k] == events[i].routeId;
        var m :| 0 <= m < l.next && Speaks(c, seen[m]) && ids[m] == events[j].routeId;
        assert k == m;
      }
    }
    if OneRoute(events) {
      forall i, j | 0 <= i < j < l.next ensures !(Speaks(c, seen[i]) && Speaks(c, seen[j])) {
        if Speaks(c, seen[i]) && Speaks(c, seen[j]) {
          SpeakersDiffer(c, seen, l, i, j);
          assert false;
        }
      }
    }
  }

  /**
    The exact condition of the documented promise that a stream has one provenance,
    for every call and everything it sees: all events name one route exactly when at
    most one of the candidates tried speaks; streams without a candidate always do.
   */
  lemma StreamNamesOneRouteIff(g: Gateway, call: Call, a: Arrival, seen: seq<StreamSeen>, finishedAt: real)
    requires call.request.Valid() && Distinct(RouteIds(g.routes))
    ensures var l := StreamCall(g, call, a, seen, finishedAt);
      match Enter(g, call, a)
      case Candidates(c) => l.next <= |seen| && (OneRoute(l.journal.events) <==> AtMostOneSpeaks(c, seen, l.next))
      case _ => OneRoute(l.journal.events)
  {
    match Enter(g, call, a)
    case Candidates(c) =>
      EnterIsReady(g, call, a);
      LoopNamesOneRouteIff(c, seen);
      hide Enter;
      hide StreamLoop;
    case _ =>
  }

  /** The condition fails: the provider of the first candidate starts and fails, and so does the second. */
  lemma StartsMayNameSeveralRoutes(c: Context, at: Readings)
    requires |c.targets| >= 2 && c.lane.request.maxLatencyMs > 0 && Distinct(TargetIds(c))
    ensures
      var first := StreamSeen(c.started, true, [StartEvent], StreamFailed("provider_unavailable"), 0.0, at);
      var second := StreamSeen(c.started, true, [StartEvent], StreamTimedOut, 0.0, at);
      !OneRoute(StreamLoop(c, [first, second]).journal.events)
  {
    var first := StreamSeen(c.started, true, [StartEvent], StreamFailed("provider_unavailable"), 0.0, at);
    var second := StreamSeen(c.started, true, [StartEvent], StreamTimedOut, 0.0, at);
    assert [first, second][..1] == [first] && [first][..0] == [];
    assert Remaining(c, c.started) > 0.0;
    var one, two := StreamLoop(c, [first]), StreamLoop(c, [first, second]);
    assert one == StreamStep(c, StreamLoop(c, []), first);
    assert one.next == 1 && one.status.Trying? && two.next == 2;
    LoopNamesOneRouteIff(c, [first, second]);
    assert Audible(first.events[0]) && Audible(second.events[0]);
    assert Speaks(c, [first, second][0]) && Speaks(c, [first, second][1]);
  }
}
