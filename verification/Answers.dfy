/**
  What a call answers, in the words of what it has seen: a fresh answer is the reply
  of one provider, a cached one is the cached response with new marks, and a failure
  is that of the last candidate tried. With it, the row of evidence and the cache
  write of every call.
 */
module Answers {
  import opened Contracts
  import opened Domain
  import opened Engine
  import opened EngineProofs
  import opened Runs
  import opened Sightings
  import Router

  // -------------------------------------------------------------------------
  // Fresh answers

  /** The text was checked as the request asks. */
  ghost predicate WasChecked(c: Context, r: Response) {
    match c.lane.request.responseSchema
    case None => r.parsed == None && r.schemaValid == None
    case Some(schema) =>
      && r.parsed.Some? && r.parsed == c.contract.decode(r.text)
      && c.contract.check(r.parsed.value, schema) == Conforms
      && r.schemaValid == Some(true)
  }

  /** The answer names this request and this candidate, which i candidates have failed before. */
  ghost predicate NamesCandidate(c: Context, i: nat, r: Response)
    requires i < |c.targets|
  {
    && r.requestId == c.lane.request.requestId
    && r.routeId == c.targets[i].route.id && r.provider == c.targets[i].route.provider
    && r.routingRegret == c.targets[i].regret
    && r.fallbackCount == i && !r.cacheHit
  }

  /** The answer is the provider's reply, priced by the route, timed from the start of the call. */
  ghost predicate Relays(c: Context, i: nat, reply: Reply, measured: real, r: Response)
    requires i < |c.targets|
  {
    && reply.Completed?
    && NamesCandidate(c, i, r) && WasChecked(c, r)
    && r.text == reply.text && r.model == reply.rawModel && r.ttftMs == reply.ttftMs
    && r.usage.inputTokens == reply.inputTokens && r.usage.outputTokens == reply.outputTokens
    && r.usage.costUsd == Price(c.targets[i].route, reply.inputTokens, reply.outputTokens)
    && r.latencyMs == (measured - c.started) * 1000.0
  }

  lemma AcceptedRelays(c: Context, l: Loop, s: Seen)
    requires Active(c, l) && l.fallback == l.next && GenerateStep(c, l, s).status.Returned?
    ensures GenerateStep(c, l, s).next == l.next + 1
    ensures Relays(c, l.next, s.reply, s.at.measured, GenerateStep(c, l, s).status.response)
  {
    hide Price;
    hide AttemptBudgetMs;
    if s.reply.Completed? { PriceIsPredicted(c.targets[l.next].route, s.reply.inputTokens, s.reply.outputTokens); }
    hide Router.PredictedCost;
  }

  /**
    Whatever `generate` returns, for every context and everything it sees: it is the
    reply of the provider of the candidate that the loop stopped at.
   */
  lemma {:induction false} GenerateAnswersAreReplies(c: Context, seen: seq<Seen>)
    requires GenerateLoop(c, seen).status.Returned?
    ensures var l := GenerateLoop(c, seen);
      && 0 < l.next <= |c.targets| && l.next <= |seen|
      && Relays(c, l.next - 1, seen[l.next - 1].reply, seen[l.next - 1].at.measured, l.status.response)
  {
    hide Relays;
    hide GenerateStep;
    var before, s := seen[..|seen| - 1], seen[|seen| - 1];
    var l := GenerateLoop(c, before);
    if Active(c, l) {
      GenerateFollows(c, before);
      GenerateAccounted(c, before);
      AcceptedRelays(c, l, s);
    } else {
      GenerateAnswersAreReplies(c, before);
    }
  }

  /** The texts of the deltas, joined. */
  function Joined(events: seq<ProviderEvent>): string {
    if events == [] then ""
    else (if events[0].DeltaEvent? then events[0].text else "") + Joined(events[1..])
  }

  lemma {:induction false} JoinedConcat(a: seq<ProviderEvent>, b: seq<ProviderEvent>)
    ensures Joined(a + b) == Joined(a) + Joined(b)
  {
    if a == [] {
      assert a + b == b;
    } else {
      assert (a + b)[1..] == a[1..] + b;
      JoinedConcat(a[1..], b);
    }
  }

  lemma {:induction false} TextIsJoined(events: seq<ProviderEvent>)
    ensures TextOf(events) == Joined(events)
  {
    if events != [] {
      var before, last := events[..|events| - 1], events[|events| - 1];
      TextIsJoined(before);
      assert events == before + [last];
      JoinedConcat(before, [last]);
      assert [last][1..] == [];
    }
  }

  /** Event k is the last one that counts tokens. */
  ghost predicate CountsLast(events: seq<ProviderEvent>, k: int) {
    && 0 <= k < |events| && events[k].UsageEvent?
    && forall j :: k < j < |events| ==> !events[j].UsageEvent?
  }

  /** These are the counts of the last event that has some; a missing count is zero, and so are both without such an event. */
  ghost predicate Counted(events: seq<ProviderEvent>, input: int, output: int) {
    && (forall k :: CountsLast(events, k) ==>
          && input == (match events[k].inputTokens case Some(n) => n case None => 0)
          && output == (match events[k].outputTokens case Some(n) => n case None => 0))
    && ((forall j :: 0 <= j < |events| ==> !events[j].UsageEvent?) ==> input == 0 && output == 0)
  }

  lemma {:induction false} UsageIsCounted(events: seq<ProviderEvent>)
    ensures Counted(events, UsageOf(events).0, UsageOf(events).1)
  {
    if events != [] {
      var before, last := events[..|events| - 1], events[|events| - 1];
      UsageIsCounted(before);
      if last.UsageEvent? {
        forall k | CountsLast(events, k) ensures k == |events| - 1 {
          if k < |events| - 1 { assert false; }
        }
      } else {
        forall k | CountsLast(events, k) ensures CountsLast(before, k) && before[k] == events[k] {
          assert forall j :: k < j < |before| ==> before[j] == events[j];
        }
        assert forall j :: 0 <= j < |before| ==> before[j] == events[j];
      }
    }
  }

  /** The time to the first delta; a first delta at reading zero counts as none. */
  ghost predicate FirstDelta(c: Context, s: StreamSeen, ttftMs: real) {
    var first := if (exists k :: 0 <= k < |s.events| && s.events[k].DeltaEvent?) && s.firstDeltaAt != 0.0
                 then s.firstDeltaAt else s.at.measured;
    ttftMs == (first - c.started) * 1000.0
  }

  /** The answer is what the provider streamed in full. */
  ghost predicate RelaysStream(c: Context, i: nat, s: StreamSeen, r: Response)
    requires i < |c.targets|
  {
    && s.ending == EndOfStream
    && NamesCandidate(c, i, r) && WasChecked(c, r)
    && r.text == Joined(s.events) && r.model == c.targets[i].route.model && FirstDelta(c, s, r.ttftMs)
    && Counted(s.events, r.usage.inputTokens, r.usage.outputTokens)
    && r.usage.costUsd == Price(c.targets[i].route, r.usage.inputTokens, r.usage.outputTokens)
    && r.latencyMs == (s.at.measured - c.started) * 1000.0
  }

  lemma AcceptedRelaysStream(c: Context, l: Loop, s: StreamSeen)
    requires Active(c, l) && l.fallback == l.next && StreamStep(c, l, s).status.Returned?
    ensures StreamStep(c, l, s).next == l.next + 1
    ensures RelaysStream(c, l.next, s, StreamStep(c, l, s).status.response)
  {
    hide Price;
    hide AttemptBudgetMs;
    hide ForwardAll;
    TextIsJoined(s.events);
    UsageIsCounted(s.events);
    PriceIsPredicted(c.targets[l.next].route, UsageOf(s.events).0, UsageOf(s.events).1);
    hide Router.PredictedCost;
    hide TextOf;
    hide Joined;
    hide UsageOf;
    hide Counted;
  }

  /** The same for `stream`: the deltas joined, and the token counts of the last event that has some. */
  lemma {:induction false} StreamAnswersAreStreams(c: Context, seen: seq<StreamSeen>)
    requires StreamLoop(c, seen).status.Returned?
    ensures var l := StreamLoop(c, seen);
      && 0 < l.next <= |c.targets| && l.next <= |seen|
      && RelaysStream(c, l.next - 1, seen[l.next - 1], l.status.response)
  {
    hide RelaysStream;
    hide StreamStep;
    var before, s := seen[..|seen| - 1], seen[|seen| - 1];
    var l := StreamLoop(c, before);
    if Active(c, l) {
      StreamFollows(c, before);
      StreamAccounted(c, before);
      AcceptedRelaysStream(c, l, s);
    } else {
      StreamAnswersAreStreams(c, before);
    }
  }

  // -------------------------------------------------------------------------
  // Answers of calls, in their world

  /** The answer is what the world's provider of some candidate replied to the budget it was told. */
  ghost predicate RelaysWorld(c: Context, w: World, act: Activity, r: Response) {
    exists i: nat :: i < |c.targets| &&
      var budget := AttemptBudgetMs(Remaining(c, w.checkClock(i)));
      if act.Generated? then Relays(c, i, w.reply(i, budget), w.at(i).measured, r)
      else i < |act.streamed| && RelaysStream(c, i, act.streamed[i], r)
           && act.streamed[i].events == w.streamReply(i, budget).events && act.streamed[i].at == w.at(i)
           && act.streamed[i].firstDeltaAt == w.firstDelta(i)
  }

  lemma CloseKeepsAnswers(c: Context, l: Loop, now: real)
    ensures Close(c, l, now).status.Returned? ==> Close(c, l, now) == l
  {}

  /** A call of the gateway relays what its world has told it. */
  lemma AnswersComeFromTheWorld(g: Gateway, w: World, act: Activity, c: Context)
    requires Legal(g, act) && EntryOf(g, act) == Candidates(c) && LoopOf(g, act).status.Returned?
    requires match act
      case Generated(_, _, seen, _) => HeardAll(c, w, seen)
      case Streamed(_, _, seen, _) => StreamHeardAll(c, w, seen)
    ensures RelaysWorld(c, w, act, LoopOf(g, act).status.response)
  {
    LoopOfCandidates(g, act);
    hide LoopOf;
    hide EntryOf;
    hide Relays;
    hide RelaysStream;
    match act
    case Generated(_, _, seen, at) =>
      CloseKeepsAnswers(c, GenerateLoop(c, seen), at);
      GenerateAnswersAreReplies(c, seen);
      var i := GenerateLoop(c, seen).next - 1;
      ReturnedInTime(c, seen);
      assert Heard(c, w, i, seen[i]);
    case Streamed(_, _, seen, at) =>
      CloseKeepsAnswers(c, StreamLoop(c, seen), at);
      StreamAnswersAreStreams(c, seen);
      var i := StreamLoop(c, seen).next - 1;
      StreamReturnedInTime(c, seen);
      assert StreamHeard(c, w, i, seen[i]);
  }

  /** The round that returned was in time and admitted. */
  lemma ReturnedInTime(c: Context, seen: seq<Seen>)
    requires GenerateLoop(c, seen).status.Returned?
    ensures var i := GenerateLoop(c, seen).next - 1;
      0 <= i < |seen| && seen[i].admitted && Remaining(c, seen[i].now) > 0.0
  {
    GenerateFollows(c, seen);
  }

  lemma StreamReturnedInTime(c: Context, seen: seq<StreamSeen>)
    requires StreamLoop(c, seen).status.Returned?
    ensures var i := StreamLoop(c, seen).next - 1;
      0 <= i < |seen| && seen[i].admitted && Remaining(c, seen[i].now) > 0.0
  {
    StreamFollows(c, seen);
  }

  // -------------------------------------------------------------------------
  // Failures

  const NO_FALLBACK := "invalid_provider_request"

  /** Why the candidate of this round failed, if it did. */
  ghost predicate FailedWith(c: Context, s: Seen, e: Error) {
    if !s.admitted then e == Error.CircuitOpen
    else
      match s.reply
      case TimedOut => e == ProviderTimeout
      case ProviderError(code) => e == ProviderFailure(code)
      case Completed(_, _, _, _, _) => e == SchemaViolation
  }

  /** The error that the loop is left with is that of the last candidate tried; of the first one if none was in time. */
  ghost predicate BlamesLast(c: Context, l: Loop, seen: seq<Seen>) {
    && l.next <= |seen| && l.next <= |c.targets|
    && ((l.status.Trying? || l.status.Broken?) && l.lastError.Some? ==>
          && c.targets != []
          && (if l.next == 0 then l.lastError == Some(Blame(ProviderTimeout, c.targets[0].route))
              else l.lastError.value.route == c.targets[l.next - 1].route
                   && FailedWith(c, seen[l.next - 1], l.lastError.value.error)))
  }

  lemma StepBlamesLast(c: Context, l: Loop, before: seq<Seen>, s: Seen)
    requires Active(c, l) && l.next == |before| && BlamesLast(c, l, before) && (l.lastError.Some? <==> l.next > 0)
    ensures BlamesLast(c, GenerateStep(c, l, s), before + [s])
  {
    hide AttemptBudgetMs;
    hide Validate;
  }

  lemma {:induction false} GenerateBlamesLast(c: Context, seen: seq<Seen>)
    ensures BlamesLast(c, GenerateLoop(c, seen), seen)
  {
    hide GenerateStep;
    if seen == [] {
      return;
    }
    var before, s := seen[..|seen| - 1], seen[|seen| - 1];
    assert seen == before + [s];
    GenerateBlamesLast(c, before);
    var l := GenerateLoop(c, before);
    if Active(c, l) {
      GenerateFollows(c, before);
      GenerateAccounted(c, before);
      StepBlamesLast(c, l, before, s);
      hide BlamesLast;
    }
  }

  /** What the client of a stream is told when a candidate fails: once a delta is out, that the stream was interrupted. */
  ghost predicate StreamFailedWith(c: Context, s: StreamSeen, e: Error) {
    if !s.admitted then e == Error.CircuitOpen
    else
      match s.ending
      case EndOfStream => e == SchemaViolation
      case StreamTimedOut => e == if Emitted(s.events) then StreamInterrupted else ProviderTimeout
      case StreamFailed(code) => e == if Emitted(s.events) then StreamInterrupted else ProviderFailure(code)
  }

  ghost predicate StreamBlamesLast(c: Context, l: Loop, seen: seq<StreamSeen>) {
    && l.next <= |seen| && l.next <= |c.targets|
    && ((l.status.Trying? || l.status.Broken?) && l.lastError.Some? ==>
          && c.targets != []
          && (if l.next == 0 then l.lastError == Some(Blame(ProviderTimeout, c.targets[0].route))
              else l.lastError.value.route == c.targets[l.next - 1].route
                   && (seen[l.next - 1].admitted ==> !Emitted(seen[l.next - 1].events))
                   && StreamFailedWith(c, seen[l.next - 1], l.lastError.value.error)))
    && (l.status.Raised? ==>
          && 0 < l.next && Emitted(seen[l.next - 1].events) && seen[l.next - 1].admitted
          && StreamFailedWith(c, seen[l.next - 1], l.status.error))
  }

  lemma StreamStepBlamesLast(c: Context, l: Loop, before: seq<StreamSeen>, s: StreamSeen)
    requires Active(c, l) && l.next == |before| && StreamBlamesLast(c, l, before) && (l.lastError.Some? <==> l.next > 0)
    ensures StreamBlamesLast(c, StreamStep(c, l, s), before + [s])
  {
    hide AttemptBudgetMs;
    hide Validate;
    hide ForwardAll;
    hide TextOf;
    hide Emitted;
    hide StreamedResponse;
  }

  lemma {:induction false} StreamLoopBlamesLast(c: Context, seen: seq<StreamSeen>)
    ensures StreamBlamesLast(c, StreamLoop(c, seen), seen)
  {
    hide StreamStep;
    hide Emitted;
    if seen == [] {
      return;
    }
    var before, s := seen[..|seen| - 1], seen[|seen| - 1];
    assert seen == before + [s];
    StreamLoopBlamesLast(c, before);
    var l := StreamLoop(c, before);
    if Active(c, l) {
      StreamFollows(c, before);
      StreamAccounted(c, before);
      StreamStepBlamesLast(c, l, before, s);
      hide StreamBlamesLast;
    }
  }

  /** A provider that calls the request invalid ends the chain; after any other failure the next candidate is tried. */
  lemma InvalidRequestsEndTheChain(c: Context, l: Loop, s: Seen)
    requires Active(c, l) && Remaining(c, s.now) > 0.0 && s.admitted && s.reply.ProviderError?
    ensures GenerateStep(c, l, s).status == if s.reply.code == NO_FALLBACK then Broken else Trying
  {
    hide AttemptBudgetMs;
  }

  // -------------------------------------------------------------------------
  // Evidence

  /** The codes of errors in the ledger. */
  ghost predicate HasCode(e: Error, code: string) {
    match e
    case PromptError => true
    case RateLimited => code == "rate_limit_exceeded"
    case NoEligibleRoute => code == "no_eligible_route"
    case ProviderTimeout => code == "provider_timeout"
    case ProviderFailure(given) => code == given
    case CircuitOpen => code == "circuit_open"
    case SchemaViolation => code == "schema_violation"
    case StreamInterrupted => code == "stream_interrupted"
  }

  /** The row is about this call and its lane. */
  ghost predicate IsAbout(lane: Lane, row: Metric) {
    && row.requestId == lane.request.requestId && row.tenantId == lane.request.tenantId
    && row.canary == lane.assignment.canary && row.releaseId == lane.assignment.releaseId
    && row.shadow == lane.kind.Shadow?
  }

  /** The row says of an answer what the answer says of itself. */
  ghost predicate RowOfAnswer(lane: Lane, r: Response, row: Metric) {
    && IsAbout(lane, row)
    && row.success && row.errorCode == None
    && row.routeId == r.routeId && row.provider == r.provider && row.cacheHit == r.cacheHit
    && row.schemaValid == r.schemaValid && row.usage == r.usage
    && row.ttftMs == r.ttftMs && row.latencyMs == r.latencyMs
    && row.routingRegret == r.routingRegret && row.fallbackCount == r.fallbackCount
  }

  /** The row of a failure on this route, timed to this reading. */
  ghost predicate RowOfFailure(c: Context, e: Error, route: Route, at: real, row: Metric) {
    && IsAbout(c.lane, row)
    && !row.success && row.errorCode.Some? && HasCode(e, row.errorCode.value)
    && row.routeId == route.id && row.provider == route.provider && !row.cacheHit
    && row.schemaValid == (if c.lane.request.responseSchema in {None, Some("{}")} then None else Some(false))
    && row.usage == Usage(0, 0, 0.0) && row.routingRegret == 0.0
    && row.ttftMs == row.latencyMs == (at - c.started) * 1000.0
  }

  lemma ResponseRowInWords(lane: Lane, r: Response)
    ensures RowOfAnswer(lane, r, ResponseRow(lane, r))
  {}

  lemma ErrorRowInWords(c: Context, e: Error, route: Route, fallback: nat, at: real)
    ensures RowOfFailure(c, e, route, at, ErrorRow(c.lane, route, e, fallback, (at - c.started) * 1000.0))
  {}

  /**
    What a call that has answered leaves behind: one row that repeats the answer's own
    figures, unless it is an evaluation, and one write of the answer to the cache
    exactly when it is a user's call, no canary, and does not bypass the cache.
   */
  lemma AnswerLeaves(g: Gateway, act: Activity, c: Context)
    requires Legal(g, act) && EntryOf(g, act) == Candidates(c) && LoopOf(g, act).status.Returned?
    ensures var j, r := LoopOf(g, act).journal, LoopOf(g, act).status.response;
      && (if act.call.kind.Evaluation? then j.rows == [] else |j.rows| == 1 && RowOfAnswer(c.lane, r, j.rows[0]))
      && (if act.call.kind.User? && !c.lane.assignment.canary && !act.call.request.cacheMode.Bypass?
          then |j.writes| == 1 && j.writes[0].response == r && j.writes[0].request == c.lane.request
          else j.writes == [])
  {
    hide LoopOf;
    hide EntryOf;
    JournalWrites(g, act);
    LaneOfEntry(g, act);
    assert WroteResponse(c, LoopOf(g, act));
    ResponseRowInWords(c.lane, LoopOf(g, act).status.response);
    hide ResponseRow;
    hide RowOfAnswer;
  }

  /** What a closed loop that raises has in its ledger. */
  lemma ClosingRow(c: Context, l: Loop, now: real)
    requires Accounted(c, l) && c.targets != [] && !l.status.Raised? && !c.lane.kind.Evaluation? && Close(c, l, now).status.Raised?
    ensures var after := Close(c, l, now);
      && l.lastError.Some? && after.status.error == l.lastError.value.error
      && (l.status.Trying? || l.status.Broken?)
      && |after.journal.rows| == 1 && after.next == l.next
      && RowOfFailure(c, after.status.error, Blamed(c, l), now, after.journal.rows[0])
  {
    var blame := l.lastError.value;
    ErrorRowInWords(c, blame.error, blame.route, l.fallback, now);
    hide ErrorRow;
    hide RowOfFailure;
  }

  /** The failure of a `generate` call: its error is that of the last candidate tried, and its one row says so. */
  ghost predicate GenerateFailure(c: Context, l: Loop, seen: seq<Seen>, finishedAt: real) {
    && l.next <= |seen| && l.next <= |c.targets| && c.targets != [] && l.status.Raised?
    && (if l.next == 0 then l.status.error == ProviderTimeout else FailedWith(c, seen[l.next - 1], l.status.error))
    && (if c.lane.kind.Evaluation? then l.journal.rows == []
        else |l.journal.rows| == 1 && RowOfFailure(c, l.status.error, Blamed(c, l), finishedAt, l.journal.rows[0]))
  }

  lemma QuietEvaluation(c: Context, l: Loop, now: real)
    requires Accounted(c, l) && !l.status.Raised? && c.lane.kind.Evaluation? && Close(c, l, now).status.Raised?
    ensures Close(c, l, now).journal.rows == [] && Close(c, l, now).next == l.next
    ensures l.lastError.Some? && Close(c, l, now).status.error == l.lastError.value.error
    ensures l.status.Trying? || l.status.Broken?
  {}

  lemma ClosedGenerateFailure(c: Context, seen: seq<Seen>, now: real)
    requires c.targets != [] && Close(c, GenerateLoop(c, seen), now).status.Raised?
    ensures GenerateFailure(c, Close(c, GenerateLoop(c, seen), now), seen, now)
  {
    var l := GenerateLoop(c, seen);
    GenerateAccounted(c, seen);
    GenerateNeverRaises(c, seen);
    GenerateBlamesLast(c, seen);
    if c.lane.kind.Evaluation? { QuietEvaluation(c, l, now); } else { ClosingRow(c, l, now); }
    hide GenerateLoop;
    hide Close;
    hide Accounted;
    hide RowOfFailure;
    hide FailedWith;
  }

  lemma GenerateFailureLeaves(g: Gateway, act: Activity, c: Context)
    requires Legal(g, act) && EntryOf(g, act) == Candidates(c) && act.Generated? && LoopOf(g, act).status.Raised?
    ensures GenerateFailure(c, LoopOf(g, act), act.seen, act.finishedAt)
  {
    hide GenerateFailure;
    hide GenerateLoop;
    hide Close;
    LoopOfCandidates(g, act);
    EnterIsReady(g, act.call, act.arrival);
    ClosedGenerateFailure(c, act.seen, act.finishedAt);
    hide LoopOf;
    hide Enter;
  }

  /** A stream that was interrupted wrote its row at once. */
  ghost predicate InterruptedRow(c: Context, l: Loop, seen: seq<StreamSeen>) {
    l.status.Raised? ==>
      && 0 < l.next <= |seen| && l.next <= |c.targets| && |l.journal.rows| == 1
      && RowOfFailure(c, l.status.error, c.targets[l.next - 1].route, seen[l.next - 1].at.measured, l.journal.rows[0])
  }

  lemma InterruptLeaves(c: Context, l: Loop, journal: Journal, error: Error, cause: Error, route: Route, now: real)
    requires Quiet(journal)
    ensures var rows := Interrupt(c, l, journal, error, cause, route, now).journal.rows;
      |rows| == 1 && RowOfFailure(c, error, route, now, rows[0])
  {
    ErrorRowInWords(c, error, route, l.fallback, now);
    hide ErrorRow;
    hide RowOfFailure;
  }

  lemma StreamStepInterruptedRow(c: Context, l: Loop, before: seq<StreamSeen>, s: StreamSeen)
    requires Active(c, l) && l.next == |before| && Quiet(l.journal)
    ensures InterruptedRow(c, StreamStep(c, l, s), before + [s])
  {
    var t := c.targets[l.next];
    var admitted := Admit(c, l, t.route, s.now, s.at);
    var journal := admitted.(events := admitted.events + ForwardAll(t.route, s.events));
    var failed := FailCircuit(journal, t.route, s.at.recorded);
    assert Quiet(journal) && Quiet(failed);
    InterruptLeaves(c, l, failed, StreamInterrupted, ProviderTimeout, t.route, s.at.measured);
    if s.ending.StreamFailed? {
      InterruptLeaves(c, l, failed, StreamInterrupted, ProviderFailure(s.ending.code), t.route, s.at.measured);
    }
    InterruptLeaves(c, l, journal, SchemaViolation, SchemaViolation, t.route, s.at.measured);
    hide ErrorRow;
    hide RowOfFailure;
    hide AttemptBudgetMs;
    hide Validate;
    hide ForwardAll;
    hide TextOf;
    hide Emitted;
    hide StreamedResponse;
    hide Quiet;
    hide ResponseRow;
    hide PostResponse;
    hide Assessment;
  }

  lemma {:induction false} StreamLoopInterruptedRow(c: Context, seen: seq<StreamSeen>)
    ensures InterruptedRow(c, StreamLoop(c, seen), seen)
  {
    hide StreamStep;
    hide RowOfFailure;
    if seen == [] {
      return;
    }
    var before, s := seen[..|seen| - 1], seen[|seen| - 1];
    assert seen == before + [s];
    StreamLoopInterruptedRow(c, before);
    var l := StreamLoop(c, before);
    if Active(c, l) {
      StreamFollows(c, before);
      StreamAccounted(c, before);
      StreamStepInterruptedRow(c, l, before, s);
      hide InterruptedRow;
    }
  }

  /** The same for `stream`, where a failure after the first delta is told as an interruption, at the reading it came. */
  ghost predicate StreamFailure(c: Context, l: Loop, seen: seq<StreamSeen>, finishedAt: real) {
    && l.next <= |seen| && l.next <= |c.targets| && c.targets != [] && l.status.Raised?
    && (if l.next == 0 then l.status.error == ProviderTimeout else StreamFailedWith(c, seen[l.next - 1], l.status.error))
    && |l.journal.rows| == 1
    && var interrupted := l.next > 0 && seen[l.next - 1].admitted && Emitted(seen[l.next - 1].events);
       RowOfFailure(c, l.status.error, Blamed(c, l), if interrupted then seen[l.next - 1].at.measured else finishedAt,
                    l.journal.rows[0])
  }

  lemma ClosedStreamFailure(c: Context, seen: seq<StreamSeen>, now: real)
    requires c.targets != [] && !c.lane.kind.Evaluation? && Close(c, StreamLoop(c, seen), now).status.Raised?
    ensures StreamFailure(c, Close(c, StreamLoop(c, seen), now), seen, now)
  {
    var l := StreamLoop(c, seen);
    StreamAccounted(c, seen);
    StreamLoopBlamesLast(c, seen);
    StreamLoopInterruptedRow(c, seen);
    if l.status.Raised? {
      assert Close(c, l, now) == l;
    } else {
      ClosingRow(c, l, now);
    }
    hide StreamLoop;
    hide Close;
    hide Accounted;
    hide RowOfFailure;
    hide StreamFailedWith;
    hide Emitted;
  }

  lemma StreamFailureLeaves(g: Gateway, act: Activity, c: Context)
    requires Legal(g, act) && EntryOf(g, act) == Candidates(c) && act.Streamed? && LoopOf(g, act).status.Raised?
    ensures StreamFailure(c, LoopOf(g, act), act.streamed, act.finishedAt)
  {
    hide StreamFailure;
    hide StreamLoop;
    hide Close;
    LoopOfCandidates(g, act);
    EnterIsReady(g, act.call, act.arrival);
    ClosedStreamFailure(c, act.streamed, act.finishedAt);
    hide LoopOf;
    hide Enter;
  }

  // -------------------------------------------------------------------------
  // Before the loop

  /** The request as it is asked: a rendered prompt comes first, and nothing else changes. */
  ghost predicate AsAsked(call: Call, rendered: Option<string>, request: Request) {
    && request == call.request.(messages := request.messages)
    && (call.request.prompt.None? ==> request.messages == call.request.messages)
    && (call.request.prompt.Some? ==>
          && rendered.Some?
          && |request.messages| == |call.request.messages| + 1
          && request.messages[0].role == "developer" && request.messages[0].content == rendered.value
          && request.messages[0].name == None
          && request.messages[1..] == call.request.messages)
  }

  lemma ResolvedAsAsked(call: Call, rendered: Option<string>)
    ensures Resolve(call.request, rendered).None? <==> call.request.prompt.Some? && rendered.None?
    ensures Resolve(call.request, rendered).Some? ==> AsAsked(call, rendered, Resolve(call.request, rendered).value)
  {}

  /** A lane may be answered from the cache: a user's call, no canary, that does not refresh or bypass it. */
  predicate Cacheable(lane: Lane) {
    lane.kind.User? && !lane.assignment.canary && lane.request.cacheMode == Default
  }

  /** The cached response, marked as a hit of this request that cost nothing and took this long. */
  ghost predicate RelaysHit(a: Arrival, lane: Lane, cached: Response, r: Response) {
    && r.requestId == lane.request.requestId && r.cacheHit
    && r.text == cached.text && r.parsed == cached.parsed && r.schemaValid == cached.schemaValid
    && r.routeId == cached.routeId && r.provider == cached.provider && r.model == cached.model
    && r.fallbackCount == cached.fallbackCount && r.routingRegret == cached.routingRegret
    && r.usage.inputTokens == 0 && r.usage.outputTokens == 0 && r.usage.costUsd == 0.0
    && r.ttftMs == r.latencyMs == (a.hitAt - a.started) * 1000.0
  }

  /** No route of the catalogue may serve the request. */
  ghost predicate NothingServes(g: Gateway, t: Router.Terms) {
    forall route :: route in g.routes ==> !MayServe(t, route)
  }

  /**
    How a call goes on, in words: without a prompt it cannot render it stops, without a
    token too; a cacheable call is answered by what the cache has for it; any other is
    routed, and stops when no route may serve it.
   */
  lemma EntryInWords(g: Gateway, call: Call, a: Arrival)
    requires call.request.Valid() && Distinct(RouteIds(g.routes))
    ensures match Enter(g, call, a)
      case Rejected(PromptError) => call.request.prompt.Some? && a.rendered.None?
      case Rejected(RateLimited) => call.kind.User? && !a.admitted
      case Rejected(NoEligibleRoute) =>
        && (call.kind.User? ==> a.admitted)
        && exists request :: AsAsked(call, a.rendered, request) && NothingServes(g, TermsOf(call, a, request))
      case Rejected(_) => false
      case CacheHit(lane, r) =>
        && AsAsked(call, a.rendered, lane.request) && a.admitted && Cacheable(lane)
        && a.cached.Some? && RelaysHit(a, lane, a.cached.value, r)
      case Candidates(c) =>
        && AsAsked(call, a.rendered, c.lane.request) && c.started == a.started && (call.kind.User? ==> a.admitted)
        && !(Cacheable(c.lane) && a.cached.Some?)
        && !NothingServes(g, TermsOf(call, a, c.lane.request))
  {
    ResolvedAsAsked(call, a.rendered);
    hide Router.DecisionFor;
    hide MayServe;
    var resolved := Resolve(call.request, a.rendered);
    if resolved.Some? {
      var terms := Router.Terms(resolved.value, call.forced, {}, a.available);
      var lane := Lane(resolved.value, call.forced, call.kind, AssignmentOf(g.hash, call, a.live, resolved.value));
      NothingRouted(g, terms, lane.assignment.preferredRouteId);
      if Enter(g, call, a).Candidates? { EnterIsReady(g, call, a); }
    }
    hide AsAsked;
    hide AssignmentOf;
    hide Router.OrderedCandidates;
  }

  lemma NothingRouted(g: Gateway, t: Router.Terms, preferred: Option<RouteId>)
    requires t.request.Valid() && Distinct(RouteIds(g.routes))
    ensures Router.DecisionFor(g.weights, g.routes, t, preferred).NoEligibleRoute? <==> NothingServes(g, t)
  {
    hide MayServe;
    Router.RankedMembers(g.weights, t, g.routes);
    hide Router.Ranked;
    hide Router.Feasible;
    var cs := Router.Ranked(g.weights, t, g.routes);
    if cs != [] {
      assert cs[0] in cs;
      var route :| Router.StandsFor(g.weights, t, g.routes, cs[0], route);
      FeasibleInWords(t, route);
    }
    if route :| route in g.routes && MayServe(t, route) {
      FeasibleInWords(t, route);
      assert Router.Offers(cs, route.id);
    }
  }

  /** What a hit leaves behind: one row that repeats the answer's own figures, and no write. */
  lemma HitLeaves(g: Gateway, act: Activity, lane: Lane, r: Response)
    requires Legal(g, act) && EntryOf(g, act) == CacheHit(lane, r)
    ensures var l := LoopOf(g, act);
      && l.status == Returned(r) && l.journal.writes == []
      && |l.journal.rows| == 1 && RowOfAnswer(lane, r, l.journal.rows[0])
  {
    ResponseRowInWords(lane, r);
    hide Enter;
  }

  /** The answer of a call is what its world's provider replied, or what the cache held for it. */
  ghost predicate Delivered(g: Gateway, w: World, act: Activity, r: Response)
    requires Legal(g, act)
  {
    match EntryOf(g, act)
    case Rejected(_) => false
    case CacheHit(lane, _) => act.arrival.cached.Some? && RelaysHit(act.arrival, lane, act.arrival.cached.value, r)
    case Candidates(c) => RelaysWorld(c, w, act, r)
  }

  lemma HitIsDelivered(g: Gateway, w: World, act: Activity)
    requires Legal(g, act) && EntryOf(g, act).CacheHit?
    ensures Delivered(g, w, act, EntryOf(g, act).response)
  {
    EntryInWords(g, act.call, act.arrival);
    hide Enter;
  }
}
