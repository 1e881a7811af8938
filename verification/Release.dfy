/**
  Releases, the evidence ledger, and the automated rollback decision.

  A table is a map or an append-only sequence, and each registry call is one
  atomic step. Instants are reals.
 */
module Release {
  import opened Domain
  import opened Ordering
  import Percentile

  datatype State = Draft | Candidate | Active | RolledBack | Rejected

  datatype Release = Release(
    id: ReleaseId,
    name: string,
    baselineRouteId: RouteId,
    candidateRouteId: RouteId,
    canaryPercent: nat,
    shadowPercent: nat,
    state: State,
    maxErrorRate: real,
    maxP99LatencyMs: real,
    minSchemaCompliance: real,
    minCanarySamples: nat,
    updatedAt: real)
  {
    predicate Valid() { minCanarySamples >= 1 && canaryPercent <= 100 && shadowPercent <= 100 }
  }

  type Releases = map<ReleaseId, Release>

  // -------------------------------------------------------------------------
  // The registry

  /** Registry commands: `create`, and the state changes behind start_canary, promote, assess and rollback. */
  datatype Command = Create(release: Release) | SetState(id: ReleaseId, state: State, now: real)

  /** None stands for the error (conflict or not found); nothing is stored then. */
  function Apply(rows: Releases, c: Command): Option<Releases> {
    match c
    case Create(release) =>
      if release.id in rows then None else Some(rows[release.id := release])
    case SetState(id, state, now) =>
      if id !in rows then None
      else if state.Active? then
        Some(map i | i in rows ::
          if i == id then rows[i].(state := Active, updatedAt := now)
          else if rows[i].name == rows[id].name && rows[i].state.Active? then rows[i].(state := RolledBack, updatedAt := now)
          else rows[i])
      else Some(rows[id := rows[id].(state := state, updatedAt := now)])
  }

  /** The table after a command, whether or not it was refused. */
  function Do(rows: Releases, c: Command): Releases {
    match Apply(rows, c)
    case Some(after) => after
    case None => rows
  }

  predicate IsLive(rows: Releases, name: string, id: ReleaseId) {
    id in rows && rows[id].name == name && (rows[id].state.Candidate? || rows[id].state.Active?)
  }

  /** The order of `get_live`: candidates first, then the latest update. */
  predicate AtLeastAsLive(a: Release, b: Release) {
    if a.state.Candidate? != b.state.Candidate? then a.state.Candidate? else a.updatedAt >= b.updatedAt
  }

  /** `get_live` may answer this; ties in the last key are broken arbitrarily, as SQL may. */
  ghost predicate MayBeLive(rows: Releases, name: string, live: Option<Release>) {
    && (live.None? <==> forall id :: !IsLive(rows, name, id))
    && (live.Some? ==> exists id :: IsLive(rows, name, id) && rows[id] == live.value)
    && (live.Some? ==> forall id :: IsLive(rows, name, id) ==> AtLeastAsLive(live.value, rows[id]))
  }

  class ReleaseRegistry {
    var rows: Releases

    constructor ()
      ensures rows == map[]
    {
      rows := map[];
    }

    method Create(release: Release) returns (ok: bool)
      modifies this
      ensures ok <==> release.id !in old(rows)
      ensures rows == Do(old(rows), Command.Create(release))
    {
      if release.id in rows {
        return false;
      }
      rows := rows[release.id := release];
      return true;
    }

    method Get(id: ReleaseId) returns (release: Option<Release>)
      ensures release == if id in rows then Some(rows[id]) else None
    {
      release := if id in rows then Some(rows[id]) else None;
    }

    method SetState(id: ReleaseId, state: State, now: real) returns (ok: bool)
      modifies this
      ensures ok <==> id in old(rows)
      ensures rows == Do(old(rows), Command.SetState(id, state, now))
    {
      if id !in rows {
        return false;
      }
      if state.Active? {
        var todo := rows.Keys;
        while todo != {}
          invariant todo <= rows.Keys == old(rows).Keys
          invariant forall i :: i in rows ==>
            rows[i] == if i !in todo && i != id && old(rows)[i].name == old(rows)[id].name && old(rows)[i].state.Active?
                       then old(rows)[i].(state := RolledBack, updatedAt := now) else old(rows)[i]
        {
          var i :| i in todo;
          if rows[i].name == rows[id].name && rows[i].state.Active? && i != id {
            rows := rows[i := rows[i].(state := RolledBack, updatedAt := now)];
          }
          todo := todo - {i};
        }
      }
      rows := rows[id := rows[id].(state := state, updatedAt := now)];
      return true;
    }

    /** Any one of the commands above. */
    method Perform(command: Command)
      modifies this
      ensures rows == Do(old(rows), command)
    {
      hide Do;
      match command {
        case Create(release) => var ok := Create(release);
        case SetState(id, state, now) => var ok := SetState(id, state, now);
      }
    }

    method GetLive(name: string) returns (live: Option<Release>)
      ensures MayBeLive(rows, name, live)
    {
      live := None;
      var todo := rows.Keys;
      while todo != {}
        invariant todo <= rows.Keys
        invariant live.None? ==> forall id :: id in rows.Keys - todo ==> !IsLive(rows, name, id)
        invariant live.Some? ==> exists id :: IsLive(rows, name, id) && rows[id] == live.value
        invariant live.Some? ==> forall id :: id in rows.Keys - todo && IsLive(rows, name, id) ==> AtLeastAsLive(live.value, rows[id])
      {
        var id :| id in todo;
        if IsLive(rows, name, id) && (live.None? || !AtLeastAsLive(live.value, rows[id])) {
          live := Some(rows[id]);
        }
        todo := todo - {id};
      }
    }
  }

  /** A CANDIDATE is returned whenever one exists, and it is the latest updated of its class. */
  lemma LiveIsLatestCandidateElseLatestActive(rows: Releases, name: string, live: Release)
    requires MayBeLive(rows, name, Some(live))
    ensures live.name == name && (live.state.Candidate? || live.state.Active?)
    ensures live.state.Candidate? <==> exists id :: IsLive(rows, name, id) && rows[id].state.Candidate?
    ensures forall id :: IsLive(rows, name, id) && rows[id].state == live.state ==> rows[id].updatedAt <= live.updatedAt
  {
    var id :| IsLive(rows, name, id) && rows[id] == live;
    if other :| IsLive(rows, name, other) && rows[other].state.Candidate? {
      assert AtLeastAsLive(live, rows[other]);
    }
  }

  /** What is live, in words: a release of that name under test or in force, if there is one. */
  lemma LiveInWords(rows: Releases, name: string, live: Option<Release>)
    requires MayBeLive(rows, name, live)
    ensures live.None? <==>
              forall id :: id in rows && rows[id].name == name ==> rows[id].state != Candidate && rows[id].state != Active
    ensures live.Some? ==>
              && (exists id :: id in rows && rows[id] == live.value)
              && live.value.name == name && live.value.state in {Candidate, Active}
              && (forall id :: id in rows && rows[id].name == name && rows[id].state == Candidate ==>
                    live.value.state == Candidate && rows[id].updatedAt <= live.value.updatedAt)
              && (live.value.state == Active ==>
                    forall id :: id in rows && rows[id].name == name && rows[id].state == Active ==>
                      rows[id].updatedAt <= live.value.updatedAt)
  {
    if live.None? {
      forall id | id in rows && rows[id].name == name ensures rows[id].state != Candidate && rows[id].state != Active {
        assert !IsLive(rows, name, id);
      }
    } else {
      var id :| IsLive(rows, name, id) && rows[id] == live.value;
      forall other | other in rows && rows[other].name == name && rows[other].state in {Candidate, Active}
        ensures AtLeastAsLive(live.value, rows[other])
      {
        assert IsLive(rows, name, other);
      }
    }
  }

  // -------------------------------------------------------------------------
  // At most one active release per name

  ghost predicate SingleActive(rows: Releases) {
    forall i, j :: i in rows && j in rows && rows[i].state.Active? && rows[j].state.Active? && rows[i].name == rows[j].name ==> i == j
  }

  ghost predicate KeyedById(rows: Releases) { forall i :: i in rows ==> rows[i].id == i }

  /** Promotion makes its target the only ACTIVE one of that name, from any state of the table. */
  lemma PromotionLeavesOneActive(rows: Releases, id: ReleaseId, now: real)
    requires id in rows
    ensures var after := Apply(rows, SetState(id, Active, now)).value;
      && after.Keys == rows.Keys
      && after[id].state.Active?
      && (forall i :: i in after && after[i].name == rows[id].name && after[i].state.Active? ==> i == id)
      && (forall i :: i in after && rows[i].name != rows[id].name ==> after[i] == rows[i])
      && (SingleActive(rows) ==> SingleActive(after))
  {}

  lemma OtherStatesKeepSingleActive(rows: Releases, id: ReleaseId, state: State, now: real)
    requires SingleActive(rows) && id in rows && !state.Active?
    ensures SingleActive(Apply(rows, SetState(id, state, now)).value)
  {}

  /** `create` stores any state it is given, so it keeps the rule exactly when it adds no second ACTIVE. */
  lemma CreateKeepsSingleActiveIff(rows: Releases, release: Release)
    requires SingleActive(rows) && release.id !in rows
    ensures SingleActive(Apply(rows, Create(release)).value) <==>
            !(release.state.Active? && exists i :: i in rows && rows[i].state.Active? && rows[i].name == release.name)
  {
    var after := Apply(rows, Create(release)).value;
    if i :| i in rows && rows[i].state.Active? && rows[i].name == release.name {
      assert release.state.Active? ==> after[i].state.Active? && after[release.id].state.Active? && i != release.id;
    }
  }

  function Run(commands: seq<Command>): Releases {
    if commands == [] then map[]
    else Do(Run(commands[..|commands| - 1]), commands[|commands| - 1])
  }

  /** In every run in which releases are created as drafts, each name has at most one ACTIVE release. */
  lemma {:induction false} RunsKeepSingleActive(commands: seq<Command>)
    requires forall i :: 0 <= i < |commands| && commands[i].Create? ==> commands[i].release.state.Draft?
    ensures SingleActive(Run(commands)) && KeyedById(Run(commands))
  {
    if commands != [] {
      var before, last := commands[..|commands| - 1], commands[|commands| - 1];
      RunsKeepSingleActive(before);
      var rows := Run(before);
      if Apply(rows, last).Some? {
        match last
        case Create(release) => CreateKeepsSingleActiveIff(rows, release);
        case SetState(id, state, now) =>
          if state.Active? { PromotionLeavesOneActive(rows, id, now); }
          else { OtherStatesKeepSingleActive(rows, id, state, now); }
      }
    }
  }

  // -------------------------------------------------------------------------
  // The evidence ledger

  datatype Query = Query(releaseId: Option<ReleaseId>, routeId: Option<RouteId>, canary: Option<bool>)

  predicate Matches(q: Query, m: Metric) {
    && (q.releaseId.Some? ==> m.releaseId == q.releaseId)
    && (q.routeId.Some? ==> m.routeId == q.routeId.value)
    && (q.canary.Some? ==> m.canary == q.canary.value)
  }

  /** The newest `limit` matching rows, newest first. */
  function Newest(rows: seq<Metric>, q: Query, limit: nat): seq<Metric> {
    if rows == [] || limit == 0 then []
    else
      var last, before := rows[|rows| - 1], rows[..|rows| - 1];
      if Matches(q, last) then [last] + Newest(before, q, limit - 1) else Newest(before, q, limit)
  }

  lemma NewestOfNone(rows: seq<Metric>, q: Query, limit: nat)
    requires rows == [] || limit == 0
    ensures Newest(rows, q, limit) == []
  {}

  lemma NewestStep(rows: seq<Metric>, i: nat, q: Query, got: seq<Metric>, left: nat)
    requires i < |rows| && left > 0
    ensures got + Newest(rows[..i + 1], q, left) ==
            if Matches(q, rows[i]) then got + [rows[i]] + Newest(rows[..i], q, left - 1) else got + Newest(rows[..i], q, left)
  {
    hide Matches;
    assert rows[..i + 1][..i] == rows[..i];
    assert got + ([rows[i]] + Newest(rows[..i], q, left - 1)) == got + [rows[i]] + Newest(rows[..i], q, left - 1);
  }

  /** The rows of a query, oldest first. */
  function Rows(rows: seq<Metric>, q: Query): seq<Metric> {
    if rows == [] then []
    else Rows(rows[..|rows| - 1], q) + if Matches(q, rows[|rows| - 1]) then [rows[|rows| - 1]] else []
  }

  lemma {:induction false} RowsMatch(rows: seq<Metric>, q: Query, m: Metric)
    ensures m in Rows(rows, q) <==> m in rows && Matches(q, m)
  {
    if rows != [] {
      RowsMatch(rows[..|rows| - 1], q, m);
      assert rows == rows[..|rows| - 1] + [rows[|rows| - 1]];
    }
  }

  /** A query reads the tail of its own rows and nothing else of the ledger. */
  lemma {:induction false} NewestDependsOnItsRows(rows: seq<Metric>, q: Query, limit: nat)
    ensures Newest(rows, q, limit) == Newest(Rows(rows, q), q, limit)
    ensures |Newest(rows, q, limit)| == (if |Rows(rows, q)| <= limit then |Rows(rows, q)| else limit)
    ensures forall k :: 0 <= k < |Newest(rows, q, limit)| ==>
              Newest(rows, q, limit)[k] == Rows(rows, q)[|Rows(rows, q)| - 1 - k]
  {
    if rows != [] && limit > 0 {
      var last, before := rows[|rows| - 1], rows[..|rows| - 1];
      var kept := Rows(before, q);
      if Matches(q, last) {
        NewestDependsOnItsRows(before, q, limit - 1);
        assert (kept + [last])[..|kept|] == kept;
      } else {
        NewestDependsOnItsRows(before, q, limit);
        assert Rows(rows, q) == kept;
      }
    }
  }

  datatype Summary = Summary(
    requests: nat,
    successfulRequests: nat,
    successRate: real,
    schemaCompliance: Option<real>,
    p99LatencyMs: Option<real>)

  function Succeeded(): Metric -> Option<Metric> { (m: Metric) => if m.success then Some(m) else None }
  function SchemaOf(): Metric -> Option<bool> { (m: Metric) => m.schemaValid }
  function SchemaGood(): Metric -> Option<Metric> { (m: Metric) => if m.schemaValid == Some(true) then Some(m) else None }
  function LatencyOf(): Metric -> Option<real> { (m: Metric) => Some(m.latencyMs) }

  function Latencies(metrics: seq<Metric>): seq<real> { Collect(LatencyOf(), metrics) }

  function Summarize(metrics: seq<Metric>): Summary {
    var count := |metrics|;
    var successes := |Collect(Succeeded(), metrics)|;
    var schemas := |Collect(SchemaOf(), metrics)|;
    Summary(
      count,
      successes,
      if count > 0 then successes as real / count as real else 0.0,
      if schemas > 0 then Some(|Collect(SchemaGood(), metrics)| as real / schemas as real) else None,
      Percentile.OfSorted(Sort(RealLeq, Latencies(metrics)), 0.99))
  }

  class EvidenceStore {
    var rows: seq<Metric>

    constructor ()
      ensures rows == []
    {
      rows := [];
    }

    method RecordMetric(metric: Metric)
      modifies this
      ensures rows == old(rows) + [metric]
    {
      rows := rows + [metric];
    }

    method Metrics(q: Query, limit: nat) returns (metrics: seq<Metric>)
      ensures metrics == Newest(rows, q, limit)
    {
      hide Matches;
      hide Newest;
      metrics := [];
      var i := |rows|;
      assert rows[..i] == rows && metrics + Newest(rows, q, limit) == Newest(rows, q, limit);
      while i > 0 && |metrics| < limit
        invariant 0 <= i <= |rows| && |metrics| <= limit
        invariant Newest(rows, q, limit) == metrics + Newest(rows[..i], q, limit - |metrics|)
      {
        i := i - 1;
        NewestStep(rows, i, q, metrics, limit - |metrics|);
        if Matches(q, rows[i]) {
          metrics := metrics + [rows[i]];
        }
      }
      NewestOfNone(rows[..i], q, limit - |metrics|);
    }

    method Summary(q: Query) returns (summary: Summary)
      ensures summary == Summarize(Newest(rows, q, 100_000))
    {
      var metrics := Metrics(q, 100_000);
      summary := Summarize(metrics);
    }
  }

  // -------------------------------------------------------------------------
  // The rollback decision

  datatype RollbackReason = ErrorRate(rate: real) | P99Latency(ms: real) | SchemaCompliance(rate: real)

  function RollbackReasons(release: Release, s: Summary): seq<RollbackReason> {
    (if 1.0 - s.successRate > release.maxErrorRate then [ErrorRate(1.0 - s.successRate)] else []) +
    (if s.p99LatencyMs.Some? && s.p99LatencyMs.value > release.maxP99LatencyMs
     then [P99Latency(s.p99LatencyMs.value)] else []) +
    (if s.schemaCompliance.Some? && s.schemaCompliance.value < release.minSchemaCompliance
     then [SchemaCompliance(s.schemaCompliance.value)] else [])
  }

  function CanaryQuery(id: ReleaseId): Query { Query(Some(id), None, Some(true)) }

  /** The release, judged by the newest canary rows of the ledger. */
  function Judgement(release: Release, ledger: seq<Metric>): seq<RollbackReason> {
    var summary := Summarize(Newest(ledger, CanaryQuery(release.id), 100_000));
    if !release.state.Candidate? || summary.requests < release.minCanarySamples then []
    else RollbackReasons(release, summary)
  }

  /** What others do while an assessment waits for the database. */
  datatype Deed = Ordered(command: Command) | Wrote(row: Metric)

  function RowsAfter(rows: Releases, deeds: seq<Deed>): Releases {
    if deeds == [] then rows
    else
      var before := RowsAfter(rows, deeds[..|deeds| - 1]);
      match deeds[|deeds| - 1]
      case Ordered(command) => Do(before, command)
      case Wrote(_) => before
  }

  function LedgerAfter(ledger: seq<Metric>, deeds: seq<Deed>): seq<Metric> {
    if deeds == [] then ledger
    else
      LedgerAfter(ledger, deeds[..|deeds| - 1]) + if deeds[|deeds| - 1].Wrote? then [deeds[|deeds| - 1].row] else []
  }

  class ReleaseManager {
    const releases: ReleaseRegistry
    const evidence: EvidenceStore

    constructor (releases: ReleaseRegistry, evidence: EvidenceStore)
      ensures this.releases == releases && this.evidence == evidence
    {
      this.releases := releases;
      this.evidence := evidence;
    }

    method Wait(deeds: seq<Deed>)
      modifies releases, evidence
      ensures releases.rows == RowsAfter(old(releases.rows), deeds)
      ensures evidence.rows == LedgerAfter(old(evidence.rows), deeds)
    {
      hide Do;
      var i := 0;
      while i < |deeds|
        invariant 0 <= i <= |deeds|
        invariant releases.rows == RowsAfter(old(releases.rows), deeds[..i])
        invariant evidence.rows == LedgerAfter(old(evidence.rows), deeds[..i])
      {
        assert deeds[..i + 1][..i] == deeds[..i];
        match deeds[i] {
          case Ordered(command) => releases.Perform(command);
          case Wrote(row) => evidence.RecordMetric(row);
        }
        i := i + 1;
      }
      assert deeds[..i] == deeds;
    }

    /**
      None is the not-found error; otherwise the reasons for which the release was
      rolled back, if any. Others act before the evidence is read and again before
      the release is rolled back: it is judged as it was read first, by the ledger as
      it is then, and it is rolled back whatever has become of it.
     */
    method Assess(id: ReleaseId, now: real, first: seq<Deed>, second: seq<Deed>) returns (reasons: Option<seq<RollbackReason>>)
      modifies releases, evidence
      ensures reasons.None? <==> id !in old(releases.rows)
      ensures reasons.Some? && KeyedById(old(releases.rows)) ==>
                reasons.value == Judgement(old(releases.rows)[id], LedgerAfter(old(evidence.rows), first))
      ensures var judged := reasons.Some? && old(releases.rows)[id].state.Candidate?;
        if !judged then releases.rows == old(releases.rows) && evidence.rows == old(evidence.rows)
        else if reasons.value == [] then
          && releases.rows == RowsAfter(old(releases.rows), first)
          && evidence.rows == LedgerAfter(old(evidence.rows), first)
        else
          && releases.rows == Do(RowsAfter(RowsAfter(old(releases.rows), first), second), SetState(id, RolledBack, now))
          && evidence.rows == LedgerAfter(LedgerAfter(old(evidence.rows), first), second)
    {
      hide Do;
      hide RowsAfter;
      hide LedgerAfter;
      hide Summarize;
      hide Newest;
      var release := releases.Get(id);
      if release.None? {
        return None;
      }
      if !release.value.state.Candidate? {
        return Some([]);
      }
      Wait(first);
      var summary := evidence.Summary(CanaryQuery(release.value.id));
      if summary.requests < release.value.minCanarySamples {
        return Some([]);
      }
      var found: seq<RollbackReason> := [];
      if 1.0 - summary.successRate > release.value.maxErrorRate {
        found := found + [ErrorRate(1.0 - summary.successRate)];
      }
      if summary.p99LatencyMs.Some? && summary.p99LatencyMs.value > release.value.maxP99LatencyMs {
        found := found + [P99Latency(summary.p99LatencyMs.value)];
      }
      if summary.schemaCompliance.Some? && summary.schemaCompliance.value < release.value.minSchemaCompliance {
        found := found + [SchemaCompliance(summary.schemaCompliance.value)];
      }
      assert found == RollbackReasons(release.value, summary);
      if found == [] {
        return Some([]);
      }
      Wait(second);
      var ok := releases.SetState(id, RolledBack, now);
      return Some(found);
    }
  }

  // -------------------------------------------------------------------------
  // What an assessment may roll back

  /** The latest order that others gave for this release. */
  function LastOrder(deeds: seq<Deed>, id: ReleaseId): Option<State> {
    if deeds == [] then None
    else
      match deeds[|deeds| - 1]
      case Ordered(SetState(i, state, _)) => if i == id then Some(state) else LastOrder(deeds[..|deeds| - 1], id)
      case _ => LastOrder(deeds[..|deeds| - 1], id)
  }

  /**
    A release that was judged as a candidate is still one when it is rolled back
    exactly when the last order given for it in between, if any, was to be one. So
    a promotion in between is undone.
   */
  lemma {:induction false} StillCandidateIff(rows: Releases, id: ReleaseId, deeds: seq<Deed>)
    requires id in rows && rows[id].state.Candidate?
    ensures id in RowsAfter(rows, deeds)
    ensures RowsAfter(rows, deeds)[id].state.Candidate? <==> LastOrder(deeds, id).None? || LastOrder(deeds, id) == Some(Candidate)
  {
    if deeds != [] { StillCandidateIff(rows, id, deeds[..|deeds| - 1]); }
  }

  lemma PromotedMeanwhileIsRolledBack(rows: Releases, id: ReleaseId, promoted: real, now: real)
    requires id in rows && rows[id].state.Candidate?
    ensures var changed := RowsAfter(rows, [Ordered(SetState(id, Active, promoted))]);
      && id in changed && changed[id].state.Active?
      && id in Do(changed, SetState(id, RolledBack, now)) && Do(changed, SetState(id, RolledBack, now))[id].state.RolledBack?
  {
    assert [Ordered(SetState(id, Active, promoted))][..0] == [];
  }

  /** Whatever others do, and whatever the assessment does after it, no name gets a second ACTIVE release. */
  lemma {:induction false} DeedsKeepSingleActive(rows: Releases, deeds: seq<Deed>, id: ReleaseId, now: real)
    requires SingleActive(rows)
    requires forall i :: 0 <= i < |deeds| && deeds[i].Ordered? && deeds[i].command.Create? ==> !deeds[i].command.release.state.Active?
    ensures SingleActive(RowsAfter(rows, deeds))
    ensures SingleActive(Do(RowsAfter(rows, deeds), SetState(id, RolledBack, now)))
  {
    if deeds != [] {
      DeedsKeepSingleActive(rows, deeds[..|deeds| - 1], id, now);
      if deeds[|deeds| - 1].Ordered? { DoKeepsSingleActive(RowsAfter(rows, deeds[..|deeds| - 1]), deeds[|deeds| - 1].command); }
    }
    DoKeepsSingleActive(RowsAfter(rows, deeds), SetState(id, RolledBack, now));
  }

  lemma DoKeepsSingleActive(rows: Releases, command: Command)
    requires SingleActive(rows) && (command.Create? ==> !command.release.state.Active?)
    ensures SingleActive(Do(rows, command))
  {
    if Apply(rows, command).Some? {
      match command
      case Create(release) => CreateKeepsSingleActiveIff(rows, release);
      case SetState(id, state, now) =>
        if state.Active? { PromotionLeavesOneActive(rows, id, now); }
        else { OtherStatesKeepSingleActive(rows, id, state, now); }
    }
  }

  /** `part` is less than this share of `whole`. */
  predicate Less(part: int, share: real, whole: nat) { (part as real) < share * whole as real }

  /** `part` is more than this share of `whole`. */
  predicate More(part: int, share: real, whole: nat) { part as real > share * whole as real }

  lemma ShareBelow(p: real, n: real, bound: real)
    requires n > 0.0
    ensures p / n < bound <==> p < bound * n
  {
    var share := p / n;
    assert share * n == p;
    ScaleCompares(share, bound, n);
  }

  lemma ScaleCompares(a: real, b: real, n: real)
    requires n > 0.0
    ensures a < b <==> a * n < b * n
  {}

  lemma Complement(b: real, n: real)
    ensures (1.0 - b) * n == n - b * n
  {}

  lemma SharesCompare(part: nat, whole: nat, bound: real)
    requires whole > 0
    ensures part as real / whole as real < bound <==> Less(part, bound, whole)
    ensures 1.0 - part as real / whole as real > bound <==> More(whole - part, bound, whole)
  {
    ShareBelow(part as real, whole as real, bound);
    ShareBelow(part as real, whole as real, 1.0 - bound);
    Complement(bound, whole as real);
    assert (whole - part) as real == whole as real - part as real;
  }

  lemma {:induction false} LatenciesFollowRows(metrics: seq<Metric>)
    ensures |Latencies(metrics)| == |metrics|
  {
    if metrics != [] { LatenciesFollowRows(metrics[..|metrics| - 1]); }
  }

  lemma SlowInCounts(rows: seq<Metric>, limit: real)
    requires rows != []
    ensures Summarize(rows).p99LatencyMs.Some?
    ensures Summarize(rows).p99LatencyMs.value > limit <==>
            !Percentile.Covers(Percentile.CountAtMost(Latencies(rows), limit), 0.99, |rows|)
  {
    hide Percentile.Covers;
    hide Percentile.CountAtMost;
    hide Percentile.OfSorted;
    hide Percentile.OfUnsorted;
    var latencies := Latencies(rows);
    LatenciesFollowRows(rows);
    Percentile.PercentileIsLeastCovering(latencies, 0.99, limit);
    Percentile.PercentilesAgree(latencies, latencies, 0.99);
  }

  lemma RatesInCounts(release: Release, rows: seq<Metric>)
    requires rows != []
    ensures var s := Summarize(rows);
      var failed := |rows| - |Collect(Succeeded(), rows)|;
      var isChecked, good := |Collect(SchemaOf(), rows)|, |Collect(SchemaGood(), rows)|;
      && (1.0 - s.successRate > release.maxErrorRate <==> More(failed, release.maxErrorRate, |rows|))
      && (s.schemaCompliance.Some? && s.schemaCompliance.value < release.minSchemaCompliance <==>
          isChecked > 0 && Less(good, release.minSchemaCompliance, isChecked))
  {
    hide Less;
    hide More;
    SharesCompare(|Collect(Succeeded(), rows)|, |rows|, release.maxErrorRate);
    if |Collect(SchemaOf(), rows)| > 0 {
      SharesCompare(|Collect(SchemaGood(), rows)|, |Collect(SchemaOf(), rows)|, release.minSchemaCompliance);
    }
  }

  lemma JudgementInSelections(release: Release, ledger: seq<Metric>)
    requires release.Valid() && release.state.Candidate?
    ensures var rows := Newest(ledger, CanaryQuery(release.id), 100_000);
      var failed := |rows| - |Collect(Succeeded(), rows)|;
      var fast := Percentile.CountAtMost(Latencies(rows), release.maxP99LatencyMs);
      var isChecked, good := |Collect(SchemaOf(), rows)|, |Collect(SchemaGood(), rows)|;
      Judgement(release, ledger) != [] <==>
        && |rows| >= release.minCanarySamples
        && (|| More(failed, release.maxErrorRate, |rows|)
            || !Percentile.Covers(fast, 0.99, |rows|)
            || (isChecked > 0 && Less(good, release.minSchemaCompliance, isChecked)))
  {
    hide Less;
    hide More;
    var rows := Newest(ledger, CanaryQuery(release.id), 100_000);
    if |rows| >= release.minCanarySamples {
      RatesInCounts(release, rows);
      SlowInCounts(rows, release.maxP99LatencyMs);
    }
    assert Summarize(rows).requests == |rows|;
    hide Summarize;
    hide Percentile.Covers;
    hide Percentile.CountAtMost;
  }

  // -------------------------------------------------------------------------
  // What the evidence says, in counts of rows of the ledger

  /** The row is about this release, this route and this lane, as far as the query names them. */
  ghost predicate Wanted(q: Query, m: Metric) {
    && (q.releaseId == None || m.releaseId == q.releaseId)
    && (q.routeId == None || Some(m.routeId) == q.routeId)
    && (q.canary == None || Some(m.canary) == q.canary)
  }

  ghost function Later(ledger: seq<Metric>, q: Query, i: nat): set<nat> {
    set j: nat | i < j < |ledger| && Wanted(q, ledger[j])
  }

  /** The positions of the rows that a query reads: those with fewer than `limit` wanted ones after them. */
  ghost function Chosen(ledger: seq<Metric>, q: Query, limit: nat): set<nat> {
    set i: nat | i < |ledger| && Wanted(q, ledger[i]) && |Later(ledger, q, i)| < limit
  }

  ghost function Those(ledger: seq<Metric>, q: Query, limit: nat, p: Metric -> bool): set<nat> {
    set i: nat | i < |ledger| && i in Chosen(ledger, q, limit) && p(ledger[i])
  }

  lemma LaterGrows(ledger: seq<Metric>, q: Query, i: nat)
    requires i < |ledger| - 1
    ensures var before, n := ledger[..|ledger| - 1], |ledger| - 1;
      |Later(ledger, q, i)| == |Later(before, q, i)| + if Wanted(q, ledger[n]) then 1 else 0
  {
    hide Wanted;
    var before, n := ledger[..|ledger| - 1], |ledger| - 1;
    assert Later(ledger, q, i) == Later(before, q, i) + if Wanted(q, ledger[n]) then {n} else {};
    assert n !in Later(before, q, i);
  }

  /** A wanted row at the end is read first, and one fewer of the others; any other row is passed over. */
  lemma ChosenGrows(ledger: seq<Metric>, q: Query, limit: nat)
    requires ledger != [] && limit > 0
    ensures var before, n := ledger[..|ledger| - 1], |ledger| - 1;
      Chosen(ledger, q, limit) ==
        if Wanted(q, ledger[n]) then Chosen(before, q, limit - 1) + {n} else Chosen(before, q, limit)
  {
    hide Wanted;
    var before, n := ledger[..|ledger| - 1], |ledger| - 1;
    assert Later(ledger, q, n) == {};
    forall i: nat | i < n ensures before[i] == ledger[i] {}
    forall i: nat | i < n
      ensures |Later(ledger, q, i)| == |Later(before, q, i)| + if Wanted(q, ledger[n]) then 1 else 0
    {
      LaterGrows(ledger, q, i);
    }
    hide Later;
  }

  lemma ThoseGrow(ledger: seq<Metric>, q: Query, limit: nat, p: Metric -> bool)
    requires ledger != [] && limit > 0
    ensures var before, n := ledger[..|ledger| - 1], |ledger| - 1;
      |Those(ledger, q, limit, p)| ==
        if Wanted(q, ledger[n]) then |Those(before, q, limit - 1, p)| + (if p(ledger[n]) then 1 else 0)
        else |Those(before, q, limit, p)|
  {
    var before, n := ledger[..|ledger| - 1], |ledger| - 1;
    ChosenGrows(ledger, q, limit);
    ChosenInRange(before, q, limit);
    ChosenInRange(before, q, limit - 1);
    hide Wanted;
    hide Chosen;
    if Wanted(q, ledger[n]) {
      assert Those(ledger, q, limit, p) == Those(before, q, limit - 1, p) + if p(ledger[n]) then {n} else {};
      assert n !in Those(before, q, limit - 1, p);
    } else {
      assert Those(ledger, q, limit, p) == Those(before, q, limit, p);
    }
  }

  lemma ChosenInRange(ledger: seq<Metric>, q: Query, limit: nat)
    ensures forall i :: i in Chosen(ledger, q, limit) ==> i < |ledger|
  {}

  lemma CollectFirst<U>(f: Metric -> Option<U>, m: Metric, rows: seq<Metric>)
    ensures |Collect(f, [m] + rows)| == |Collect(f, rows)| + if f(m).Some? then 1 else 0
  {
    CollectConcat(f, [m], rows);
    assert [m][..0] == [];
  }

  /** What is selected from the rows of a query can be counted in the ledger. */
  lemma {:induction false} SelectedAreThose<U>(
    ledger: seq<Metric>, q: Query, limit: nat, f: Metric -> Option<U>, p: Metric -> bool)
    requires forall m :: f(m).Some? <==> p(m)
    ensures |Collect(f, Newest(ledger, q, limit))| == |Those(ledger, q, limit, p)|
  {
    if ledger == [] || limit == 0 {
      assert Those(ledger, q, limit, p) == {};
      return;
    }
    var before, last := ledger[..|ledger| - 1], ledger[|ledger| - 1];
    ThoseGrow(ledger, q, limit, p);
    hide Those;
    if Wanted(q, last) {
      SelectedAreThose(before, q, limit - 1, f, p);
      CollectFirst(f, last, Newest(before, q, limit - 1));
    } else {
      SelectedAreThose(before, q, limit, f, p);
    }
    hide Collect;
  }

  function Fast(v: real): Metric -> Option<Metric> { (m: Metric) => if m.latencyMs <= v then Some(m) else None }

  lemma {:induction false} FastAreSelected(rows: seq<Metric>, v: real)
    ensures Percentile.CountAtMost(Latencies(rows), v) == |Collect(Fast(v), rows)|
  {
    if rows != [] {
      var before, last := rows[..|rows| - 1], rows[|rows| - 1];
      FastAreSelected(before, v);
      assert Latencies(rows) == Latencies(before) + [last.latencyMs];
    }
  }

  /** Of the rows at these positions, those that succeeded, failed, were fast enough, were checked, or met their schema. */
  ghost function Successes(ledger: seq<Metric>, at: set<nat>): set<nat> {
    set i: nat | i in at && i < |ledger| && ledger[i].success
  }

  ghost function Failures(ledger: seq<Metric>, at: set<nat>): set<nat> {
    set i: nat | i in at && i < |ledger| && !ledger[i].success
  }

  ghost function FastOnes(ledger: seq<Metric>, at: set<nat>, v: real): set<nat> {
    set i: nat | i in at && i < |ledger| && ledger[i].latencyMs <= v
  }

  ghost function CheckedOnes(ledger: seq<Metric>, at: set<nat>): set<nat> {
    set i: nat | i in at && i < |ledger| && ledger[i].schemaValid != None
  }

  ghost function GoodOnes(ledger: seq<Metric>, at: set<nat>): set<nat> {
    set i: nat | i in at && i < |ledger| && ledger[i].schemaValid == Some(true)
  }

  lemma RowsInTheLedger(ledger: seq<Metric>, q: Query, limit: nat)
    ensures |Newest(ledger, q, limit)| == |Chosen(ledger, q, limit)|
  {
    SelectedAreThose(ledger, q, limit, LatencyOf(), m => true);
    LatenciesFollowRows(Newest(ledger, q, limit));
    assert Those(ledger, q, limit, m => true) == Chosen(ledger, q, limit);
  }

  lemma SuccessesInTheLedger(ledger: seq<Metric>, q: Query, limit: nat)
    ensures |Collect(Succeeded(), Newest(ledger, q, limit))| == |Successes(ledger, Chosen(ledger, q, limit))|
  {
    SelectedAreThose(ledger, q, limit, Succeeded(), (m: Metric) => m.success);
    hide Chosen;
    assert Those(ledger, q, limit, (m: Metric) => m.success) == Successes(ledger, Chosen(ledger, q, limit));
  }

  lemma FastInTheLedger(ledger: seq<Metric>, q: Query, limit: nat, v: real)
    ensures Percentile.CountAtMost(Latencies(Newest(ledger, q, limit)), v) == |FastOnes(ledger, Chosen(ledger, q, limit), v)|
  {
    SelectedAreThose(ledger, q, limit, Fast(v), (m: Metric) => m.latencyMs <= v);
    FastAreSelected(Newest(ledger, q, limit), v);
    hide Chosen;
    hide Percentile.CountAtMost;
    assert Those(ledger, q, limit, (m: Metric) => m.latencyMs <= v) == FastOnes(ledger, Chosen(ledger, q, limit), v);
  }

  lemma CheckedInTheLedger(ledger: seq<Metric>, q: Query, limit: nat)
    ensures |Collect(SchemaOf(), Newest(ledger, q, limit))| == |CheckedOnes(ledger, Chosen(ledger, q, limit))|
    ensures |Collect(SchemaGood(), Newest(ledger, q, limit))| == |GoodOnes(ledger, Chosen(ledger, q, limit))|
  {
    SelectedAreThose(ledger, q, limit, SchemaOf(), (m: Metric) => m.schemaValid != None);
    SelectedAreThose(ledger, q, limit, SchemaGood(), (m: Metric) => m.schemaValid == Some(true));
    hide Chosen;
    assert Those(ledger, q, limit, (m: Metric) => m.schemaValid != None) == CheckedOnes(ledger, Chosen(ledger, q, limit));
    assert Those(ledger, q, limit, (m: Metric) => m.schemaValid == Some(true)) == GoodOnes(ledger, Chosen(ledger, q, limit));
  }

  /** What a summary says of the ledger: counts and shares of the rows it reads, and the latency that 99% of them keep. */
  lemma SummaryInCounts(ledger: seq<Metric>, q: Query, v: real)
    ensures var s, at := Summarize(Newest(ledger, q, 100_000)), Chosen(ledger, q, 100_000);
      && s.requests == |at|
      && s.successfulRequests == |Successes(ledger, at)|
      && s.successRate == (if at == {} then 0.0 else |Successes(ledger, at)| as real / |at| as real)
      && s.schemaCompliance == (if CheckedOnes(ledger, at) == {} then None
                                else Some(|GoodOnes(ledger, at)| as real / |CheckedOnes(ledger, at)| as real))
      && (s.p99LatencyMs == None <==> at == {})
      && (at != {} ==> (s.p99LatencyMs.value <= v <==> |FastOnes(ledger, at, v)| as real >= 0.99 * |at| as real))
  {
    var rows, at := Newest(ledger, q, 100_000), Chosen(ledger, q, 100_000);
    RowsInTheLedger(ledger, q, 100_000);
    SuccessesInTheLedger(ledger, q, 100_000);
    CheckedInTheLedger(ledger, q, 100_000);
    FastInTheLedger(ledger, q, 100_000, v);
    hide Chosen;
    hide Newest;
    hide Successes;
    hide CheckedOnes;
    hide GoodOnes;
    hide FastOnes;
    if rows == [] {
      assert Latencies(rows) == [] && Sort(RealLeq, Latencies(rows)) == [];
    } else {
      SlowInCounts(rows, v);
    }
    hide Percentile.CountAtMost;
    hide Percentile.OfSorted;
    hide Collect;
  }

  /** The positions of the newest 100,000 canary rows of a release. */
  ghost function JudgedAt(ledger: seq<Metric>, id: ReleaseId): set<nat> {
    set i: nat | i < |ledger| && ledger[i].releaseId == Some(id) && ledger[i].canary
      && |CanariesAfter(ledger, id, i)| < 100_000
  }

  ghost function CanariesAfter(ledger: seq<Metric>, id: ReleaseId, i: nat): set<nat> {
    set j: nat | i < j < |ledger| && ledger[j].releaseId == Some(id) && ledger[j].canary
  }

  lemma JudgedAreChosen(ledger: seq<Metric>, id: ReleaseId)
    ensures JudgedAt(ledger, id) == Chosen(ledger, CanaryQuery(id), 100_000)
  {
    forall i: nat ensures CanariesAfter(ledger, id, i) == Later(ledger, CanaryQuery(id), i) {}
    hide CanariesAfter;
    hide Later;
  }

  /**
    What a rollback means in counts of canary outcomes, read off the ledger row by
    row: enough of them, and too many failed, or fewer than 99% were fast enough, or
    too few of the checked ones met their schema.
   */
  lemma JudgementInCounts(release: Release, ledger: seq<Metric>)
    requires release.Valid() && release.state.Candidate?
    ensures var at := JudgedAt(ledger, release.id);
      Judgement(release, ledger) != [] <==>
        && |at| >= release.minCanarySamples
        && (|| |Failures(ledger, at)| as real > release.maxErrorRate * |at| as real
            || (|FastOnes(ledger, at, release.maxP99LatencyMs)| as real) < 0.99 * |at| as real
            || (|GoodOnes(ledger, at)| as real) < release.minSchemaCompliance * |CheckedOnes(ledger, at)| as real)
  {
    hide JudgedAt;
    hide Chosen;
    hide Newest;
    hide Judgement;
    hide Percentile.CountAtMost;
    hide Collect;
    var at := JudgedAt(ledger, release.id);
    JudgedAreChosen(ledger, release.id);
    RowsInTheLedger(ledger, CanaryQuery(release.id), 100_000);
    SuccessesInTheLedger(ledger, CanaryQuery(release.id), 100_000);
    CheckedInTheLedger(ledger, CanaryQuery(release.id), 100_000);
    FastInTheLedger(ledger, CanaryQuery(release.id), 100_000, release.maxP99LatencyMs);
    JudgementInSelections(release, ledger);
    ChosenInRange(ledger, CanaryQuery(release.id), 100_000);
    FailedAreTheOthers(ledger, at);
    GoodAreChecked(ledger, at);
    hide Successes;
    hide Failures;
    hide FastOnes;
    hide CheckedOnes;
    hide GoodOnes;
  }

  lemma FailedAreTheOthers(ledger: seq<Metric>, at: set<nat>)
    requires forall i :: i in at ==> i < |ledger|
    ensures |Failures(ledger, at)| == |at| - |Successes(ledger, at)|
  {
    assert at == Successes(ledger, at) + Failures(ledger, at);
  }

  lemma GoodAreChecked(ledger: seq<Metric>, at: set<nat>)
    ensures CheckedOnes(ledger, at) == {} ==> GoodOnes(ledger, at) == {}
  {
    if i :| i in GoodOnes(ledger, at) { assert i in CheckedOnes(ledger, at); }
  }

  /** Rows that are not canary rows of the release make no difference to its judgement. */
  lemma JudgementIgnoresOtherRows(release: Release, a: seq<Metric>, b: seq<Metric>)
    requires Rows(a, CanaryQuery(release.id)) == Rows(b, CanaryQuery(release.id))
    ensures Judgement(release, a) == Judgement(release, b)
  {
    NewestDependsOnItsRows(a, CanaryQuery(release.id), 100_000);
    NewestDependsOnItsRows(b, CanaryQuery(release.id), 100_000);
  }

  // -------------------------------------------------------------------------
  // Assignment

  datatype Assignment = Assignment(
    preferredRouteId: Option<RouteId>,
    shadowRouteId: Option<RouteId>,
    canary: bool,
    releaseId: Option<ReleaseId>)

  const NO_ASSIGNMENT := Assignment(None, None, false, None)

  /** The bucket of a request in a lane of a release, from the digest of the three names. */
  function Bucket(hash: string -> nat, releaseId: ReleaseId, requestId: string, lane: string): (b: nat)
    ensures b < 100
  {
    hash(releaseId + ":" + lane + ":" + requestId) % 100
  }

  function Assign(hash: string -> nat, live: Option<Release>, request: Request): Assignment {
    if live.None? then NO_ASSIGNMENT
    else
      var release := live.value;
      if release.state.Active? then Assignment(Some(release.candidateRouteId), None, false, Some(release.id))
      else if !release.state.Candidate? then NO_ASSIGNMENT
      else
        var canary := Bucket(hash, release.id, request.requestId, "canary") < release.canaryPercent;
        var shadow := request.shadowEnabled && !canary
                      && Bucket(hash, release.id, request.requestId, "shadow") < release.shadowPercent;
        Assignment(
          Some(if canary then release.candidateRouteId else release.baselineRouteId),
          if shadow then Some(release.candidateRouteId) else None,
          canary,
          Some(release.id))
  }

  /** Raising the percentage never takes a request out of the canary; 0 has none and 100 has all. */
  lemma RolloutOnlyGrows(hash: string -> nat, release: Release, more: Release, request: Request)
    requires release.state.Candidate? && more == release.(canaryPercent := more.canaryPercent)
    requires release.canaryPercent <= more.canaryPercent
    ensures Assign(hash, Some(release), request).canary ==> Assign(hash, Some(more), request).canary
    ensures release.canaryPercent == 0 ==> !Assign(hash, Some(release), request).canary
    ensures more.canaryPercent >= 100 ==> Assign(hash, Some(more), request).canary
  {}
}
