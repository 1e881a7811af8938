/**
  Which calls may share cached answers. A lane is what a call is read and written in;
  its namespace keeps a forced route, and the release and the route it prefers, apart
  from others, as far as the text of the namespace tells them apart.
 */
module Lanes {
  import opened Domain
  import opened Engine
  import opened Runs
  import opened SharedLog
  import opened Sightings
  import opened Service
  import Cache
  import Release
  import Rollout

  /** The name under which the answers of a release are kept: its preferred route, or a word for none. */
  function PreferenceName(a: Release.Assignment): string {
    match a.preferredRouteId
    case None => "policy"
    case Some(id) => if id == "" then "policy" else id
  }

  /** What stands between a release and its preferred route. */
  const BETWEEN := ":route:"

  function ReleaseText(id: ReleaseId, preference: string): string { id + BETWEEN + preference }

  /** The lanes force the same route, or none and belong to the same release with the same preference, or to none. */
  predicate SameLane(a: Lane, b: Lane) {
    && a.forced == b.forced
    && (a.forced.None? ==>
          && a.assignment.releaseId == b.assignment.releaseId
          && (a.assignment.releaseId.Some? ==> PreferenceName(a.assignment) == PreferenceName(b.assignment)))
  }

  /** Two releases with their preferences that read alike. */
  predicate ReadAlike(a: Lane, b: Lane) {
    && a.forced.None? && b.forced.None? && a.assignment.releaseId.Some? && b.assignment.releaseId.Some?
    && ReleaseText(a.assignment.releaseId.value, PreferenceName(a.assignment))
       == ReleaseText(b.assignment.releaseId.value, PreferenceName(b.assignment))
  }

  /** Lanes share their cached answers exactly when they are the same, or their releases read alike. */
  lemma NamespacesAgreeIff(a: Lane, b: Lane)
    ensures a.Namespace() == b.Namespace() <==> SameLane(a, b) || ReadAlike(a, b)
  {
    var x, y := a.Namespace(), b.Namespace();
    FirstLetters(a);
    FirstLetters(b);
    if a.forced.Some? && b.forced.Some? {
      SamePrefix(FORCED_PREFIX, a.forced.value, b.forced.value);
    }
    if a.forced.None? && b.forced.None? && a.assignment.releaseId.Some? && b.assignment.releaseId.Some? {
      ReleaseNamespace(a);
      ReleaseNamespace(b);
      SamePrefix("release:", ReleaseText(a.assignment.releaseId.value, PreferenceName(a.assignment)),
                 ReleaseText(b.assignment.releaseId.value, PreferenceName(b.assignment)));
    }
    hide CacheNamespace;
  }

  lemma FirstLetters(a: Lane)
    ensures a.Namespace() != ""
    ensures a.forced.Some? ==> a.Namespace() == FORCED_PREFIX + a.forced.value && a.Namespace()[0] == 'f'
    ensures a.forced.None? && a.assignment.releaseId.Some? ==> a.Namespace()[0] == 'r'
    ensures a.forced.None? && a.assignment.releaseId.None? ==> a.Namespace() == "default" && a.Namespace()[0] == 'd'
  {}

  lemma ReleaseNamespace(a: Lane)
    requires a.forced.None? && a.assignment.releaseId.Some?
    ensures a.Namespace() == "release:" + ReleaseText(a.assignment.releaseId.value, PreferenceName(a.assignment))
  {
    var id, preference := a.assignment.releaseId.value, PreferenceName(a.assignment);
    assert "release:" + id + ":route:" + preference == "release:" + (id + ":route:" + preference);
  }

  lemma SamePrefix(prefix: string, x: string, y: string)
    ensures prefix + x == prefix + y <==> x == y
  {
    assert (prefix + x)[|prefix|..] == x && (prefix + y)[|prefix|..] == y;
  }

  // -------------------------------------------------------------------------
  // When the text tells releases apart

  /** The separator stands at this place of the text. */
  predicate BetweenAt(text: string, k: nat) {
    k + |BETWEEN| <= |text| && text[k..k + |BETWEEN|] == BETWEEN
  }

  /** No other release and preference have this text. */
  ghost predicate Unmistakable(id: ReleaseId, preference: string) {
    forall other: ReleaseId, theirs: string :: ReleaseText(other, theirs) == ReleaseText(id, preference) ==>
      other == id && theirs == preference
  }

  lemma TextSplits(id: ReleaseId, preference: string)
    ensures var text := ReleaseText(id, preference);
      BetweenAt(text, |id|) && text[..|id|] == id && text[|id| + |BETWEEN|..] == preference
  {}

  lemma SplitsAreTexts(text: string, k: nat)
    requires BetweenAt(text, k)
    ensures ReleaseText(text[..k], text[k + |BETWEEN|..]) == text
  {}

  /**
    The exact condition: a release and its preference are told apart from all others
    exactly when the separator stands nowhere else in their text.
   */
  lemma UnmistakableIff(id: ReleaseId, preference: string)
    ensures Unmistakable(id, preference) <==> forall k: nat :: BetweenAt(ReleaseText(id, preference), k) ==> k == |id|
  {
    var text := ReleaseText(id, preference);
    TextSplits(id, preference);
    if Unmistakable(id, preference) {
      forall k: nat | BetweenAt(text, k) ensures k == |id| {
        SplitsAreTexts(text, k);
        assert ReleaseText(text[..k], text[k + |BETWEEN|..]) == text;
        assert |text[..k]| == k;
      }
    }
    if forall k: nat :: BetweenAt(text, k) ==> k == |id| {
      forall other, theirs | ReleaseText(other, theirs) == text ensures other == id && theirs == preference {
        TextSplits(other, theirs);
      }
    }
  }

  /** The lane belongs to a release that its namespace tells apart from all others. */
  ghost predicate TellsItsRelease(lane: Lane) {
    lane.assignment.releaseId.Some? && Unmistakable(lane.assignment.releaseId.value, PreferenceName(lane.assignment))
  }

  predicate NoColon(s: string) { forall i :: 0 <= i < |s| ==> s[i] != ':' }

  /** Preferences without a colon, as the ids of routes are, never make two releases read alike. */
  lemma RouteIdsTellReleasesApart(id: ReleaseId, preference: string, other: ReleaseId, theirs: string)
    requires NoColon(preference) && NoColon(theirs)
    requires ReleaseText(id, preference) == ReleaseText(other, theirs)
    ensures id == other && preference == theirs
  {
    var text := ReleaseText(id, preference);
    LastColon(id, preference);
    LastColon(other, theirs);
    TextSplits(id, preference);
    TextSplits(other, theirs);
  }

  lemma LastColon(id: ReleaseId, preference: string)
    requires NoColon(preference)
    ensures var text, k := ReleaseText(id, preference), |id| + 6;
      k < |text| && text[k] == ':' && forall i :: k < i < |text| ==> text[i] != ':'
  {
    var text := ReleaseText(id, preference);
    assert forall i :: |id| + 7 <= i < |text| ==> text[i] == preference[i - |id| - 7];
  }

  // -------------------------------------------------------------------------
  // Runs

  /** This write was made by a call in this lane. */
  ghost predicate WrittenIn(g: Gateway, act: Activity, w: CacheWrite, lane: Lane) {
    WrittenBy(g, act, w) && IsLane(g, act, lane) && w.request == lane.request && w.namespace == lane.Namespace()
  }

  lemma WritesAreOfTheirLane(g: Gateway, act: Activity, w: CacheWrite) returns (lane: Lane)
    requires WrittenBy(g, act, w)
    ensures WrittenIn(g, act, w, lane)
  {
    hide EntryOf;
    hide LoopOf;
    if !EntryOf(g, act).Candidates? { OnlyLoopsWrite(g, act); }
    LaneOfEntry(g, act);
    JournalWrites(g, act);
    lane := EntryOf(g, act).context.lane;
    assert WroteResponse(EntryOf(g, act).context, LoopOf(g, act));
  }

  /**
    In every run of the cache, a hit that is read in a lane was written by a call in the
    same lane: with the same forced route, or in the same release with the same
    preference; unless the two releases read alike.
   */
  lemma HitsStayInTheirLane(g: Gateway, config: Cache.Config, ops: seq<Cache.Op>, lane: Lane, now: real)
    returns (p: int, act: Activity, written: Lane)
    requires config.Valid() && Issued(g, ops)
    requires Cache.Hit(config, Cache.Run(config, ops), lane.request, lane.Namespace(), now).Some?
    ensures 0 <= p < |ops| && ops[p].Put?
    ensures Cache.Hit(config, Cache.Run(config, ops), lane.request, lane.Namespace(), now)
            == Some(ops[p].response.(cacheHit := true))
    ensures WrittenIn(g, act, CacheWrite(ops[p].request, ops[p].response, ops[p].namespace, ops[p].now), written)
    ensures SameLane(written, lane) || ReadAlike(written, lane)
    ensures TellsItsRelease(lane) ==> SameLane(written, lane)
  {
    var e;
    p, e := Cache.HitComesFromLivePut(config, ops, lane.request, lane.Namespace(), now);
    hide Cache.Hit;
    hide Cache.Run;
    hide WrittenBy;
    var w := CacheWrite(ops[p].request, ops[p].response, ops[p].namespace, ops[p].now);
    act :| WrittenBy(g, act, w);
    written := WritesAreOfTheirLane(g, act, w);
    NamespacesAgreeIff(written, lane);
    hide IsLane;
    hide ReleaseText;
  }

  /** The ids of routes have no colon, and a release names routes. */
  predicate NamesRoutes(a: Arrival) {
    a.live.Some? ==> NoColon(a.live.value.candidateRouteId) && NoColon(a.live.value.baselineRouteId)
  }

  lemma PreferenceHasNoColon(g: Gateway, act: Activity, lane: Lane)
    requires Legal(g, act) && IsLane(g, act, lane) && NamesRoutes(act.arrival)
    ensures NoColon(PreferenceName(lane.assignment))
  {
    Rollout.LaneIsWanted(g, act, lane);
    hide IsLane;
  }

  /** Every write in the run comes from a call the gateway made while its live release named routes. */
  ghost predicate IssuedForRoutes(g: Gateway, ops: seq<Cache.Op>) {
    forall i :: 0 <= i < |ops| && ops[i].Put? ==>
      exists act: Activity :: NamesRoutes(act.arrival)
        && WrittenBy(g, act, CacheWrite(ops[i].request, ops[i].response, ops[i].namespace, ops[i].now))
  }

  /**
    After a promotion nobody is given the answers of the release before. In every run in
    which releases name routes, what a call reads from the cache was written by a call of
    the same release for the same wanted route, or outside of releases if the reader is,
    or for the same forced route.
   */
  lemma HitsStayInTheirRelease(
    g: Gateway, config: Cache.Config, ops: seq<Cache.Op>, reader: Activity, lane: Lane, now: real)
    returns (p: int, act: Activity)
    requires config.Valid() && IssuedForRoutes(g, ops)
    requires Legal(g, reader) && IsLane(g, reader, lane) && NamesRoutes(reader.arrival)
    requires Cache.Hit(config, Cache.Run(config, ops), lane.request, lane.Namespace(), now).Some?
    ensures 0 <= p < |ops| && ops[p].Put?
    ensures Cache.Hit(config, Cache.Run(config, ops), lane.request, lane.Namespace(), now)
            == Some(ops[p].response.(cacheHit := true))
    ensures WrittenBy(g, act, CacheWrite(ops[p].request, ops[p].response, ops[p].namespace, ops[p].now))
    ensures act.call.forced == reader.call.forced
    ensures act.call.forced.None? ==>
              && Rollout.WantedRelease(g, act.call, act.arrival) == Rollout.WantedRelease(g, reader.call, reader.arrival)
              && (Rollout.WantedRelease(g, act.call, act.arrival).Some? ==>
                    SamePreference(Rollout.WantedRoute(g, act.call, act.arrival),
                                   Rollout.WantedRoute(g, reader.call, reader.arrival)))
  {
    var e;
    p, e := Cache.HitComesFromLivePut(config, ops, lane.request, lane.Namespace(), now);
    hide Cache.Hit;
    hide Cache.Run;
    hide WrittenBy;
    var w := CacheWrite(ops[p].request, ops[p].response, ops[p].namespace, ops[p].now);
    act :| NamesRoutes(act.arrival) && WrittenBy(g, act, w);
    var written := WritesAreOfTheirLane(g, act, w);
    ReleasesAgree(g, act, written, reader, lane);
    hide Rollout.WantedRelease;
    hide Rollout.WantedRoute;
    hide IsLane;
    hide NamesRoutes;
    hide SamePreference;
  }

  /** Calls whose lanes have one namespace are of one release, if releases name routes. */
  lemma ReleasesAgree(g: Gateway, a: Activity, x: Lane, b: Activity, y: Lane)
    requires Legal(g, a) && IsLane(g, a, x) && NamesRoutes(a.arrival)
    requires Legal(g, b) && IsLane(g, b, y) && NamesRoutes(b.arrival)
    requires x.Namespace() == y.Namespace()
    ensures a.call.forced == b.call.forced
    ensures a.call.forced.None? ==>
              && Rollout.WantedRelease(g, a.call, a.arrival) == Rollout.WantedRelease(g, b.call, b.arrival)
              && (Rollout.WantedRelease(g, a.call, a.arrival).Some? ==>
                    SamePreference(Rollout.WantedRoute(g, a.call, a.arrival), Rollout.WantedRoute(g, b.call, b.arrival)))
  {
    hide CacheNamespace;
    hide AssignmentOf;
    hide NamesRoutes;
    NamespacesAgreeIff(x, y);
    PreferenceHasNoColon(g, a, x);
    PreferenceHasNoColon(g, b, y);
    if ReadAlike(x, y) {
      RouteIdsTellReleasesApart(x.assignment.releaseId.value, PreferenceName(x.assignment),
                                y.assignment.releaseId.value, PreferenceName(y.assignment));
    }
    Rollout.LaneIsWanted(g, a, x);
    Rollout.LaneIsWanted(g, b, y);
    hide Rollout.WantedRelease;
    hide Rollout.WantedRoute;
    hide Rollout.IsCanary;
    hide ReleaseText;
  }

  /** The same wish; a wish for the empty name or for one called "policy" counts as none. */
  predicate SamePreference(a: Option<RouteId>, b: Option<RouteId>) {
    a == b || (a in {None, Some(""), Some("policy")} && b in {None, Some(""), Some("policy")})
  }

  /** The same in any state that the gateway reaches. */
  lemma SyncedCacheKeepsLanesApart(g: Gateway, p: Setup, state: Shared, log: Log, lane: Lane, now: real)
    returns (k: int, act: Activity, written: Lane)
    requires InSync(g, p, state, log)
    requires Cache.Hit(p.cache, state.entries, lane.request, lane.Namespace(), now).Some?
    ensures 0 <= k < |CacheOps(log)| && CacheOps(log)[k].Put?
    ensures var put := CacheOps(log)[k];
      && Cache.Hit(p.cache, state.entries, lane.request, lane.Namespace(), now) == Some(put.response.(cacheHit := true))
      && WrittenIn(g, act, CacheWrite(put.request, put.response, put.namespace, put.now), written)
    ensures SameLane(written, lane) || ReadAlike(written, lane)
  {
    GenuineLogIsIssued(g, log);
    k, act, written := HitsStayInTheirLane(g, p.cache, CacheOps(log), lane, now);
    hide Cache.Hit;
    hide Cache.Run;
    hide SameLane;
    hide ReadAlike;
    hide WrittenIn;
  }
}
