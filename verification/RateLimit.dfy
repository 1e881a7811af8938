/**
  Per-tenant token-bucket limiter with lazy refill.

  A run is any sequence of `consume` calls, on any keys, each with the clock
  reading it saw. The bucket is only brought up to date when it is asked, and the
  theorems say that nobody can tell.
*/
module RateLimit {
  import opened Domain

  datatype Settings = Settings(rate: real, burst: real)
  {
    predicate Valid() { rate > 0.0 && burst > 0.0 }
  }

  datatype Bucket = Bucket(tokens: real, updatedAt: real)
  type Limits = s: Settings | s.Valid() witness Settings(1.0, 1.0)
  type Buckets = map<string, Bucket>

  datatype Call = Call(key: string, tokens: real, now: real)
  datatype Outcome = Granted(remaining: real) | Limited(retryAfter: real) | Invalid

  /** What an idle time adds to a bucket; a clock that went back adds nothing. */
  function Refill(s: Limits, elapsed: real): real {
    MaxReal(0.0, elapsed) * s.rate
  }

  /** The level a bucket would show if refilled continuously; a new bucket is full. */
  function Level(s: Limits, m: Buckets, key: string, now: real): real {
    if key !in m then s.burst
    else MinReal(s.burst, m[key].tokens + Refill(s, now - m[key].updatedAt))
  }

  predicate Acceptable(s: Limits, tokens: real) { 0.0 < tokens <= s.burst }

  function Answer(s: Limits, m: Buckets, c: Call): Outcome {
    if !Acceptable(s, c.tokens) then Invalid
    else
      var level := Level(s, m, c.key, c.now);
      if level < c.tokens then Limited((c.tokens - level) / s.rate) else Granted(level - c.tokens)
  }

  function Apply(s: Limits, m: Buckets, c: Call): Buckets {
    if !Acceptable(s, c.tokens) then m
    else
      var level := Level(s, m, c.key, c.now);
      m[c.key := Bucket(if level < c.tokens then level else level - c.tokens, c.now)]
  }

  class TokenBucketLimiter {
    const settings: Limits
    var buckets: Buckets

    constructor (settings: Limits)
      ensures this.settings == settings && buckets == map[]
    {
      this.settings := settings;
      buckets := map[];
    }

    method Consume(key: string, tokens: real, now: real) returns (outcome: Outcome)
      modifies this
      ensures outcome == Answer(settings, old(buckets), Call(key, tokens, now))
      ensures buckets == Apply(settings, old(buckets), Call(key, tokens, now))
    {
      if tokens <= 0.0 || tokens > settings.burst {
        return Invalid;
      }
      var bucket := if key in buckets then buckets[key] else Bucket(settings.burst, now);
      var elapsed := MaxReal(0.0, now - bucket.updatedAt);
      bucket := bucket.(tokens := MinReal(settings.burst, bucket.tokens + elapsed * settings.rate));
      bucket := bucket.(updatedAt := now);
      buckets := buckets[key := bucket];
      if bucket.tokens < tokens {
        return Limited((tokens - bucket.tokens) / settings.rate);
      }
      bucket := bucket.(tokens := bucket.tokens - tokens);
      buckets := buckets[key := bucket];
      return Granted(bucket.tokens);
    }
  }

  // -------------------------------------------------------------------------
  // Runs

  function After(s: Limits, run: seq<Call>): Buckets {
    if run == [] then map[] else Apply(s, After(s, run[..|run| - 1]), run[|run| - 1])
  }

  function Outcomes(s: Limits, run: seq<Call>): (r: seq<Outcome>)
    ensures |r| == |run|
    ensures forall i :: 0 <= i < |run| ==> r[i] == Answer(s, After(s, run[..i]), run[i])
  {
    if run == [] then []
    else
      var before := run[..|run| - 1];
      assert forall i :: 0 <= i < |before| ==> before[..i] == run[..i];
      Outcomes(s, before) + [Answer(s, After(s, before), run[|run| - 1])]
  }

  ghost predicate Monotone(run: seq<Call>) {
    forall i, j :: 0 <= i < j < |run| ==> run[i].now <= run[j].now
  }

  /** The calls on this key saw readings that do not go back; those on other keys may have seen any. */
  ghost predicate MonotoneOn(run: seq<Call>, key: string) {
    forall i, j :: 0 <= i < j < |run| && run[i].key == key && run[j].key == key ==> run[i].now <= run[j].now
  }

  /** No call on this key has seen a later time. */
  ghost predicate PastReadings(run: seq<Call>, key: string, now: real) {
    forall i :: 0 <= i < |run| && run[i].key == key ==> run[i].now <= now
  }

  lemma MonotonePrefix(run: seq<Call>, key: string)
    requires MonotoneOn(run, key) && run != []
    ensures MonotoneOn(run[..|run| - 1], key)
    ensures run[|run| - 1].key == key ==> PastReadings(run[..|run| - 1], key, run[|run| - 1].now)
  {
    var before := run[..|run| - 1];
    assert forall i :: 0 <= i < |before| ==> before[i] == run[i];
  }

  /** The tokens granted on a key by the calls of a run whose time lies in [from, to]. */
  function GrantedIn(s: Limits, run: seq<Call>, key: string, from: real, to: real): real {
    if run == [] then 0.0
    else
      var before, last := run[..|run| - 1], run[|run| - 1];
      GrantedIn(s, before, key, from, to) +
      if last.key == key && from <= last.now <= to && Answer(s, After(s, before), last).Granted?
      then last.tokens else 0.0
  }

  lemma {:induction false} LevelStaysInRange(s: Limits, run: seq<Call>, key: string, now: real)
    ensures 0.0 <= Level(s, After(s, run), key, now) <= s.burst
    ensures key in After(s, run) ==> 0.0 <= After(s, run)[key].tokens <= s.burst
  {
    if run != [] {
      var before, last := run[..|run| - 1], run[|run| - 1];
      LevelStaysInRange(s, before, key, now);
      LevelStaysInRange(s, before, key, last.now);
    }
    var m := After(s, run);
    if key in m {
      NonNegativeProduct(MaxReal(0.0, now - m[key].updatedAt), s.rate);
    }
  }

  lemma NonNegativeProduct(a: real, b: real)
    requires a >= 0.0 && b >= 0.0
    ensures a * b >= 0.0
  {}

  /** A bucket remembers the time of some call on its key. */
  lemma {:induction false} UpdatedByTheRun(s: Limits, run: seq<Call>, key: string, now: real)
    requires PastReadings(run, key, now)
    ensures key in After(s, run) ==> After(s, run)[key].updatedAt <= now
  {
    hide Level;
    if run != [] {
      var before := run[..|run| - 1];
      assert forall i :: 0 <= i < |before| ==> before[i] == run[i];
      UpdatedByTheRun(s, before, key, now);
    }
  }

  /** What was granted since `from`, plus what is left, is at most a full bucket plus the refill. */
  ghost predicate Potential(s: Limits, m: Buckets, key: string, from: real, granted: real) {
    if key in m && m[key].updatedAt >= from
    then granted + m[key].tokens <= s.burst + s.rate * (m[key].updatedAt - from)
    else granted == 0.0
  }

  lemma LevelKeepsPotential(s: Limits, m: Buckets, key: string, from: real, now: real, granted: real)
    requires key in m ==> m[key].updatedAt <= now
    requires Potential(s, m, key, from, granted)
    ensures now >= from ==> granted + Level(s, m, key, now) <= s.burst + s.rate * (now - from)
    ensures now < from ==> granted == 0.0
  {
    if now >= from { NonNegativeProduct(s.rate, now - from); }
    if key in m { RefillSplits(s.rate, from, m[key].updatedAt, now); }
  }

  lemma CallKeepsPotential(s: Limits, m: Buckets, c: Call, key: string, from: real, granted: real)
    requires c.key == key && key in m ==> m[key].updatedAt <= c.now
    requires Potential(s, m, key, from, granted)
    ensures Potential(s, Apply(s, m, c), key, from,
                      granted + if c.key == key && from <= c.now && Answer(s, m, c).Granted? then c.tokens else 0.0)
  {
    if c.key == key { LevelKeepsPotential(s, m, key, from, c.now, granted); }
    GrantedMeansEnough(s, m, c);
    hide Level;
    hide Answer;
  }

  /** The potential argument, over a whole run. */
  lemma {:induction false} GrantedPlusLeft(s: Limits, run: seq<Call>, key: string, from: real, to: real)
    requires MonotoneOn(run, key) && PastReadings(run, key, to)
    ensures Potential(s, After(s, run), key, from, GrantedIn(s, run, key, from, to))
  {
    hide Potential;
    hide Answer;
    hide Apply;
    if run == [] {
      EmptyPotential(s, key, from);
    } else {
      var before, last := run[..|run| - 1], run[|run| - 1];
      MonotonePrefix(run, key);
      assert forall i :: 0 <= i < |before| ==> before[i] == run[i];
      GrantedPlusLeft(s, before, key, from, to);
      if last.key == key { UpdatedByTheRun(s, before, key, last.now); }
      CallKeepsPotential(s, After(s, before), last, key, from, GrantedIn(s, before, key, from, to));
    }
  }

  lemma EmptyPotential(s: Limits, key: string, from: real)
    ensures Potential(s, map[], key, from, 0.0)
  {}

  lemma RefillSplits(rate: real, from: real, mid: real, to: real)
    ensures rate * (to - from) == rate * (mid - from) + (to - mid) * rate
  {}

  // -------------------------------------------------------------------------
  // Keys are isolated

  function OnlyKey(run: seq<Call>, key: string): seq<Call> {
    if run == [] then []
    else OnlyKey(run[..|run| - 1], key) + if run[|run| - 1].key == key then [run[|run| - 1]] else []
  }

  ghost predicate SameBucket(m: Buckets, n: Buckets, key: string) {
    (key in m <==> key in n) && (key in m ==> m[key] == n[key])
  }

  lemma SameBucketSameApply(s: Limits, m: Buckets, n: Buckets, c: Call)
    requires SameBucket(m, n, c.key)
    ensures SameBucket(Apply(s, m, c), Apply(s, n, c), c.key)
    ensures Answer(s, m, c) == Answer(s, n, c)
  {
    hide Refill;
    assert Level(s, m, c.key, c.now) == Level(s, n, c.key, c.now);
  }

  lemma {:induction false} BucketsAreIsolated(s: Limits, run: seq<Call>, key: string)
    ensures SameBucket(After(s, run), After(s, OnlyKey(run, key)), key)
  {
    hide Level;
    if run != [] {
      var before, last := run[..|run| - 1], run[|run| - 1];
      BucketsAreIsolated(s, before, key);
      var only := OnlyKey(before, key);
      if last.key == key {
        SameBucketSameApply(s, After(s, before), After(s, only), last);
        assert OnlyKey(run, key) == only + [last];
        assert (only + [last])[..|only|] == only;
      } else {
        assert OnlyKey(run, key) == only;
      }
    }
  }

  /** What other tenants do makes no difference to the answer a tenant gets. */
  lemma KeysAreIsolated(s: Limits, run: seq<Call>, c: Call)
    ensures Answer(s, After(s, run), c) == Answer(s, After(s, OnlyKey(run, c.key)), c)
  {
    BucketsAreIsolated(s, run, c.key);
    SameBucketSameApply(s, After(s, run), After(s, OnlyKey(run, c.key)), c);
  }

  lemma {:induction false} GrantsOfKey(s: Limits, run: seq<Call>, key: string, from: real, to: real)
    ensures GrantedIn(s, run, key, from, to) == GrantedIn(s, OnlyKey(run, key), key, from, to)
  {
    hide Answer;
    if run != [] {
      var before, last := run[..|run| - 1], run[|run| - 1];
      GrantsOfKey(s, before, key, from, to);
      var only := OnlyKey(before, key);
      if last.key == key {
        KeysAreIsolated(s, before, last);
        assert (only + [last])[..|only|] == only;
      } else {
        assert OnlyKey(run, key) == only;
      }
    }
  }

  // -------------------------------------------------------------------------
  // Lazy refill refines continuous refill

  /** From time `since` on, the two states show the same level on this key. */
  ghost predicate Alike(s: Limits, a: Buckets, b: Buckets, key: string, since: real) {
    forall now :: since <= now ==> Level(s, a, key, now) == Level(s, b, key, now)
  }

  /** Refilling in two steps is refilling in one. */
  lemma RefillComposes(s: Limits, m: Buckets, key: string, level: real, mid: real, now: real)
    requires mid <= now && (key in m ==> m[key].updatedAt <= mid)
    requires level == Level(s, m, key, mid)
    ensures Level(s, m[key := Bucket(level, mid)], key, now) == Level(s, m, key, now)
  {
    NonNegativeProduct(now - mid, s.rate);
    if key in m {
      var u := m[key].updatedAt;
      NonNegativeProduct(mid - u, s.rate);
      assert (now - u) * s.rate == (mid - u) * s.rate + (now - mid) * s.rate;
    }
  }

  /** A rejected call leaves no trace. */
  lemma RejectedLeavesNoTrace(s: Limits, m: Buckets, c: Call)
    requires (c.key in m ==> m[c.key].updatedAt <= c.now)
    requires !Answer(s, m, c).Granted?
    ensures Alike(s, Apply(s, m, c), m, c.key, c.now)
  {
    if Acceptable(s, c.tokens) {
      forall now | c.now <= now
        ensures Level(s, Apply(s, m, c), c.key, now) == Level(s, m, c.key, now)
      {
        RefillComposes(s, m, c.key, Level(s, m, c.key, c.now), c.now, now);
      }
    }
  }

  lemma AlikeAfterGrant(s: Limits, a: Buckets, b: Buckets, c: Call)
    requires Level(s, a, c.key, c.now) == Level(s, b, c.key, c.now)
    ensures Answer(s, a, c) == Answer(s, b, c)
    ensures Answer(s, a, c).Granted? ==> Alike(s, Apply(s, a, c), Apply(s, b, c), c.key, c.now)
  {}

  lemma OthersKeepTheirLevel(s: Limits, m: Buckets, c: Call, key: string, now: real)
    requires key != c.key
    ensures Level(s, Apply(s, m, c), key, now) == Level(s, m, key, now)
  {}

  /** The granted calls of a run. */
  function GrantedCalls(s: Limits, run: seq<Call>): seq<Call> {
    if run == [] then []
    else
      var before, last := run[..|run| - 1], run[|run| - 1];
      GrantedCalls(s, before) + if Answer(s, After(s, before), last).Granted? then [last] else []
  }

  function GrantedOutcomes(s: Limits, run: seq<Call>): seq<Outcome> {
    if run == [] then []
    else
      var before, last := run[..|run| - 1], run[|run| - 1];
      GrantedOutcomes(s, before) + if Answer(s, After(s, before), last).Granted? then [Answer(s, After(s, before), last)] else []
  }

  /** What one more call does to two states that look alike, when the second skips it if rejected. */
  lemma CallKeepsLevels(s: Limits, a: Buckets, b: Buckets, c: Call, key: string, now: real)
    requires Level(s, a, c.key, c.now) == Level(s, b, c.key, c.now) && Level(s, a, key, now) == Level(s, b, key, now)
    requires key == c.key ==> c.now <= now && (key in a ==> a[key].updatedAt <= c.now)
    ensures Level(s, Apply(s, a, c), key, now) ==
            Level(s, if Answer(s, a, c).Granted? then Apply(s, b, c) else b, key, now)
  {
    hide Level;
    hide Answer;
    hide Apply;
    AlikeAfterGrant(s, a, b, c);
    if key != c.key {
      OthersKeepTheirLevel(s, a, c, key, now);
      OthersKeepTheirLevel(s, b, c, key, now);
    } else if !Answer(s, a, c).Granted? {
      RejectedLeavesNoTrace(s, a, c);
    }
  }

  lemma PastReadingsOfPrefix(run: seq<Call>, key: string, now: real)
    requires PastReadings(run, key, now) && run != []
    ensures PastReadings(run[..|run| - 1], key, now)
    ensures run[|run| - 1].key == key ==> run[|run| - 1].now <= now
  {
    assert forall i :: 0 <= i < |run| - 1 ==> run[..|run| - 1][i] == run[i];
  }

  /**
    Erasing every rejected call from a run, on all keys at once, changes neither the
    answer of a single remaining call nor any level, on each key from its latest
    reading on. Readings of different keys need not agree.
   */
  lemma {:induction false} RejectedCallsAreInvisible(s: Limits, run: seq<Call>)
    requires forall key :: MonotoneOn(run, key)
    ensures forall key, now :: PastReadings(run, key, now) ==>
              Level(s, After(s, run), key, now) == Level(s, After(s, GrantedCalls(s, run)), key, now)
    ensures Outcomes(s, GrantedCalls(s, run)) == GrantedOutcomes(s, run)
  {
    hide Level;
    hide Answer;
    hide Apply;
    hide MonotoneOn;
    hide PastReadings;
    if run != [] {
      var before, last := run[..|run| - 1], run[|run| - 1];
      forall key ensures MonotoneOn(before, key) { MonotonePrefix(run, key); }
      MonotonePrefix(run, last.key);
      RejectedCallsAreInvisible(s, before);
      UpdatedByTheRun(s, before, last.key, last.now);
      var m, kept := After(s, before), GrantedCalls(s, before);
      AlikeAfterGrant(s, m, After(s, kept), last);
      assert (kept + [last])[..|kept|] == kept;
      assert GrantedCalls(s, run) == if Answer(s, m, last).Granted? then kept + [last] else kept;
      forall key, now | PastReadings(run, key, now)
        ensures Level(s, After(s, run), key, now) == Level(s, After(s, GrantedCalls(s, run)), key, now)
      {
        PastReadingsOfPrefix(run, key, now);
        CallKeepsLevels(s, m, After(s, kept), last, key, now);
      }
    }
  }

  /**
    `retry_after` is exact. After a rejection, as long as nothing else is granted
    on that key, the same call succeeds at a later time exactly when `retry_after`
    seconds have passed, however often it was tried in between.
   */
  lemma {:induction false} RetryAfterIsExact(s: Limits, m: Buckets, c: Call, tries: seq<Call>, later: real)
    requires Answer(s, m, c).Limited?
    requires Monotone([c] + tries) && ([c] + tries)[|tries|].now <= later
    requires c.key in m ==> m[c.key].updatedAt <= c.now
    requires forall i :: 0 <= i < |tries| ==> tries[i].key == c.key
    requires forall i :: 0 <= i < |tries| ==> !Answer(s, From(s, Apply(s, m, c), tries[..i]), tries[i]).Granted?
    ensures Answer(s, From(s, Apply(s, m, c), tries), c.(now := later)).Granted? <==>
            later >= c.now + Answer(s, m, c).retryAfter
  {
    hide Level;
    hide Answer;
    hide Apply;
    assert c.now <= ([c] + tries)[|tries|].now by { assert ([c] + tries)[0] == c; }
    GrantedMeansEnough(s, m, c);
    GrantedMeansEnough(s, From(s, Apply(s, m, c), tries), c.(now := later));
    LevelLater(s, m, c, later);
    LevelAfterTries(s, m, c, tries, later);
  }

  lemma GrantedMeansEnough(s: Limits, m: Buckets, c: Call)
    ensures Answer(s, m, c).Granted? <==> Acceptable(s, c.tokens) && Level(s, m, c.key, c.now) >= c.tokens
    ensures Answer(s, m, c).Limited? <==> Acceptable(s, c.tokens) && Level(s, m, c.key, c.now) < c.tokens
  {}

  /** After a rejection the level reaches the request exactly `retry_after` later. */
  lemma LevelLater(s: Limits, m: Buckets, c: Call, later: real)
    requires Answer(s, m, c).Limited? && c.now <= later
    requires c.key in m ==> m[c.key].updatedAt <= c.now
    ensures Level(s, m, c.key, later) >= c.tokens <==> later >= c.now + Answer(s, m, c).retryAfter
  {
    var level := Level(s, m, c.key, c.now);
    RefillComposes(s, m, c.key, level, c.now, later);
    assert Level(s, m, c.key, later) == MinReal(s.burst, level + (later - c.now) * s.rate);
    WaitIsExact(s.rate, c.tokens - level, later - c.now);
  }

  lemma WaitIsExact(rate: real, missing: real, elapsed: real)
    requires rate > 0.0
    ensures elapsed * rate >= missing <==> elapsed >= missing / rate
  {
    var wait := missing / rate;
    assert wait * rate == missing;
    if elapsed >= wait { NonNegativeProduct(elapsed - wait, rate); }
    else { PositiveProduct(wait - elapsed, rate); }
  }

  lemma PositiveProduct(a: real, b: real)
    requires a > 0.0 && b > 0.0
    ensures a * b > 0.0
  {}

  function From(s: Limits, m: Buckets, run: seq<Call>): Buckets {
    if run == [] then m else Apply(s, From(s, m, run[..|run| - 1]), run[|run| - 1])
  }

  lemma {:induction false} LevelAfterTries(s: Limits, m: Buckets, c: Call, tries: seq<Call>, later: real)
    requires Answer(s, m, c).Limited?
    requires Monotone([c] + tries) && ([c] + tries)[|tries|].now <= later
    requires c.key in m ==> m[c.key].updatedAt <= c.now
    requires forall i :: 0 <= i < |tries| ==> tries[i].key == c.key
    requires forall i :: 0 <= i < |tries| ==> !Answer(s, From(s, Apply(s, m, c), tries[..i]), tries[i]).Granted?
    ensures
      var now := From(s, Apply(s, m, c), tries);
      && c.key in now && now[c.key].updatedAt <= ([c] + tries)[|tries|].now
      && Level(s, now, c.key, later) == Level(s, m, c.key, later)
  {
    var all := [c] + tries;
    if tries == [] {
      RefillComposes(s, m, c.key, Level(s, m, c.key, c.now), c.now, later);
    } else {
      var before, last := tries[..|tries| - 1], tries[|tries| - 1];
      assert [c] + before == all[..|tries|];
      assert all[|before|].now <= all[|tries|].now == last.now;
      assert forall i :: 0 <= i < |before| ==> before[..i] == tries[..i] && before[i] == tries[i];
      LevelAfterTries(s, m, c, before, last.now);
      LevelAfterTries(s, m, c, before, later);
      assert tries[..|before|] == before;
      RejectedLeavesNoTrace(s, From(s, Apply(s, m, c), before), last);
    }
  }
}
