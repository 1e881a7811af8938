/**
  Tenant-scoped semantic response cache: an ordered map with expiry, least
  recently used eviction, and a similarity scan inside an exact policy scope.

  The ordered map is the sequence of its entries, the least recently touched one
  first; an entry's key is its fingerprint. The two hashes of the source are
  injective, so a scope hash is the scope and a fingerprint is scope plus text.
 */
module Cache {
  import opened Domain
  import opened Embedding

  datatype Scope = Scope(
    namespace: string,
    tenant: string,
    classification: Classification,
    privacy: PrivacyMode,
    schema: Option<Schema>,
    capabilities: set<Capability>,
    allowedRegions: set<string>,
    maxCostUsd: real,
    maxLatencyMs: int,
    maxOutputTokens: int,
    temperature: Option<real>,
    prompt: Option<ArtifactRef>)

  datatype Fingerprint = Fingerprint(scope: Scope, text: string)
  datatype Entry = Entry(scope: Scope, fingerprint: Fingerprint, vector: Vector, response: Response, expiresAt: real)

  datatype Config = Config(ttlSeconds: int, threshold: real, maxEntries: nat, embed: string -> Vector)
  {
    predicate Valid() { ttlSeconds > 0 && 0.0 < threshold <= 1.0 && maxEntries > 0 }
  }

  function Transcript(messages: seq<Message>): string {
    if messages == [] then ""
    else
      var line := messages[0].role + ":" + messages[0].content;
      if |messages| == 1 then line else line + "\n" + Transcript(messages[1..])
  }

  function ScopeOf(r: Request, namespace: string): Scope {
    Scope(namespace, r.tenantId, r.classification, r.privacyMode, r.responseSchema, r.requiredCapabilities,
          r.allowedRegions, r.maxCostUsd, r.maxLatencyMs, r.maxOutputTokens, r.temperature, r.prompt)
  }

  function FingerprintOf(r: Request, namespace: string): Fingerprint {
    Fingerprint(ScopeOf(r, namespace), Transcript(r.messages))
  }

  // -------------------------------------------------------------------------
  // The ordered map

  ghost predicate DistinctKeys(s: seq<Entry>) {
    forall i, j :: 0 <= i < j < |s| ==> s[i].fingerprint != s[j].fingerprint
  }

  function Lookup(s: seq<Entry>, key: Fingerprint): (k: Option<nat>)
    ensures k.Some? ==> k.value < |s| && s[k.value].fingerprint == key
    ensures k.None? ==> forall i :: 0 <= i < |s| ==> s[i].fingerprint != key
  {
    if s == [] then None
    else if s[|s| - 1].fingerprint == key then Some(|s| - 1)
    else Lookup(s[..|s| - 1], key)
  }

  function Delete(s: seq<Entry>, k: nat): seq<Entry>
    requires k < |s|
  {
    s[..k] + s[k + 1..]
  }

  function Without(s: seq<Entry>, key: Fingerprint): seq<Entry> {
    match Lookup(s, key)
    case None => s
    case Some(k) => Delete(s, k)
  }

  function MoveToEnd(s: seq<Entry>, k: nat): seq<Entry>
    requires k < |s|
  {
    Delete(s, k) + [s[k]]
  }

  function Live(s: seq<Entry>, now: real): seq<Entry> {
    if s == [] then []
    else Live(s[..|s| - 1], now) + if s[|s| - 1].expiresAt <= now then [] else [s[|s| - 1]]
  }

  // -------------------------------------------------------------------------
  // Lookup

  /** Entry i may answer the text: same scope, and similar enough. */
  ghost predicate Similar(c: Config, s: seq<Entry>, scope: Scope, vector: Vector, i: int) {
    0 <= i < |s| && s[i].scope == scope && Score(vector, s[i].vector) >= c.threshold
  }

  /** Entry k is the most similar of the first n; among equals, the last one. */
  ghost predicate MostSimilar(c: Config, s: seq<Entry>, n: int, scope: Scope, vector: Vector, k: int) {
    && k < n
    && Similar(c, s, scope, vector, k)
    && forall i :: 0 <= i < n && Similar(c, s, scope, vector, i) ==>
         Score(vector, s[i].vector) <= Score(vector, s[k].vector)
         && (Score(vector, s[i].vector) == Score(vector, s[k].vector) ==> i <= k)
  }

  /** The scan over the first n entries. */
  ghost function Scan(c: Config, s: seq<Entry>, n: nat, scope: Scope, vector: Vector): (k: Option<nat>)
    requires n <= |s|
    ensures k.Some? ==> MostSimilar(c, s, n, scope, vector, k.value)
    ensures k.None? ==> forall i :: 0 <= i < n ==> !Similar(c, s, scope, vector, i)
  {
    if n == 0 then None
    else
      var best := Scan(c, s, n - 1, scope, vector);
      var bar := if best.Some? then Score(vector, s[best.value].vector) else c.threshold;
      if s[n - 1].scope == scope && Score(vector, s[n - 1].vector) >= bar then Some(n - 1) else best
  }

  /** Which of the live entries answers a request: the exact one, or else the most similar one. */
  ghost function Answering(c: Config, s: seq<Entry>, r: Request, namespace: string): (k: Option<nat>)
    ensures k.Some? ==> k.value < |s|
  {
    var exact := Lookup(s, FingerprintOf(r, namespace));
    if exact.Some? && s[exact.value].scope == ScopeOf(r, namespace) then exact
    else Scan(c, s, |s|, ScopeOf(r, namespace), c.embed(Transcript(r.messages)))
  }

  datatype Op =
    | Get(request: Request, namespace: string, now: real)
    | Put(request: Request, response: Response, namespace: string, now: real)
    | Clear
    | Size(now: real)

  function EntryFor(c: Config, r: Request, response: Response, namespace: string, now: real): Entry {
    Entry(ScopeOf(r, namespace), FingerprintOf(r, namespace), c.embed(Transcript(r.messages)),
          response.(cacheHit := false), now + c.ttlSeconds as real)
  }

  function Newest(s: seq<Entry>, n: nat): seq<Entry> {
    if |s| > n then s[|s| - n..] else s
  }

  ghost function Apply(c: Config, s: seq<Entry>, op: Op): seq<Entry> {
    match op
    case Get(r, namespace, now) =>
      var live := Live(s, now);
      (match Answering(c, live, r, namespace)
       case None => live
       case Some(k) => MoveToEnd(live, k))
    case Put(r, response, namespace, now) =>
      var e := EntryFor(c, r, response, namespace, now);
      Newest(Without(s, e.fingerprint) + [e], c.maxEntries)
    case Clear => []
    case Size(now) => Live(s, now)
  }

  ghost function Hit(c: Config, s: seq<Entry>, r: Request, namespace: string, now: real): Option<Response> {
    var live := Live(s, now);
    match Answering(c, live, r, namespace)
    case None => None
    case Some(k) => Some(live[k].response.(cacheHit := true))
  }

  class SemanticCache {
    const config: Config
    var entries: seq<Entry>

    constructor (config: Config)
      requires config.Valid()
      ensures this.config == config && entries == []
    {
      this.config := config;
      entries := [];
    }

    method EvictExpired(now: real)
      requires DistinctKeys(entries)
      modifies this
      ensures entries == Live(old(entries), now)
    {
      var keys := ExpiredKeys(entries, now);
      ExceptNone(entries);
      hide Without;
      hide Except;
      hide Live;
      hide ExpiredKeys;
      var i := 0;
      while i < |keys|
        invariant 0 <= i <= |keys|
        invariant entries == Except(old(entries), keys[..i])
      {
        ExceptOneMore(old(entries), keys[..i], keys[i]);
        assert keys[..i + 1] == keys[..i] + [keys[i]];
        entries := Without(entries, keys[i]);
        i := i + 1;
      }
      assert keys[..i] == keys;
      ExpiredKeysAreTheExpired(old(entries), now);
      ExceptExpiredIsLive(old(entries), keys, now);
    }

    method Get(request: Request, namespace: string, now: real) returns (hit: Option<Response>)
      requires DistinctKeys(entries)
      modifies this
      ensures hit == Hit(config, old(entries), request, namespace, now)
      ensures entries == Apply(config, old(entries), Op.Get(request, namespace, now))
    {
      var scope, fingerprint := ScopeOf(request, namespace), FingerprintOf(request, namespace);
      var vector := config.embed(Transcript(request.messages));
      EvictExpired(now);
      var exact := Lookup(entries, fingerprint);
      if exact.Some? && entries[exact.value].scope == scope {
        var response := entries[exact.value].response;
        entries := MoveToEnd(entries, exact.value);
        return Some(response.(cacheHit := true));
      }
      var bestKey := BestMatch(scope, vector);
      if bestKey.None? {
        return None;
      }
      var response := entries[bestKey.value].response;
      entries := MoveToEnd(entries, bestKey.value);
      return Some(response.(cacheHit := true));
    }

    /** The scan of `get`: the last of the highest scores, at or above the threshold, in this scope. */
    method BestMatch(scope: Scope, vector: Vector) returns (bestKey: Option<nat>)
      ensures bestKey == Scan(config, entries, |entries|, scope, vector)
    {
      hide Score;
      bestKey := None;
      var bestScore := config.threshold;
      var i := 0;
      while i < |entries|
        invariant 0 <= i <= |entries|
        invariant bestKey == Scan(config, entries, i, scope, vector)
        invariant bestScore == if bestKey.Some? then Score(vector, entries[bestKey.value].vector) else config.threshold
      {
        if entries[i].scope == scope {
          var score := Cosine(vector, entries[i].vector);
          if score >= bestScore {
            bestKey := Some(i);
            bestScore := score;
          }
        }
        i := i + 1;
      }
    }

    method Put(request: Request, response: Response, namespace: string, now: real)
      requires config.Valid()
      modifies this
      ensures entries == Apply(config, old(entries), Op.Put(request, response, namespace, now))
    {
      var entry := EntryFor(config, request, response, namespace, now);
      hide EntryFor;
      hide Without;
      entries := Without(entries, entry.fingerprint) + [entry];
      ghost var all := entries;
      while |entries| > config.maxEntries
        invariant |entries| <= |all| && entries == all[|all| - |entries|..]
        invariant |entries| >= Min(|all|, config.maxEntries)
      {
        entries := entries[1..];
      }
    }

    method Clear() returns (size: nat)
      modifies this
      ensures size == |old(entries)| && entries == Apply(config, old(entries), Op.Clear)
    {
      size := |entries|;
      entries := [];
    }

    method Size(now: real) returns (size: nat)
      requires DistinctKeys(entries)
      modifies this
      ensures entries == Apply(config, old(entries), Op.Size(now)) && size == |entries|
    {
      EvictExpired(now);
      size := |entries|;
    }

    /** Any one of the calls above. */
    method Perform(op: Op)
      requires config.Valid() && DistinctKeys(entries)
      modifies this
      ensures entries == Apply(config, old(entries), op)
    {
      hide Apply;
      hide Hit;
      match op {
        case Get(request, namespace, now) => var hit := Get(request, namespace, now);
        case Put(request, response, namespace, now) => Put(request, response, namespace, now);
        case Clear => var size := Clear();
        case Size(now) => var size := Size(now);
      }
    }
  }

  function Min(a: int, b: int): int { if a <= b then a else b }

  // -------------------------------------------------------------------------
  // Evicting key by key

  function ExpiredKeys(s: seq<Entry>, now: real): (keys: seq<Fingerprint>)
    ensures forall key :: key in keys <==> exists i :: 0 <= i < |s| && s[i].expiresAt <= now && s[i].fingerprint == key
  {
    if s == [] then []
    else ExpiredKeys(s[..|s| - 1], now) + if s[|s| - 1].expiresAt <= now then [s[|s| - 1].fingerprint] else []
  }

  ghost function Except(s: seq<Entry>, keys: seq<Fingerprint>): seq<Entry> {
    if s == [] then []
    else Except(s[..|s| - 1], keys) + if s[|s| - 1].fingerprint in keys then [] else [s[|s| - 1]]
  }

  lemma {:induction false} ExceptNone(s: seq<Entry>)
    ensures Except(s, []) == s
  {
    if s != [] { ExceptNone(s[..|s| - 1]); }
  }

  lemma WithoutSnoc(s: seq<Entry>, e: Entry, key: Fingerprint)
    ensures Without(s + [e], key) == if e.fingerprint == key then s else Without(s, key) + [e]
  {
    assert (s + [e])[..|s|] == s;
    if e.fingerprint != key {
      match Lookup(s, key) {
        case None =>
        case Some(k) =>
          assert (s + [e])[..k] + (s + [e])[k + 1..] == s[..k] + s[k + 1..] + [e];
      }
    }
  }

  lemma {:induction false} ExceptMembers(s: seq<Entry>, keys: seq<Fingerprint>, key: Fingerprint)
    requires forall i :: 0 <= i < |s| ==> s[i].fingerprint != key
    ensures Except(s, keys + [key]) == Except(s, keys)
  {
    if s != [] { ExceptMembers(s[..|s| - 1], keys, key); }
  }

  lemma ExceptSnoc(s: seq<Entry>, e: Entry, keys: seq<Fingerprint>)
    ensures Except(s + [e], keys) == Except(s, keys) + if e.fingerprint in keys then [] else [e]
  {
    assert (s + [e])[..|s|] == s;
  }

  lemma {:induction false} ExceptOneMore(s: seq<Entry>, keys: seq<Fingerprint>, key: Fingerprint)
    requires DistinctKeys(s)
    ensures Without(Except(s, keys), key) == Except(s, keys + [key])
  {
    if s != [] {
      var before, last := s[..|s| - 1], s[|s| - 1];
      assert s == before + [last];
      ExceptOneMore(before, keys, key);
      ExceptSnoc(before, last, keys);
      ExceptSnoc(before, last, keys + [key]);
      WithoutSnoc(Except(before, keys), last, key);
      assert last.fingerprint in keys + [key] <==> last.fingerprint in keys || last.fingerprint == key;
      if last.fingerprint == key {
        ExceptMembers(before, keys, key);
      }
      assert Except(before, keys) + [] == Except(before, keys);
      hide Except;
      hide Without;
    }
  }

  lemma {:induction false} ExceptExpiredIsLive(s: seq<Entry>, keys: seq<Fingerprint>, now: real)
    requires forall i :: 0 <= i < |s| ==> (s[i].fingerprint in keys <==> s[i].expiresAt <= now)
    ensures Except(s, keys) == Live(s, now)
  {
    if s != [] { ExceptExpiredIsLive(s[..|s| - 1], keys, now); }
  }

  lemma ExpiredKeysAreTheExpired(s: seq<Entry>, now: real)
    requires DistinctKeys(s)
    ensures forall i :: 0 <= i < |s| ==> (s[i].fingerprint in ExpiredKeys(s, now) <==> s[i].expiresAt <= now)
  {
    forall i | 0 <= i < |s| && s[i].fingerprint in ExpiredKeys(s, now) ensures s[i].expiresAt <= now {
      var j :| 0 <= j < |s| && s[j].expiresAt <= now && s[j].fingerprint == s[i].fingerprint;
      assert i == j;
    }
  }

  // -------------------------------------------------------------------------
  // What a lookup answers

  lemma {:induction false} LiveMembers(s: seq<Entry>, now: real, e: Entry)
    ensures e in Live(s, now) <==> e in s && e.expiresAt > now
  {
    if s != [] {
      LiveMembers(s[..|s| - 1], now, e);
      assert s == s[..|s| - 1] + [s[|s| - 1]];
    }
  }

  /** The live entry for exactly this scope and transcript. */
  ghost predicate IsExact(s: seq<Entry>, r: Request, namespace: string, now: real, e: Entry) {
    e in s && e.expiresAt > now && e.fingerprint == FingerprintOf(r, namespace) && e.scope == ScopeOf(r, namespace)
  }

  /** A live entry of this scope that is similar enough. */
  ghost predicate IsSimilar(c: Config, s: seq<Entry>, r: Request, namespace: string, now: real, e: Entry) {
    && e in s
    && e.expiresAt > now
    && e.scope == ScopeOf(r, namespace)
    && Score(c.embed(Transcript(r.messages)), e.vector) >= c.threshold
  }

  /**
    A hit returns the exact live entry if there is one, or else a live entry of
    the same scope with the highest score, at or above the threshold; there is no
    hit exactly when there is no such entry.
   */
  lemma HitIsExactElseMostSimilar(c: Config, s: seq<Entry>, r: Request, namespace: string, now: real)
    requires DistinctKeys(s)
    ensures Hit(c, s, r, namespace, now).None? <==>
            forall e :: !IsExact(s, r, namespace, now, e) && !IsSimilar(c, s, r, namespace, now, e)
    ensures forall e :: IsExact(s, r, namespace, now, e) ==>
              Hit(c, s, r, namespace, now) == Some(e.response.(cacheHit := true))
    ensures Hit(c, s, r, namespace, now).Some? && (forall e :: !IsExact(s, r, namespace, now, e)) ==>
              exists e :: IsSimilar(c, s, r, namespace, now, e)
                && Hit(c, s, r, namespace, now) == Some(e.response.(cacheHit := true))
                && forall o :: IsSimilar(c, s, r, namespace, now, o) ==>
                     Score(c.embed(Transcript(r.messages)), o.vector) <= Score(c.embed(Transcript(r.messages)), e.vector)
  {
    var live := Live(s, now);
    var scope, vector := ScopeOf(r, namespace), c.embed(Transcript(r.messages));
    var exact := Lookup(live, FingerprintOf(r, namespace));
    forall e ensures e in live <==> e in s && e.expiresAt > now { LiveMembers(s, now, e); }
    forall e | IsExact(s, r, namespace, now, e)
      ensures exact.Some? && live[exact.value] == e
    {
      assert e in live;
      var i :| 0 <= i < |s| && s[i] == e;
      assert live[exact.value] in live;
      var j :| 0 <= j < |s| && s[j] == live[exact.value];
      assert i == j;
    }
    if exact.Some? && live[exact.value].scope == scope {
      assert live[exact.value] in live;
      assert IsExact(s, r, namespace, now, live[exact.value]);
    } else {
      var k := Scan(c, live, |live|, scope, vector);
      forall e | IsSimilar(c, s, r, namespace, now, e)
        ensures k.Some? && Score(vector, e.vector) <= Score(vector, live[k.value].vector)
      {
        assert e in live;
        var i :| 0 <= i < |live| && live[i] == e;
        assert Similar(c, live, scope, vector, i);
      }
      if k.Some? {
        assert live[k.value] in live;
        assert IsSimilar(c, s, r, namespace, now, live[k.value]);
      }
    }
  }

  // -------------------------------------------------------------------------
  // Runs

  ghost function Run(c: Config, ops: seq<Op>): seq<Entry> {
    if ops == [] then [] else Apply(c, Run(c, ops[..|ops| - 1]), ops[|ops| - 1])
  }

  /** The entry that a call moves to the end, if any. */
  ghost function Touched(c: Config, s: seq<Entry>, op: Op): Option<Fingerprint> {
    match op
    case Get(r, namespace, now) =>
      var live := Live(s, now);
      (match Answering(c, live, r, namespace)
       case None => None
       case Some(k) => Some(live[k].fingerprint))
    case Put(r, _, namespace, _) => Some(FingerprintOf(r, namespace))
    case _ => None
  }

  /** When an entry was last put or last answered a request, or -1. */
  ghost function LastTouch(c: Config, ops: seq<Op>, key: Fingerprint): (k: int)
    ensures -1 <= k < |ops|
  {
    if ops == [] then -1
    else
      var before := ops[..|ops| - 1];
      if Touched(c, Run(c, before), ops[|ops| - 1]) == Some(key) then |before| else LastTouch(c, before, key)
  }

  /** Ranks grow along the sequence and lie in [0, bound). */
  ghost predicate Ranked(rank: Fingerprint -> int, s: seq<Entry>, bound: int) {
    && (forall i, j :: 0 <= i < j < |s| ==> rank(s[i].fingerprint) < rank(s[j].fingerprint))
    && (forall i :: 0 <= i < |s| ==> 0 <= rank(s[i].fingerprint) < bound)
  }

  lemma {:induction false} LiveKeepsRanks(rank: Fingerprint -> int, s: seq<Entry>, bound: int, now: real)
    requires Ranked(rank, s, bound)
    ensures Ranked(rank, Live(s, now), bound) && |Live(s, now)| <= |s|
  {
    if s != [] {
      var before, last := s[..|s| - 1], s[|s| - 1];
      LiveKeepsRanks(rank, before, rank(last.fingerprint), now);
      if last.expiresAt > now {
        assert Live(s, now) == Live(before, now) + [last];
      } else {
        assert Live(s, now) == Live(before, now);
      }
    }
  }

  lemma DeleteKeepsRanks(rank: Fingerprint -> int, s: seq<Entry>, bound: int, k: nat)
    requires Ranked(rank, s, bound) && k < |s|
    ensures Ranked(rank, Delete(s, k), bound)
    ensures forall i :: 0 <= i < |s| - 1 ==> Delete(s, k)[i].fingerprint != s[k].fingerprint
  {
    var d := Delete(s, k);
    forall i | 0 <= i < |d| ensures d[i] == s[if i < k then i else i + 1] {}
  }

  lemma AppendTopRank(rank: Fingerprint -> int, s: seq<Entry>, bound: int, e: Entry, after: Fingerprint -> int)
    requires Ranked(rank, s, bound) && bound >= 0
    requires forall i :: 0 <= i < |s| ==> s[i].fingerprint != e.fingerprint
    requires forall key :: after(key) == if key == e.fingerprint then bound else rank(key)
    ensures Ranked(after, s + [e], bound + 1)
  {}

  lemma NewestKeepsRanks(rank: Fingerprint -> int, s: seq<Entry>, bound: int, n: nat)
    requires Ranked(rank, s, bound)
    ensures Ranked(rank, Newest(s, n), bound) && |Newest(s, n)| <= n
  {}

  lemma WithoutKeepsRanks(rank: Fingerprint -> int, s: seq<Entry>, bound: int, key: Fingerprint)
    requires Ranked(rank, s, bound)
    ensures Ranked(rank, Without(s, key), bound)
    ensures forall i :: 0 <= i < |Without(s, key)| ==> Without(s, key)[i].fingerprint != key
  {
    match Lookup(s, key)
    case None =>
    case Some(k) => DeleteKeepsRanks(rank, s, bound, k);
  }

  lemma WidenBound(rank: Fingerprint -> int, s: seq<Entry>, bound: int, after: Fingerprint -> int)
    requires Ranked(rank, s, bound) && forall key :: after(key) == rank(key)
    ensures Ranked(after, s, bound + 1)
  {}

  /**
    In every run the entries are ordered by the time of their last touch, no key
    occurs twice, and the size limit holds.
   */
  lemma {:induction false} EntriesAreOrderedByLastTouch(c: Config, ops: seq<Op>)
    requires c.Valid()
    ensures Ranked(key => LastTouch(c, ops, key), Run(c, ops), |ops|)
    ensures DistinctKeys(Run(c, ops)) && |Run(c, ops)| <= c.maxEntries
  {
    if ops != [] {
      var before, op := ops[..|ops| - 1], ops[|ops| - 1];
      EntriesAreOrderedByLastTouch(c, before);
      var s := Run(c, before);
      var rank := key => LastTouch(c, before, key);
      var after := key => LastTouch(c, ops, key);
      StepKeepsOrder(c, s, op, rank, |before|, after);
    }
  }

  /** Entry e beats every other similar one: by its score, or at equal scores by its rank. */
  ghost predicate Preferred(c: Config, s: seq<Entry>, rank: Fingerprint -> int, r: Request, namespace: string, now: real, e: Entry) {
    var vector := c.embed(Transcript(r.messages));
    && IsSimilar(c, s, r, namespace, now, e)
    && forall o :: IsSimilar(c, s, r, namespace, now, o) && o != e ==>
         || Score(vector, o.vector) < Score(vector, e.vector)
         || (Score(vector, o.vector) == Score(vector, e.vector) && rank(o.fingerprint) < rank(e.fingerprint))
  }

  lemma MostSimilarIsPreferred(
    c: Config, s: seq<Entry>, rank: Fingerprint -> int, bound: int, r: Request, namespace: string, now: real, k: nat)
    requires Ranked(rank, Live(s, now), bound)
    requires MostSimilar(c, Live(s, now), |Live(s, now)|, ScopeOf(r, namespace), c.embed(Transcript(r.messages)), k)
    ensures Preferred(c, s, rank, r, namespace, now, Live(s, now)[k])
  {
    hide Score;
    hide Transcript;
    var live, scope, vector := Live(s, now), ScopeOf(r, namespace), c.embed(Transcript(r.messages));
    var e := live[k];
    assert e in live;
    LiveMembers(s, now, e);
    forall o | IsSimilar(c, s, r, namespace, now, o) && o != e
      ensures || Score(vector, o.vector) < Score(vector, e.vector)
              || (Score(vector, o.vector) == Score(vector, e.vector) && rank(o.fingerprint) < rank(e.fingerprint))
    {
      LiveMembers(s, now, o);
      var i :| 0 <= i < |live| && live[i] == o;
      assert Similar(c, live, scope, vector, i);
    }
  }

  lemma LookedUpIsExact(s: seq<Entry>, r: Request, namespace: string, now: real, k: nat)
    requires k < |Live(s, now)|
    requires Live(s, now)[k].fingerprint == FingerprintOf(r, namespace) && Live(s, now)[k].scope == ScopeOf(r, namespace)
    ensures IsExact(s, r, namespace, now, Live(s, now)[k])
  {
    assert Live(s, now)[k] in Live(s, now);
    LiveMembers(s, now, Live(s, now)[k]);
  }

  lemma WithoutExactTheScanAnswers(c: Config, s: seq<Entry>, r: Request, namespace: string, now: real)
    requires forall e :: !IsExact(s, r, namespace, now, e)
    ensures Answering(c, Live(s, now), r, namespace)
            == Scan(c, Live(s, now), |Live(s, now)|, ScopeOf(r, namespace), c.embed(Transcript(r.messages)))
  {
    var live := Live(s, now);
    var exact := Lookup(live, FingerprintOf(r, namespace));
    if exact.Some? && live[exact.value].scope == ScopeOf(r, namespace) {
      LookedUpIsExact(s, r, namespace, now, exact.value);
      assert false;
    }
  }

  /** In every run, of the live entries of the scope that are equally similar, the most recently touched one answers. */
  lemma TiesGoToTheMostRecentlyTouched(c: Config, ops: seq<Op>, r: Request, namespace: string, now: real)
    requires c.Valid() && Hit(c, Run(c, ops), r, namespace, now).Some?
    requires forall e :: !IsExact(Run(c, ops), r, namespace, now, e)
    ensures exists e :: Preferred(c, Run(c, ops), key => LastTouch(c, ops, key), r, namespace, now, e)
              && Hit(c, Run(c, ops), r, namespace, now) == Some(e.response.(cacheHit := true))
  {
    hide Score;
    hide Transcript;
    var s := Run(c, ops);
    var rank := key => LastTouch(c, ops, key);
    EntriesAreOrderedByLastTouch(c, ops);
    LiveKeepsRanks(rank, s, |ops|, now);
    WithoutExactTheScanAnswers(c, s, r, namespace, now);
    var k := Answering(c, Live(s, now), r, namespace).value;
    MostSimilarIsPreferred(c, s, rank, |ops|, r, namespace, now, k);
    hide Preferred;
    hide Live;
    hide Run;
    hide Answering;
    assert Preferred(c, s, rank, r, namespace, now, Live(s, now)[k]);
  }

  lemma StepKeepsOrder(c: Config, s: seq<Entry>, op: Op, rank: Fingerprint -> int, bound: nat, after: Fingerprint -> int)
    requires c.Valid() && Ranked(rank, s, bound) && |s| <= c.maxEntries
    requires forall key :: after(key) == if Touched(c, s, op) == Some(key) then bound else rank(key)
    ensures Ranked(after, Apply(c, s, op), bound + 1) && |Apply(c, s, op)| <= c.maxEntries
  {
    match op
    case Get(r, namespace, now) =>
      var live := Live(s, now);
      LiveKeepsRanks(rank, s, bound, now);
      match Answering(c, live, r, namespace) {
        case None => WidenBound(rank, live, bound, after);
        case Some(k) =>
          DeleteKeepsRanks(rank, live, bound, k);
          AppendTopRank(rank, Delete(live, k), bound, live[k], after);
      }
    case Put(r, response, namespace, now) =>
      var e := EntryFor(c, r, response, namespace, now);
      WithoutKeepsRanks(rank, s, bound, e.fingerprint);
      AppendTopRank(rank, Without(s, e.fingerprint), bound, e, after);
      NewestKeepsRanks(after, Without(s, e.fingerprint) + [e], bound + 1, c.maxEntries);
    case Clear =>
    case Size(now) =>
      LiveKeepsRanks(rank, s, bound, now);
      WidenBound(rank, Live(s, now), bound, after);
  }

  /**
    Overflow drops the least recently touched entry and nothing else, and never
    the entry just put.
   */
  lemma PutDropsOnlyTheLeastRecent(c: Config, s: seq<Entry>, r: Request, response: Response, namespace: string, now: real)
    requires c.Valid() && DistinctKeys(s) && |s| <= c.maxEntries
    ensures var e := EntryFor(c, r, response, namespace, now);
      Apply(c, s, Put(r, response, namespace, now)) ==
        if Lookup(s, e.fingerprint).Some? then Delete(s, Lookup(s, e.fingerprint).value) + [e]
        else if |s| < c.maxEntries then s + [e]
        else s[1..] + [e]
  {
    PushDropsFirst(s, EntryFor(c, r, response, namespace, now), c.maxEntries);
  }

  lemma NewestOfFew(s: seq<Entry>, n: nat)
    requires |s| <= n
    ensures Newest(s, n) == s
  {}

  lemma NewestOfOneMore(s: seq<Entry>, e: Entry, n: nat)
    requires |s| == n && n > 0
    ensures Newest(s + [e], n) == s[1..] + [e]
  {
    assert (s + [e])[1..] == s[1..] + [e];
  }

  lemma PushDropsFirst(s: seq<Entry>, e: Entry, n: nat)
    requires |s| <= n && n > 0
    ensures Newest(Without(s, e.fingerprint) + [e], n) ==
              if Lookup(s, e.fingerprint).Some? then Delete(s, Lookup(s, e.fingerprint).value) + [e]
              else if |s| < n then s + [e]
              else s[1..] + [e]
  {
    hide Newest;
    hide Lookup;
    var k := Lookup(s, e.fingerprint);
    if k.Some? {
      NewestOfFew(Delete(s, k.value) + [e], n);
    } else if |s| < n {
      NewestOfFew(s + [e], n);
    } else {
      NewestOfOneMore(s, e, n);
    }
  }

  /** Call p put this entry, and nothing since has cleared or replaced it. */
  ghost predicate PutBy(c: Config, ops: seq<Op>, p: int, e: Entry) {
    && 0 <= p < |ops|
    && ops[p].Put?
    && e == EntryFor(c, ops[p].request, ops[p].response, ops[p].namespace, ops[p].now)
    && (forall q :: p < q < |ops| ==> !ops[q].Clear?)
    && (forall q :: p < q < |ops| && ops[q].Put? ==> FingerprintOf(ops[q].request, ops[q].namespace) != e.fingerprint)
  }

  lemma ApplyMembers(c: Config, s: seq<Entry>, op: Op, e: Entry)
    requires DistinctKeys(s) && e in Apply(c, s, op)
    ensures !op.Clear?
    ensures e in s || (op.Put? && e == EntryFor(c, op.request, op.response, op.namespace, op.now))
    ensures op.Put? && e.fingerprint == FingerprintOf(op.request, op.namespace) ==>
              e == EntryFor(c, op.request, op.response, op.namespace, op.now)
  {
    match op
    case Get(r, namespace, now) =>
      LiveMembers(s, now, e);
      var live := Live(s, now);
      match Answering(c, live, r, namespace) {
        case None =>
        case Some(k) => assert e in Delete(live, k) || e == live[k];
      }
    case Put(r, response, namespace, now) =>
      var n := EntryFor(c, r, response, namespace, now);
      assert e in Without(s, n.fingerprint) + [n];
      match Lookup(s, n.fingerprint) {
        case None =>
        case Some(k) => assert e == n || e in Delete(s, k);
      }
    case Clear =>
    case Size(now) => LiveMembers(s, now, e);
  }

  lemma PutBySnoc(c: Config, before: seq<Op>, op: Op, p: int, e: Entry)
    requires PutBy(c, before, p, e) && !op.Clear?
    requires op.Put? ==> FingerprintOf(op.request, op.namespace) != e.fingerprint
    ensures PutBy(c, before + [op], p, e)
  {}

  lemma PutByLast(c: Config, before: seq<Op>, op: Op)
    requires op.Put?
    ensures PutBy(c, before + [op], |before|, EntryFor(c, op.request, op.response, op.namespace, op.now))
  {}

  /** In every run, every entry is the latest thing put under its key since the last clear. */
  lemma {:induction false} EveryEntryWasPut(c: Config, ops: seq<Op>, e: Entry) returns (p: int)
    requires c.Valid() && e in Run(c, ops)
    ensures PutBy(c, ops, p, e)
  {
    hide Apply;
    hide EntryFor;
    hide Ranked;
    hide PutBy;
    var before, op := ops[..|ops| - 1], ops[|ops| - 1];
    assert ops == before + [op];
    EntriesAreOrderedByLastTouch(c, before);
    ApplyMembers(c, Run(c, before), op, e);
    if op.Put? && e == EntryFor(c, op.request, op.response, op.namespace, op.now) {
      p := |before|;
      PutByLast(c, before, op);
    } else {
      p := EveryEntryWasPut(c, before, e);
      PutBySnoc(c, before, op, p, e);
    }
  }

  /** What is stored is the response as it was put, not marked as a hit, for the time to live from the put on. */
  lemma EntriesAreStoredFresh(c: Config, ops: seq<Op>, e: Entry) returns (p: int)
    requires c.Valid() && e in Run(c, ops)
    ensures PutBy(c, ops, p, e)
    ensures !e.response.cacheHit && e.response.(cacheHit := ops[p].response.cacheHit) == ops[p].response
    ensures e.expiresAt == ops[p].now + c.ttlSeconds as real
    ensures e.scope.tenant == ops[p].request.tenantId && e.scope.namespace == ops[p].namespace
  {
    p := EveryEntryWasPut(c, ops, e);
    hide Run;
  }

  /**
    Where a hit comes from, in every run: from one put of the same scope that has
    not expired, been cleared or been replaced; the response is unchanged but for
    the hit mark; and the texts are equal or similar enough.
   */
  lemma HitComesFromLivePut(c: Config, ops: seq<Op>, r: Request, namespace: string, now: real) returns (p: int, e: Entry)
    requires c.Valid() && Hit(c, Run(c, ops), r, namespace, now).Some?
    ensures PutBy(c, ops, p, e)
    ensures ops[p].now + c.ttlSeconds as real > now
    ensures ScopeOf(ops[p].request, ops[p].namespace) == ScopeOf(r, namespace)
    ensures ops[p].request.tenantId == r.tenantId && ops[p].namespace == namespace
    ensures ops[p].request.maxCostUsd == r.maxCostUsd && ops[p].request.maxOutputTokens == r.maxOutputTokens
    ensures ops[p].request.temperature == r.temperature && ops[p].request.prompt == r.prompt
    ensures Hit(c, Run(c, ops), r, namespace, now) == Some(ops[p].response.(cacheHit := true))
    ensures Transcript(ops[p].request.messages) == Transcript(r.messages)
            || Score(c.embed(Transcript(r.messages)), c.embed(Transcript(ops[p].request.messages))) >= c.threshold
  {
    var s := Run(c, ops);
    var live := Live(s, now);
    var k := Answering(c, live, r, namespace).value;
    e := live[k];
    assert e in live;
    LiveMembers(s, now, e);
    p := EveryEntryWasPut(c, ops, e);
  }

  // -------------------------------------------------------------------------
  // Limits of the key

  /** Reordered words score exactly 1, so they hit whatever the threshold, unless their counts cancel. */
  lemma ReorderedWordsAlwaysHit(
    c: Config, e: Embedder, s: seq<Entry>, r: Request, namespace: string, now: real, entry: Entry,
    words: seq<string>, reordered: seq<string>)
    requires c.Valid() && e.Valid() && DistinctKeys(s)
    requires entry in s && entry.expiresAt > now && entry.scope == ScopeOf(r, namespace)
    requires entry.vector == EmbeddingOf(e, words) && entry.vector != map[]
    requires c.embed(Transcript(r.messages)) == EmbeddingOf(e, reordered)
    requires multiset(words) == multiset(reordered)
    ensures Hit(c, s, r, namespace, now).Some?
  {
    EmbeddingForgetsOrder(e, words, reordered);
    EmbeddingIsUnit(e, words);
    HitIsExactElseMostSimilar(c, s, r, namespace, now);
    assert IsSimilar(c, s, r, namespace, now, entry);
  }
}
