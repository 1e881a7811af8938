/**
  The clock of the limiter. Over any window a tenant gets at most a burst plus the
  refill of that window, if the clock does not go back; here is what becomes of that
  promise on any clock at all.

  A bucket stores the reading of each call, even one that went back, and refills by
  every step forwards. So between two calls it has refilled by the sum of the steps
  forwards, which may be more than their readings are apart.
 */
module LimiterClock {
  import opened Domain
  import opened RateLimit

  function Readings(run: seq<Call>): (t: seq<real>)
    ensures |t| == |run|
    ensures forall i :: 0 <= i < |run| ==> t[i] == run[i].now
  {
    seq(|run|, i requires 0 <= i < |run| => run[i].now)
  }

  /** The sum of the steps forwards from reading i to reading k. */
  function Climb(t: seq<real>, i: nat, k: nat): (sum: real)
    requires i <= k < |t|
    ensures sum >= 0.0
  {
    if i == k then 0.0 else Climb(t, i, k - 1) + MaxReal(0.0, t[k] - t[k - 1])
  }

  function Distance(a: real, b: real): real { if a <= b then b - a else a - b }

  /** Between any two readings the clock has gone forwards by no more than they are apart. */
  ghost predicate Steady(t: seq<real>) {
    forall i: nat, k: nat :: i < k < |t| ==> Climb(t, i, k) <= Distance(t[i], t[k])
  }

  /** A burst plus the refill of a time. */
  function Allowance(s: Limits, time: real): real { s.burst + s.rate * time }

  lemma AllowanceGrows(s: Limits, a: real, b: real)
    requires a <= b
    ensures Allowance(s, a) <= Allowance(s, b)
    ensures Allowance(s, b) == Allowance(s, a) + (b - a) * s.rate
  {
    NonNegativeProduct(b - a, s.rate);
    assert (b - a) * s.rate == s.rate * b - s.rate * a;
  }

  /** The bound, for every limit, every amount asked for, and every window. */
  ghost predicate BoundHolds(key: string, t: seq<real>) {
    forall s: Limits, run, from, to :: from <= to && Readings(OnlyKey(run, key)) == t ==>
      GrantedIn(s, run, key, from, to) <= Allowance(s, to - from)
  }

  // -------------------------------------------------------------------------
  // A steady clock is enough

  /** Granted so far, plus what the bucket would show at any time, is at most a burst plus the refill so far. */
  ghost predicate Covered(s: Limits, m: Buckets, key: string, granted: real, climb: real, at: real) {
    forall now :: granted + Level(s, m, key, now) <= Allowance(s, climb + MaxReal(0.0, now - at))
  }

  /** A bucket with these tokens is covered from its reading on. */
  lemma StoredIsCovered(s: Limits, m: Buckets, key: string, granted: real, climb: real)
    requires key in m && granted + m[key].tokens <= Allowance(s, climb)
    ensures Covered(s, m, key, granted, climb, m[key].updatedAt)
  {
    hide Allowance;
    forall now
      ensures granted + Level(s, m, key, now) <= Allowance(s, climb + MaxReal(0.0, now - m[key].updatedAt))
    {
      AllowanceGrows(s, climb, climb + MaxReal(0.0, now - m[key].updatedAt));
    }
  }

  /** Moving the reference to another reading costs the step forwards to it. */
  lemma CoveredLater(s: Limits, m: Buckets, key: string, granted: real, climb: real, at: real, next: real)
    requires Covered(s, m, key, granted, climb, at)
    ensures Covered(s, m, key, granted, climb + MaxReal(0.0, next - at), next)
    ensures granted + Level(s, m, key, next) <= Allowance(s, climb + MaxReal(0.0, next - at))
  {
    hide Level;
    hide Allowance;
    forall now
      ensures granted + Level(s, m, key, now)
              <= Allowance(s, climb + MaxReal(0.0, next - at) + MaxReal(0.0, now - next))
    {
      AllowanceGrows(s, climb + MaxReal(0.0, now - at), climb + MaxReal(0.0, next - at) + MaxReal(0.0, now - next));
    }
  }

  /** What a call adds to the tokens granted in a window. */
  function Gain(s: Limits, m: Buckets, c: Call, from: real, to: real): (gain: real)
    ensures gain == 0.0 || gain == c.tokens
  {
    if from <= c.now <= to && Answer(s, m, c).Granted? then c.tokens else 0.0
  }

  /** One call, at the reading the bound refers to. */
  lemma CallKeepsCovered(s: Limits, m: Buckets, c: Call, from: real, to: real, granted: real, climb: real)
    requires granted + Level(s, m, c.key, c.now) <= Allowance(s, climb)
    requires Covered(s, m, c.key, granted, climb, c.now)
    ensures Covered(s, Apply(s, m, c), c.key, granted + Gain(s, m, c, from, to), climb, c.now)
    ensures Gain(s, m, c, from, to) > 0.0 ==> granted + Gain(s, m, c, from, to) <= Allowance(s, climb)
  {
    hide Allowance;
    GrantedMeansEnough(s, m, c);
    if Acceptable(s, c.tokens) {
      StoredIsCovered(s, Apply(s, m, c), c.key, granted + Gain(s, m, c, from, to), climb);
    }
  }

  ghost predicate OneKey(run: seq<Call>, key: string) {
    forall i :: 0 <= i < |run| ==> run[i].key == key
  }

  /** The calls before the first reading in the window add nothing. */
  lemma {:induction false} NothingBeforeTheWindow(s: Limits, run: seq<Call>, key: string, from: real, to: real, n: nat)
    requires n <= |run|
    requires forall j :: 0 <= j < n ==> !(from <= run[j].now <= to)
    ensures GrantedIn(s, run[..n], key, from, to) == 0.0
  {
    hide Answer;
    if n > 0 {
      assert run[..n][..n - 1] == run[..n - 1];
      NothingBeforeTheWindow(s, run, key, from, to, n - 1);
    }
  }

  lemma OneMoreCall(s: Limits, run: seq<Call>, key: string, from: real, to: real, n: nat)
    requires OneKey(run, key) && n < |run|
    ensures After(s, run[..n + 1]) == Apply(s, After(s, run[..n]), run[n])
    ensures GrantedIn(s, run[..n + 1], key, from, to)
            == GrantedIn(s, run[..n], key, from, to) + Gain(s, After(s, run[..n]), run[n], from, to)
  {
    hide Answer;
    hide Apply;
    assert run[..n + 1][..n] == run[..n];
  }

  /** From the first reading in the window on, what was granted plus what is left is covered by the climb since. */
  lemma {:induction false} ClimbCovers(s: Limits, run: seq<Call>, key: string, from: real, to: real, i: nat, n: nat)
    requires OneKey(run, key) && i < n <= |run|
    requires forall j :: 0 <= j < i ==> !(from <= run[j].now <= to)
    ensures Covered(s, After(s, run[..n]), key, GrantedIn(s, run[..n], key, from, to),
                    Climb(Readings(run), i, n - 1), run[n - 1].now)
    ensures var before := After(s, run[..n - 1]);
      Gain(s, before, run[n - 1], from, to) > 0.0 ==>
        GrantedIn(s, run[..n], key, from, to) <= Allowance(s, Climb(Readings(run), i, n - 1))
  {
    hide Answer;
    hide Apply;
    hide Level;
    hide Gain;
    hide Covered;
    hide Allowance;
    hide GrantedIn;
    hide After;
    var c, granted := run[n - 1], GrantedIn(s, run[..n - 1], key, from, to);
    var m := After(s, run[..n - 1]);
    OneMoreCall(s, run, key, from, to, n - 1);
    if n == i + 1 {
      NothingBeforeTheWindow(s, run, key, from, to, i);
      NothingGrantedIsCovered(s, m, key, c.now);
    } else {
      ClimbCovers(s, run, key, from, to, i, n - 1);
      CoveredLater(s, m, key, granted, Climb(Readings(run), i, n - 2), run[n - 2].now, c.now);
    }
    CallKeepsCovered(s, m, c, from, to, granted, Climb(Readings(run), i, n - 1));
  }

  lemma NothingGrantedIsCovered(s: Limits, m: Buckets, key: string, at: real)
    ensures Covered(s, m, key, 0.0, 0.0, at)
    ensures 0.0 + Level(s, m, key, at) <= Allowance(s, 0.0)
  {
    hide Allowance;
    forall now ensures 0.0 + Level(s, m, key, now) <= Allowance(s, 0.0 + MaxReal(0.0, now - at)) {
      EmptyAllowance(s);
      AllowanceGrows(s, 0.0, MaxReal(0.0, now - at));
    }
  }

  lemma EmptyAllowance(s: Limits)
    ensures Allowance(s, 0.0) == s.burst
  {}

  /** Of the readings in a window, the climb from the first to any other is at most its length. */
  lemma SteadyInWindow(t: seq<real>, from: real, to: real, i: nat, k: nat)
    requires Steady(t) && i <= k < |t| && from <= t[i] <= to && from <= t[k] <= to
    ensures Climb(t, i, k) <= to - from
  {
    if i < k { assert Climb(t, i, k) <= Distance(t[i], t[k]); }
  }

  function FirstInWindow(run: seq<Call>, from: real, to: real, n: nat): (i: nat)
    requires n <= |run|
    ensures i <= n
    ensures i < n ==> from <= run[i].now <= to
    ensures forall j :: 0 <= j < i ==> !(from <= run[j].now <= to)
  {
    if n == 0 then 0
    else
      var i := FirstInWindow(run, from, to, n - 1);
      if i < n - 1 then i else if from <= run[n - 1].now <= to then n - 1 else n
  }

  lemma {:induction false} SteadyClockBoundsOneKey(s: Limits, run: seq<Call>, key: string, from: real, to: real, n: nat)
    requires OneKey(run, key) && Steady(Readings(run)) && from <= to && n <= |run|
    ensures GrantedIn(s, run[..n], key, from, to) <= Allowance(s, to - from)
  {
    hide Steady;
    hide Allowance;
    hide GrantedIn;
    if n == 0 {
      NothingBeforeTheWindow(s, run, key, from, to, n);
      EmptyAllowance(s);
      AllowanceGrows(s, 0.0, to - from);
      return;
    }
    SteadyClockBoundsOneKey(s, run, key, from, to, n - 1);
    OneMoreCall(s, run, key, from, to, n - 1);
    if Gain(s, After(s, run[..n - 1]), run[n - 1], from, to) > 0.0 {
      var i := FirstInWindow(run, from, to, n);
      ClimbCovers(s, run, key, from, to, i, n);
      SteadyInWindow(Readings(run), from, to, i, n - 1);
      AllowanceGrows(s, Climb(Readings(run), i, n - 1), to - from);
    }
  }

  lemma {:induction false} OnlyKeyIsOneKey(run: seq<Call>, key: string)
    ensures OneKey(OnlyKey(run, key), key)
    ensures OneKey(run, key) ==> OnlyKey(run, key) == run
  {
    if run != [] {
      OnlyKeyIsOneKey(run[..|run| - 1], key);
      assert run == run[..|run| - 1] + [run[|run| - 1]];
    }
  }

  lemma SteadyClockBounds(s: Limits, run: seq<Call>, key: string, from: real, to: real)
    requires Steady(Readings(OnlyKey(run, key))) && from <= to
    ensures GrantedIn(s, run, key, from, to) <= Allowance(s, to - from)
  {
    hide Steady;
    hide Allowance;
    hide GrantedIn;
    hide OnlyKey;
    hide OneKey;
    hide Readings;
    var only := OnlyKey(run, key);
    OnlyKeyIsOneKey(run, key);
    GrantsOfKey(s, run, key, from, to);
    assert only[..|only|] == only;
    SteadyClockBoundsOneKey(s, only, key, from, to, |only|);
  }

  // -------------------------------------------------------------------------
  // A steady clock is needed

  /**
    The worst caller for readings that climb between i and k: nothing before i, the
    whole burst at i, the burst again while it is refused, at k what has been refilled.
   */
  function Greedy(key: string, t: seq<real>, i: nat, k: nat): (run: seq<Call>)
    requires i < k < |t|
    ensures |run| == |t| && OneKey(run, key) && Readings(run) == t
  {
    var climb := Climb(t, i, k);
    seq(|t|, j requires 0 <= j < |t| =>
      Call(key, if j < i || k < j then 0.0 else if j < k then climb + 1.0 else climb, t[j]))
  }

  lemma {:induction false} ClimbGrows(t: seq<real>, i: nat, j: nat, k: nat)
    requires i <= j <= k < |t|
    ensures Climb(t, i, j) <= Climb(t, i, k)
  {
    if j < k { ClimbGrows(t, i, j, k - 1); }
  }

  /** The call at i takes the whole burst, and the calls before it nothing. */
  lemma GreedyStarts(s: Limits, key: string, first: real, now: real)
    ensures Apply(s, map[], Call(key, 0.0, first)) == map[]
    ensures Apply(s, map[], Call(key, s.burst, now)) == map[key := Bucket(0.0, now)]
    ensures Answer(s, map[], Call(key, s.burst, now)).Granted?
    ensures !Answer(s, map[], Call(key, 0.0, first)).Granted?
  {}

  /** A call that asks for more than the bucket then holds is refused, one that asks for just that is granted. */
  lemma GreedyGoesOn(s: Limits, key: string, level: real, at: real, now: real)
    requires s.rate == 1.0 && level >= 0.0
    ensures var m, filled := map[key := Bucket(level, at)], level + MaxReal(0.0, now - at);
      filled < s.burst ==>
        && Apply(s, m, Call(key, s.burst, now)) == map[key := Bucket(filled, now)]
        && !Answer(s, m, Call(key, s.burst, now)).Granted?
        && (filled > 0.0 ==> Answer(s, m, Call(key, filled, now)).Granted?)
  {}

  /** After a call between i and k the bucket holds what has been refilled since i. */
  lemma {:induction false} GreedyTakesTheClimb(key: string, t: seq<real>, i: nat, k: nat, from: real, to: real, n: nat)
    requires i < k < |t| && n <= k + 1 && Climb(t, i, k) > 0.0
    requires from <= t[i] <= to && from <= t[k] <= to
    ensures var climb := Climb(t, i, k);
      var s: Limits := Settings(1.0, climb + 1.0);
      var run := Greedy(key, t, i, k)[..n];
      && (n <= i ==> After(s, run) == map[] && GrantedIn(s, run, key, from, to) == 0.0)
      && (i < n <= k ==> After(s, run) == map[key := Bucket(Climb(t, i, n - 1), t[n - 1])]
                         && GrantedIn(s, run, key, from, to) == climb + 1.0)
      && (n == k + 1 ==> GrantedIn(s, run, key, from, to) == climb + 1.0 + climb)
  {
    hide GrantedIn;
    hide After;
    hide Apply;
    hide Answer;
    var climb := Climb(t, i, k);
    var s: Limits := Settings(1.0, climb + 1.0);
    var run := Greedy(key, t, i, k);
    if n == 0 {
      NothingYet(s, key, from, to);
      assert run[..n] == [];
      return;
    }
    GreedyTakesTheClimb(key, t, i, k, from, to, n - 1);
    OneMoreCall(s, run, key, from, to, n - 1);
    if n - 1 <= i {
      GreedyStarts(s, key, t[n - 1], t[i]);
    } else {
      ClimbGrows(t, i, n - 1, k);
      GreedyGoesOn(s, key, Climb(t, i, n - 2), t[n - 2], t[n - 1]);
    }
  }

  lemma NothingYet(s: Limits, key: string, from: real, to: real)
    ensures After(s, []) == map[] && GrantedIn(s, [], key, from, to) == 0.0
  {}

  lemma {:induction false} NothingAfterTheClimb(key: string, t: seq<real>, i: nat, k: nat, from: real, to: real, n: nat)
    requires i < k < n <= |t| && Climb(t, i, k) > 0.0
    requires from <= t[i] <= to && from <= t[k] <= to
    ensures var s: Limits := Settings(1.0, Climb(t, i, k) + 1.0);
      GrantedIn(s, Greedy(key, t, i, k)[..n], key, from, to) == Climb(t, i, k) + 1.0 + Climb(t, i, k)
  {
    hide GrantedIn;
    hide After;
    var s: Limits := Settings(1.0, Climb(t, i, k) + 1.0);
    if n == k + 1 {
      GreedyTakesTheClimb(key, t, i, k, from, to, n);
    } else {
      NothingAfterTheClimb(key, t, i, k, from, to, n - 1);
      OneMoreCall(s, Greedy(key, t, i, k), key, from, to, n - 1);
    }
  }

  lemma ClimbIsNeeded(key: string, t: seq<real>, i: nat, k: nat)
    requires BoundHolds(key, t) && i < k < |t|
    ensures Climb(t, i, k) <= Distance(t[i], t[k])
  {
    hide GrantedIn;
    hide Greedy;
    hide Climb;
    hide OnlyKey;
    hide OneKey;
    hide Readings;
    if Climb(t, i, k) > 0.0 {
      var run, from, to := Greedy(key, t, i, k), MinReal(t[i], t[k]), MaxReal(t[i], t[k]);
      var s: Limits := Settings(1.0, Climb(t, i, k) + 1.0);
      NothingAfterTheClimb(key, t, i, k, from, to, |t|);
      assert run[..|t|] == run;
      OnlyKeyIsOneKey(run, key);
      assert GrantedIn(s, run, key, from, to) <= Allowance(s, to - from);
    }
  }

  // -------------------------------------------------------------------------
  // The condition

  /**
    Which clocks keep the bound. Given the readings that the calls on one key see, no
    limit, no amounts asked for and no window exceed the bound exactly when between
    any two of these readings the clock goes forwards by no more than they are apart.
   */
  lemma WindowBoundIff(key: string, t: seq<real>)
    ensures BoundHolds(key, t) <==> Steady(t)
  {
    if BoundHolds(key, t) {
      forall i: nat, k: nat | i < k < |t| ensures Climb(t, i, k) <= Distance(t[i], t[k]) {
        ClimbIsNeeded(key, t, i, k);
      }
    }
    if Steady(t) {
      forall s: Limits, run, from, to | from <= to && Readings(OnlyKey(run, key)) == t
        ensures GrantedIn(s, run, key, from, to) <= Allowance(s, to - from)
      {
        SteadyClockBounds(s, run, key, from, to);
      }
    }
  }

  lemma {:induction false} ClimbOfRisingReadings(t: seq<real>, i: nat, k: nat)
    requires forall a, b :: 0 <= a < b < |t| ==> t[a] <= t[b]
    requires i <= k < |t|
    ensures Climb(t, i, k) == t[k] - t[i]
  {
    if i < k { ClimbOfRisingReadings(t, i, k - 1); }
  }

  lemma {:induction false} OnlyKeyIsPast(run: seq<Call>, key: string, now: real)
    requires PastReadings(run, key, now)
    ensures forall i :: 0 <= i < |OnlyKey(run, key)| ==> OnlyKey(run, key)[i].now <= now
  {
    if run != [] {
      PastReadingsOfPrefix(run, key, now);
      OnlyKeyIsPast(run[..|run| - 1], key, now);
    }
  }

  lemma {:induction false} OnlyKeyIsMonotone(run: seq<Call>, key: string)
    requires MonotoneOn(run, key)
    ensures Monotone(OnlyKey(run, key))
  {
    if run != [] {
      MonotonePrefix(run, key);
      OnlyKeyIsMonotone(run[..|run| - 1], key);
      if run[|run| - 1].key == key { OnlyKeyIsPast(run[..|run| - 1], key, run[|run| - 1].now); }
    }
  }

  /**
    In particular: for one key whose readings do not go back, no window of any length
    lets through more than a burst plus the refill of that window, whatever readings
    the calls on other keys saw.
   */
  lemma WindowBound(s: Limits, run: seq<Call>, key: string, from: real, to: real)
    requires MonotoneOn(run, key) && from <= to
    ensures GrantedIn(s, run, key, from, to) <= s.burst + s.rate * (to - from)
  {
    hide GrantedIn;
    hide OnlyKey;
    OnlyKeyIsMonotone(run, key);
    var t := Readings(OnlyKey(run, key));
    forall i: nat, k: nat | i < k < |t| ensures Climb(t, i, k) <= Distance(t[i], t[k]) {
      ClimbOfRisingReadings(t, i, k);
    }
    SteadyClockBounds(s, run, key, from, to);
  }

  /** A clock that has gone back may come halfway up again, and no further. */
  lemma ThreeReadingsIff(key: string, a: real, b: real, c: real)
    requires b < a
    ensures BoundHolds(key, [a, b, c]) <==> 2.0 * c <= a + b
  {
    hide BoundHolds;
    WindowBoundIff(key, [a, b, c]);
    var t := [a, b, c];
    assert Climb(t, 0, 1) == 0.0;
    assert Climb(t, 1, 2) == MaxReal(0.0, c - b);
    assert Climb(t, 0, 2) == MaxReal(0.0, c - b);
    if Steady(t) { assert Climb(t, 0, 2) <= Distance(t[0], t[2]); }
  }

  /** A tenant that asks for one token each time exceeds the bound when the clock goes back and returns. */
  lemma BackwardClockBreaksTheBound()
    ensures !BoundHolds("t", [10.0, 0.0, 10.0]) && BoundHolds("t", [10.0, 0.0, 4.0])
    ensures
      var s: Limits := Settings(1.0, 1.0);
      var run := [Call("t", 1.0, 10.0), Call("t", 1.0, 0.0), Call("t", 1.0, 10.0)];
      GrantedIn(s, run, "t", 10.0, 10.0) > s.burst + s.rate * (10.0 - 10.0)
  {
    ThreeReadingsIff("t", 10.0, 0.0, 10.0);
    ThreeReadingsIff("t", 10.0, 0.0, 4.0);
    TwoTokensAtOnce();
  }

  lemma TwoTokensAtOnce()
    ensures
      var run := [Call("t", 1.0, 10.0), Call("t", 1.0, 0.0), Call("t", 1.0, 10.0)];
      GrantedIn(Settings(1.0, 1.0), run, "t", 10.0, 10.0) == 2.0
  {
    var s: Limits := Settings(1.0, 1.0);
    var a, b, c := Call("t", 1.0, 10.0), Call("t", 1.0, 0.0), Call("t", 1.0, 10.0);
    assert [a, b, c][..2] == [a, b] && [a, b][..1] == [a] && [a][..0] == [];
    assert After(s, [a]) == map["t" := Bucket(0.0, 10.0)];
    assert After(s, [a, b]) == map["t" := Bucket(0.0, 0.0)];
    assert GrantedIn(s, [a], "t", 10.0, 10.0) == 1.0;
    assert GrantedIn(s, [a, b], "t", 10.0, 10.0) == 1.0;
  }
}
