/**
  The hashing embedder of the semantic cache and its similarity score.

  Vectors are sparse maps. `Score` is the reference: the full dot product over
  every coordinate. The loops below walk one of the two maps in arbitrary order.
*/
module Embedding {
  import opened Domain

  type Vector = map<nat, real>

  function Coord(v: Vector, i: nat): real { if i in v then v[i] else 0.0 }

  /** The product as a term of its own: most proofs need none of its laws. */
  function Times(x: real, y: real): real { x * y }

  function Square(x: real): real { Times(x, x) }

  function Dot(a: Vector, b: Vector, n: nat): real {
    if n == 0 then 0.0 else Dot(a, b, n - 1) + Times(Coord(a, n - 1), Coord(b, n - 1))
  }

  ghost predicate Below(keys: set<nat>, n: nat) { forall i :: i in keys ==> i < n }

  /** A number above all keys. */
  ghost function Width(keys: set<nat>): (n: nat)
    ensures Below(keys, n)
  {
    if keys == {} then 0
    else
      var i :| i in keys;
      assert forall j :: j in keys ==> j == i || j in keys - {i};
      Max(i + 1, Width(keys - {i}))
  }

  ghost function Score(a: Vector, b: Vector): real {
    Dot(a, b, Width(a.Keys + b.Keys))
  }

  lemma {:induction false} DotBeyond(a: Vector, b: Vector, m: nat, n: nat)
    requires m <= n && (Below(a.Keys, m) || Below(b.Keys, m))
    ensures Dot(a, b, n) == Dot(a, b, m)
  {
    if m < n {
      DotBeyond(a, b, m, n - 1);
      assert Coord(a, n - 1) == 0.0 || Coord(b, n - 1) == 0.0;
    }
  }

  /** The score is the dot product over any range that covers one of the vectors. */
  lemma ScoreIsDot(a: Vector, b: Vector, n: nat)
    requires Below(a.Keys, n) || Below(b.Keys, n)
    ensures Score(a, b) == Dot(a, b, n)
  {
    var w := Width(a.Keys + b.Keys);
    assert Below(a.Keys, w) && Below(b.Keys, w);
    if n <= w { DotBeyond(a, b, n, w); } else { DotBeyond(a, b, w, n); }
  }

  lemma {:induction false} DotSymmetric(a: Vector, b: Vector, n: nat)
    ensures Dot(a, b, n) == Dot(b, a, n)
  {
    if n > 0 { DotSymmetric(a, b, n - 1); }
  }

  lemma ScoreSymmetric(a: Vector, b: Vector)
    ensures Score(a, b) == Score(b, a)
  {
    var n := Width(a.Keys + b.Keys);
    assert a.Keys + b.Keys == b.Keys + a.Keys;
    DotSymmetric(a, b, n);
  }

  function Restrict(v: Vector, keys: set<nat>): Vector {
    map i | i in v && i in keys :: v[i]
  }

  lemma {:induction false} DotAddsKey(v: Vector, keys: set<nat>, k: nat, b: Vector, n: nat)
    requires k in v && k !in keys
    ensures Dot(Restrict(v, keys + {k}), b, n) ==
            Dot(Restrict(v, keys), b, n) + (if k < n then Times(v[k], Coord(b, k)) else 0.0)
  {
    if n > 0 { DotAddsKey(v, keys, k, b, n - 1); }
  }

  /** Walks whichever map is smaller, yet computes the full dot product. */
  method Cosine(left: Vector, right: Vector) returns (score: real)
    ensures score == Score(left, right)
  {
    if left == map[] || right == map[] {
      ScoreIsDot(left, right, 0);
      return 0.0;
    }
    var small, large := left, right;
    if |left| > |right| {
      small, large := right, left;
      ScoreSymmetric(left, right);
    }
    score := 0.0;
    var todo := small.Keys;
    ghost var n := Width(small.Keys + large.Keys);
    assert Below(small.Keys, n);
    DotBeyond(Restrict(small, {}), large, 0, n);
    assert small.Keys - todo == {};
    while todo != {}
      invariant todo <= small.Keys
      invariant score == Dot(Restrict(small, small.Keys - todo), large, n)
    {
      var index :| index in todo;
      DotAddsKey(small, small.Keys - todo, index, large, n);
      assert small.Keys - todo + {index} == small.Keys - (todo - {index});
      score := score + small[index] * Coord(large, index);
      todo := todo - {index};
    }
    assert Restrict(small, small.Keys - todo) == small;
  }

  // -------------------------------------------------------------------------
  // The hashing embedder

  /** The leading four bytes of a token's digest as a number, and its fifth byte. */
  datatype Digest = Digest(prefix: nat, fifth: nat)

  datatype Embedder = Embedder(dimensions: nat, digest: string -> Digest, sqrt: real -> real)
  {
    ghost predicate Valid() {
      dimensions > 0 && forall x: real :: x >= 0.0 ==> sqrt(x) >= 0.0 && Square(sqrt(x)) == x
    }

    function Index(token: string): nat
      requires dimensions > 0
    {
      digest(token).prefix % dimensions
    }

    function Sign(token: string): real { if digest(token).fifth % 2 == 1 then 1.0 else -1.0 }
  }

  /** The signed number of tokens that hash to coordinate i. */
  function Net(e: Embedder, tokens: seq<string>, i: nat): real
    requires e.dimensions > 0
  {
    if tokens == [] then 0.0
    else
      var token := tokens[|tokens| - 1];
      Net(e, tokens[..|tokens| - 1], i) + if e.Index(token) == i then e.Sign(token) else 0.0
  }

  /** The coordinates that some token hashes to; their net count may still be 0. */
  function Touched(e: Embedder, tokens: seq<string>): set<nat>
    requires e.dimensions > 0
  {
    set token | token in tokens :: e.Index(token)
  }

  function Counts(e: Embedder, tokens: seq<string>): Vector
    requires e.dimensions > 0
  {
    map i | i in Touched(e, tokens) :: Net(e, tokens, i)
  }

  function Scale(v: Vector, norm: real): Vector
    requires norm != 0.0
  {
    map i | i in v :: v[i] / norm
  }

  /** The embedding of a list of tokens: the counts, scaled to length one. */
  ghost function EmbeddingOf(e: Embedder, tokens: seq<string>): Vector
    requires e.Valid()
  {
    var counts := Counts(e, tokens);
    var norm := e.sqrt(Score(counts, counts));
    if norm == 0.0 then map[] else Scale(counts, norm)
  }

  /** The token hashes to coordinate i, with an odd or an even byte deciding its sign. */
  predicate Hashes(e: Embedder, token: string, i: nat, odd: bool)
    requires e.dimensions > 0
  {
    e.digest(token).prefix % e.dimensions == i && (e.digest(token).fifth % 2 == 1) == odd
  }

  ghost function PlacesAt(e: Embedder, tokens: seq<string>, i: nat, odd: bool): set<nat>
    requires e.dimensions > 0
  {
    set k: nat | k < |tokens| && Hashes(e, tokens[k], i, odd)
  }

  lemma PlacesGrow(e: Embedder, tokens: seq<string>, i: nat, odd: bool)
    requires e.dimensions > 0 && tokens != []
    ensures var before, token := tokens[..|tokens| - 1], tokens[|tokens| - 1];
      |PlacesAt(e, tokens, i, odd)| == |PlacesAt(e, before, i, odd)| + if Hashes(e, token, i, odd) then 1 else 0
  {
    hide Hashes;
    var before, token, n := tokens[..|tokens| - 1], tokens[|tokens| - 1], |tokens| - 1;
    assert PlacesAt(e, tokens, i, odd) == PlacesAt(e, before, i, odd) + if Hashes(e, token, i, odd) then {n} else {};
    assert n !in PlacesAt(e, before, i, odd);
  }

  /** The net count of a coordinate: its tokens with an odd byte less those with an even one. */
  lemma {:induction false} NetInPlaces(e: Embedder, tokens: seq<string>, i: nat)
    requires e.dimensions > 0
    ensures Net(e, tokens, i) == |PlacesAt(e, tokens, i, true)| as real - |PlacesAt(e, tokens, i, false)| as real
  {
    if tokens == [] {
      assert PlacesAt(e, tokens, i, true) == {} && PlacesAt(e, tokens, i, false) == {};
    } else {
      NetInPlaces(e, tokens[..|tokens| - 1], i);
      PlacesGrow(e, tokens, i, true);
      PlacesGrow(e, tokens, i, false);
      hide PlacesAt;
    }
  }

  lemma TouchedSnoc(e: Embedder, tokens: seq<string>, token: string)
    requires e.dimensions > 0
    ensures Touched(e, tokens + [token]) == Touched(e, tokens) + {e.Index(token)}
    ensures forall i :: Net(e, tokens + [token], i) ==
                        Net(e, tokens, i) + if e.Index(token) == i then e.Sign(token) else 0.0
  {
    var all := tokens + [token];
    assert all[..|tokens|] == tokens;
    forall i | i in Touched(e, tokens) + {e.Index(token)} ensures i in Touched(e, all) {
      if i in Touched(e, tokens) {
        var t :| t in tokens && e.Index(t) == i;
        assert t in all;
      } else {
        assert all[|tokens|] == token;
      }
    }
  }

  lemma {:induction false} UntouchedNetsZero(e: Embedder, tokens: seq<string>, i: nat)
    requires e.dimensions > 0 && i !in Touched(e, tokens)
    ensures Net(e, tokens, i) == 0.0
  {
    if tokens != [] {
      var before, token := tokens[..|tokens| - 1], tokens[|tokens| - 1];
      assert tokens == before + [token];
      TouchedSnoc(e, before, token);
      UntouchedNetsZero(e, before, i);
    }
  }

  lemma CountsSnoc(e: Embedder, tokens: seq<string>, token: string)
    requires e.dimensions > 0
    ensures var counts, i := Counts(e, tokens), e.Index(token);
      Counts(e, tokens + [token]) == counts[i := Coord(counts, i) + e.Sign(token)]
  {
    TouchedSnoc(e, tokens, token);
    if e.Index(token) !in Touched(e, tokens) { UntouchedNetsZero(e, tokens, e.Index(token)); }
    hide Net;
    hide Touched;
  }

  method Embed(e: Embedder, tokens: seq<string>) returns (vector: Vector)
    requires e.Valid()
    ensures vector == EmbeddingOf(e, tokens)
  {
    var counts: Vector := map[];
    assert counts == Counts(e, tokens[..0]);
    hide Counts;
    var k := 0;
    while k < |tokens|
      invariant 0 <= k <= |tokens|
      invariant counts == Counts(e, tokens[..k])
    {
      var token := tokens[k];
      CountsSnoc(e, tokens[..k], token);
      assert tokens[..k + 1] == tokens[..k] + [token];
      counts := counts[e.Index(token) := Coord(counts, e.Index(token)) + e.Sign(token)];
      k := k + 1;
    }
    assert tokens[..k] == tokens;
    var squares := SumOfSquares(counts);
    var norm := e.sqrt(squares);
    if norm == 0.0 {
      return map[];
    }
    vector := Scale(counts, norm);
  }

  method SumOfSquares(v: Vector) returns (sum: real)
    ensures sum == Score(v, v)
  {
    sum := 0.0;
    var todo := v.Keys;
    ghost var n := Width(v.Keys + v.Keys);
    assert Below(v.Keys, n);
    DotBeyond(Restrict(v, {}), v, 0, n);
    assert v.Keys - todo == {};
    while todo != {}
      invariant todo <= v.Keys
      invariant sum == Dot(Restrict(v, v.Keys - todo), v, n)
    {
      var index :| index in todo;
      DotAddsKey(v, v.Keys - todo, index, v, n);
      assert v.Keys - todo + {index} == v.Keys - (todo - {index});
      sum := sum + v[index] * v[index];
      todo := todo - {index};
    }
    assert Restrict(v, v.Keys - todo) == v;
  }

  // -------------------------------------------------------------------------
  // What the score means

  lemma {:induction false} DotOfSelfIsSquareSum(v: Vector, n: nat)
    ensures Dot(v, v, n) >= 0.0
  {
    if n > 0 {
      DotOfSelfIsSquareSum(v, n - 1);
      SquareIsPositive(Coord(v, n - 1));
    }
  }

  lemma {:induction false} DotScales(v: Vector, norm: real, n: nat)
    requires norm > 0.0
    ensures Times(Dot(Scale(v, norm), Scale(v, norm), n), Square(norm)) == Dot(v, v, n)
  {
    if n > 0 {
      DotScales(v, norm, n - 1);
      SquareScales(Coord(v, n - 1), norm);
      var s := Coord(Scale(v, norm), n - 1);
      assert s == Coord(v, n - 1) / norm;
      Distribute(Dot(Scale(v, norm), Scale(v, norm), n - 1), Square(s), Square(norm));
    }
  }

  lemma Distribute(a: real, b: real, c: real)
    ensures Times(a + b, c) == Times(a, c) + Times(b, c)
  {}

  lemma SquareScales(x: real, norm: real)
    requires norm > 0.0
    ensures Times(Square(x / norm), Square(norm)) == Square(x)
  {
    var q := x / norm;
    assert q * norm == x;
    assert q * q * (norm * norm) == (q * norm) * (q * norm);
  }

  lemma RootFacts(e: Embedder, x: real)
    requires e.Valid() && x >= 0.0
    ensures e.sqrt(x) >= 0.0 && Square(e.sqrt(x)) == x
    ensures e.sqrt(x) == 0.0 <==> x == 0.0
  {
    SquareIsPositive(e.sqrt(x));
  }

  lemma ScoreOfSelf(v: Vector)
    ensures Score(v, v) >= 0.0
    ensures Score(v, v) == 0.0 <==> forall i: nat :: Coord(v, i) == 0.0
  {
    var n := Width(v.Keys);
    ScoreIsDot(v, v, n);
    DotOfSelfIsSquareSum(v, n);
    DotOfSelfIsZero(v, n);
    if forall i: nat :: i < n ==> Coord(v, i) == 0.0 {
      forall i: nat ensures Coord(v, i) == 0.0 {}
    }
  }

  lemma ScaledIsUnit(v: Vector, norm: real)
    requires norm > 0.0 && Square(norm) == Score(v, v)
    ensures Score(Scale(v, norm), Scale(v, norm)) == 1.0
  {
    var n := Width(v.Keys);
    var unit := Scale(v, norm);
    assert unit.Keys == v.Keys;
    ScoreIsDot(v, v, n);
    ScoreIsDot(unit, unit, n);
    DotScales(v, norm, n);
    PositiveSquare(norm);
    hide Times;
    CancelFactor(Score(unit, unit), Square(norm));
  }

  lemma CancelFactor(x: real, y: real)
    requires Times(x, y) == y && y != 0.0
    ensures x == 1.0
  {
    assert (x - 1.0) * y == 0.0;
  }

  /** Every embedding is empty or has length exactly one. */
  lemma EmbeddingIsUnit(e: Embedder, tokens: seq<string>)
    requires e.Valid()
    ensures UnitOrEmpty(EmbeddingOf(e, tokens))
  {
    var counts := Counts(e, tokens);
    ScoreOfSelf(counts);
    RootFacts(e, Score(counts, counts));
    var norm := e.sqrt(Score(counts, counts));
    if norm != 0.0 { ScaledIsUnit(counts, norm); }
  }

  lemma CountsAreNet(e: Embedder, tokens: seq<string>, i: nat)
    requires e.dimensions > 0
    ensures Coord(Counts(e, tokens), i) == Net(e, tokens, i)
  {
    if i !in Touched(e, tokens) { UntouchedNetsZero(e, tokens, i); }
  }

  /** It is empty exactly when the signed counts all cancel. */
  lemma EmbeddingEmptyIffCancelled(e: Embedder, tokens: seq<string>)
    requires e.Valid()
    ensures EmbeddingOf(e, tokens) == map[] <==> forall i: nat :: Net(e, tokens, i) == 0.0
  {
    hide Square;
    hide Score;
    hide Net;
    hide Counts;
    hide Scale;
    var counts := Counts(e, tokens);
    ScoreOfSelf(counts);
    RootFacts(e, Score(counts, counts));
    forall i: nat ensures Coord(counts, i) == Net(e, tokens, i) { CountsAreNet(e, tokens, i); }
    var norm := e.sqrt(Score(counts, counts));
    if norm != 0.0 {
      ScaleKeepsKeys(counts, norm);
      var i: nat :| Coord(counts, i) != 0.0;
      assert Net(e, tokens, i) != 0.0;
    }
  }

  /** An embedding is in proportion to the numbers of tokens that hash to each coordinate, counted by sign. */
  lemma EmbeddingInCounts(e: Embedder, tokens: seq<string>) returns (norm: real)
    requires e.Valid() && EmbeddingOf(e, tokens) != map[]
    ensures norm > 0.0
    ensures forall i: nat :: Times(Coord(EmbeddingOf(e, tokens), i), norm)
              == |PlacesAt(e, tokens, i, true)| as real - |PlacesAt(e, tokens, i, false)| as real
  {
    var counts := Counts(e, tokens);
    ScoreOfSelf(counts);
    RootFacts(e, Score(counts, counts));
    norm := e.sqrt(Score(counts, counts));
    hide Counts;
    hide PlacesAt;
    hide Score;
    hide Net;
    forall i: nat
      ensures Times(Coord(EmbeddingOf(e, tokens), i), norm)
              == |PlacesAt(e, tokens, i, true)| as real - |PlacesAt(e, tokens, i, false)| as real
    {
      CountsAreNet(e, tokens, i);
      NetInPlaces(e, tokens, i);
      ScaledBack(counts, norm, i);
    }
  }

  lemma ScaledBack(v: Vector, norm: real, i: nat)
    requires norm != 0.0
    ensures Times(Coord(Scale(v, norm), i), norm) == Coord(v, i)
  {
    if i in v { assert v[i] / norm * norm == v[i]; }
  }

  lemma ScaleKeepsKeys(v: Vector, norm: real)
    requires norm != 0.0
    ensures Scale(v, norm) == map[] <==> v == map[]
    ensures v == map[] ==> forall i: nat :: Coord(v, i) == 0.0
  {
    assert Scale(v, norm).Keys == v.Keys;
  }

  lemma {:induction false} DotOfSelfIsZero(v: Vector, n: nat)
    ensures Dot(v, v, n) == 0.0 <==> forall i: nat :: i < n ==> Coord(v, i) == 0.0
  {
    if n > 0 {
      DotOfSelfIsZero(v, n - 1);
      DotOfSelfIsSquareSum(v, n - 1);
      SquareIsPositive(Coord(v, n - 1));
    }
  }

  /** Twice a product is at most the sum of the squares, over all coordinates. */
  lemma {:induction false} DotBetweenSquares(a: Vector, b: Vector, n: nat)
    ensures -(Dot(a, a, n) + Dot(b, b, n)) <= 2.0 * Dot(a, b, n) <= Dot(a, a, n) + Dot(b, b, n)
  {
    hide Times;
    if n > 0 {
      DotBetweenSquares(a, b, n - 1);
      ProductBetweenSquares(Coord(a, n - 1), Coord(b, n - 1));
    }
  }

  lemma ProductBetweenSquares(x: real, y: real)
    ensures -(Times(x, x) + Times(y, y)) <= 2.0 * Times(x, y) <= Times(x, x) + Times(y, y)
  {
    SquareOfSum(x, y);
    SquareOfDifference(x, y);
    SquareIsPositive(x - y);
    SquareIsPositive(x + y);
    hide Times;
  }

  lemma SquareOfSum(x: real, y: real)
    ensures Square(x + y) == Times(x, x) + 2.0 * Times(x, y) + Times(y, y)
  {}

  lemma SquareOfDifference(x: real, y: real)
    ensures Square(x - y) == Times(x, x) - 2.0 * Times(x, y) + Times(y, y)
  {}

  lemma SquareIsPositive(x: real)
    ensures Square(x) >= 0.0 && (Square(x) == 0.0 <==> x == 0.0)
  {
    if x > 0.0 {
      PositiveSquare(x);
    } else if x < 0.0 {
      PositiveSquare(-x);
      NegatedSquare(x);
    }
  }

  lemma NegatedSquare(x: real)
    ensures Square(-x) == Square(x)
  {}

  lemma PositiveSquare(x: real)
    requires x > 0.0
    ensures Square(x) > 0.0
  {
    PositiveProduct(x, x);
  }

  lemma PositiveProduct(x: real, y: real)
    requires x > 0.0 && y > 0.0
    ensures Times(x, y) > 0.0
  {}

  ghost predicate UnitOrEmpty(v: Vector) { v == map[] || Score(v, v) == 1.0 }

  /** Scores of embeddings lie in [-1, 1]. */
  lemma ScoreInRange(a: Vector, b: Vector)
    requires UnitOrEmpty(a) && UnitOrEmpty(b)
    ensures -1.0 <= Score(a, b) <= 1.0
  {
    var n := Width(a.Keys + b.Keys);
    assert Below(a.Keys, n) && Below(b.Keys, n);
    if a == map[] || b == map[] {
      ScoreIsDot(a, b, 0);
    } else {
      ScoreIsDot(a, a, n);
      ScoreIsDot(b, b, n);
      DotBetweenSquares(a, b, n);
    }
  }

  // -------------------------------------------------------------------------
  // A bag of words

  lemma {:induction false} NetConcat(e: Embedder, a: seq<string>, b: seq<string>, i: nat)
    requires e.dimensions > 0
    ensures Net(e, a + b, i) == Net(e, a, i) + Net(e, b, i)
  {
    if b == [] {
      assert a + b == a;
    } else {
      var before := b[..|b| - 1];
      assert (a + b)[..|a + b| - 1] == a + before;
      NetConcat(e, a, before, i);
    }
  }

  lemma {:induction false} NetForgetsOrder(e: Embedder, a: seq<string>, b: seq<string>, i: nat)
    requires e.dimensions > 0 && multiset(a) == multiset(b)
    ensures Net(e, a, i) == Net(e, b, i)
    decreases |a|
  {
    assert |multiset(a)| == |multiset(b)|;
    if a != [] {
      var before, token := a[..|a| - 1], a[|a| - 1];
      assert a == before + [token];
      assert token in multiset(b);
      var k :| 0 <= k < |b| && b[k] == token;
      assert b == b[..k] + [token] + b[k + 1..];
      var rest := b[..k] + b[k + 1..];
      assert multiset(b) == multiset(b[..k]) + multiset{token} + multiset(b[k + 1..]);
      assert multiset(a) == multiset(before) + multiset{token};
      assert multiset(rest) == multiset(b) - multiset{token};
      assert multiset(before) == multiset(a) - multiset{token};
      NetForgetsOrder(e, before, rest, i);
      NetConcat(e, b[..k], [token], i);
      NetConcat(e, b[..k] + [token], b[k + 1..], i);
      NetConcat(e, b[..k], b[k + 1..], i);
      NetConcat(e, before, [token], i);
    }
  }

  /** Two texts with the same words, in any order, have the same embedding. */
  lemma EmbeddingForgetsOrder(e: Embedder, a: seq<string>, b: seq<string>)
    requires e.Valid() && multiset(a) == multiset(b)
    ensures EmbeddingOf(e, a) == EmbeddingOf(e, b)
  {
    assert forall token :: token in a <==> token in multiset(a);
    assert forall token :: token in b <==> token in multiset(b);
    assert Touched(e, a) == Touched(e, b);
    forall i ensures Net(e, a, i) == Net(e, b, i) { NetForgetsOrder(e, a, b, i); }
    assert Counts(e, a) == Counts(e, b);
  }
}
