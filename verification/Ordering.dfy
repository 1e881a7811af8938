/**
  Sorting by a total preorder, and the fact that makes a sort independent of
  the order of its input: a sorted arrangement of given elements is unique.
*/
module Ordering {
  import opened Domain

  ghost predicate TotalPreorder<T(!new)>(leq: (T, T) -> bool) {
    && (forall x, y :: leq(x, y) || leq(y, x))
    && (forall x, y, z :: leq(x, y) && leq(y, z) ==> leq(x, z))
  }

  ghost predicate Antisymmetric<T>(leq: (T, T) -> bool, s: seq<T>) {
    forall i, j :: 0 <= i < |s| && 0 <= j < |s| && leq(s[i], s[j]) && leq(s[j], s[i]) ==> s[i] == s[j]
  }

  ghost predicate Sorted<T>(leq: (T, T) -> bool, s: seq<T>) {
    forall i, j :: 0 <= i < j < |s| ==> leq(s[i], s[j])
  }

  function Insert<T>(leq: (T, T) -> bool, x: T, s: seq<T>): seq<T> {
    if s == [] then [x]
    else if leq(x, s[0]) then [x] + s
    else [s[0]] + Insert(leq, x, s[1..])
  }

  /** The library sort: its result is pinned down by SortSorts and SortedUnique. */
  function Sort<T>(leq: (T, T) -> bool, s: seq<T>): seq<T> {
    if s == [] then [] else Insert(leq, s[0], Sort(leq, s[1..]))
  }

  lemma {:induction false} InsertAdds<T>(leq: (T, T) -> bool, x: T, s: seq<T>)
    ensures multiset(Insert(leq, x, s)) == multiset(s) + multiset{x}
  {
    if s != [] && !leq(x, s[0]) {
      InsertAdds(leq, x, s[1..]);
      assert s == [s[0]] + s[1..];
    }
  }

  lemma {:induction false} InsertSorts<T(!new)>(leq: (T, T) -> bool, x: T, s: seq<T>)
    requires TotalPreorder(leq) && Sorted(leq, s)
    ensures Sorted(leq, Insert(leq, x, s))
  {
    if s == [] {
    } else if leq(x, s[0]) {
      forall j | 0 <= j < |s| ensures leq(x, s[j]) {
        assert j == 0 || leq(s[0], s[j]);
      }
    } else {
      var rest := Insert(leq, x, s[1..]);
      InsertSorts(leq, x, s[1..]);
      InsertAdds(leq, x, s[1..]);
      forall j | 0 <= j < |rest| ensures leq(s[0], rest[j]) {
        assert rest[j] in multiset(rest);
        assert rest[j] == x || rest[j] in s[1..];
      }
    }
  }

  lemma {:induction false} SortSorts<T(!new)>(leq: (T, T) -> bool, s: seq<T>)
    requires TotalPreorder(leq)
    ensures Sorted(leq, Sort(leq, s))
    ensures multiset(Sort(leq, s)) == multiset(s)
    ensures |Sort(leq, s)| == |s|
  {
    if s != [] {
      SortSorts(leq, s[1..]);
      InsertSorts(leq, s[0], Sort(leq, s[1..]));
      InsertAdds(leq, s[0], Sort(leq, s[1..]));
      assert s == [s[0]] + s[1..];
    }
    assert |multiset(Sort(leq, s))| == |multiset(s)|;
  }

  lemma SortedHeads<T(!new)>(leq: (T, T) -> bool, a: seq<T>, b: seq<T>)
    requires TotalPreorder(leq) && Antisymmetric(leq, a)
    requires Sorted(leq, a) && Sorted(leq, b)
    requires multiset(a) == multiset(b) && a != [] && b != []
    ensures a[0] == b[0]
  {
    assert a[0] in multiset(b) && b[0] in multiset(a);
    var i :| 0 <= i < |b| && b[i] == a[0];
    var j :| 0 <= j < |a| && a[j] == b[0];
    assert leq(a[0], a[0]) && leq(b[0], b[0]);
    assert leq(a[0], a[j]) && leq(b[0], b[i]);
  }

  lemma DropHead<T>(s: seq<T>)
    requires s != []
    ensures multiset(s[1..]) == multiset(s) - multiset{s[0]}
  {
    assert s == [s[0]] + s[1..];
  }

  /** Two sorted arrangements of the same elements are the same sequence. */
  lemma {:induction false} SortedUnique<T(!new)>(leq: (T, T) -> bool, a: seq<T>, b: seq<T>)
    requires TotalPreorder(leq) && Antisymmetric(leq, a)
    requires Sorted(leq, a) && Sorted(leq, b)
    requires multiset(a) == multiset(b)
    ensures a == b
  {
    assert |multiset(a)| == |multiset(b)|;
    if a != [] {
      SortedHeads(leq, a, b);
      DropHead(a);
      DropHead(b);
      SortedUnique(leq, a[1..], b[1..]);
      assert a == [a[0]] + a[1..] && b == [b[0]] + b[1..];
    }
  }

  /** Sorting forgets the order of its input. */
  lemma SortForgetsOrder<T(!new)>(leq: (T, T) -> bool, a: seq<T>, b: seq<T>)
    requires TotalPreorder(leq) && Antisymmetric(leq, a)
    requires multiset(a) == multiset(b)
    ensures Sort(leq, a) == Sort(leq, b)
  {
    SortSorts(leq, a);
    SortSorts(leq, b);
    var sa := Sort(leq, a);
    forall i, j | 0 <= i < |sa| && 0 <= j < |sa| && leq(sa[i], sa[j]) && leq(sa[j], sa[i])
      ensures sa[i] == sa[j]
    {
      assert sa[i] in multiset(a) && sa[j] in multiset(a);
      var k :| 0 <= k < |a| && a[k] == sa[i];
      var l :| 0 <= l < |a| && a[l] == sa[j];
    }
    SortedUnique(leq, sa, Sort(leq, b));
  }

  /** Code-point order on strings, the order that Python gives to `str`. */
  predicate StringLeq(a: string, b: string) {
    a == "" || (b != "" && (a[0] < b[0] || (a[0] == b[0] && StringLeq(a[1..], b[1..]))))
  }

  lemma {:induction false} StringLeqTotal(a: string, b: string)
    ensures StringLeq(a, b) || StringLeq(b, a)
  {
    if a != "" && b != "" { StringLeqTotal(a[1..], b[1..]); }
  }

  lemma {:induction false} StringLeqTransitive(a: string, b: string, c: string)
    requires StringLeq(a, b) && StringLeq(b, c)
    ensures StringLeq(a, c)
  {
    if a != "" && b != "" && c != "" && a[0] == b[0] == c[0] {
      StringLeqTransitive(a[1..], b[1..], c[1..]);
    }
  }

  lemma {:induction false} StringLeqAntisymmetric(a: string, b: string)
    requires StringLeq(a, b) && StringLeq(b, a)
    ensures a == b
  {
    if a != "" && b != "" {
      StringLeqAntisymmetric(a[1..], b[1..]);
      assert a == [a[0]] + a[1..] && b == [b[0]] + b[1..];
    }
  }

  /** The strings first differ at place k, and a is smaller there. */
  predicate SmallerAt(a: string, b: string, k: int) {
    0 <= k < |a| && k < |b| && a[..k] == b[..k] && a[k] < b[k]
  }

  ghost predicate Smaller(a: string, b: string) { exists k :: SmallerAt(a, b, k) }

  lemma SmallerCons(a: string, b: string)
    requires a != "" && b != ""
    ensures Smaller(a, b) <==> a[0] < b[0] || (a[0] == b[0] && Smaller(a[1..], b[1..]))
  {
    var x, y := a[1..], b[1..];
    assert a == [a[0]] + x && b == [b[0]] + y;
    if a[0] < b[0] { assert SmallerAt(a, b, 0); }
    if k :| SmallerAt(x, y, k) && a[0] == b[0] {
      assert a[..k + 1] == [a[0]] + x[..k] && b[..k + 1] == [b[0]] + y[..k];
      assert SmallerAt(a, b, k + 1);
    }
    if k :| SmallerAt(a, b, k) && k > 0 {
      assert a[..k][0] == b[..k][0];
      assert x[..k - 1] == a[..k][1..] && y[..k - 1] == b[..k][1..];
      assert SmallerAt(x, y, k - 1);
    }
  }

  /** a is a prefix of b, or smaller at the first place where they differ. */
  lemma {:induction false} StringLeqIsLexicographic(a: string, b: string)
    ensures StringLeq(a, b) <==> a <= b || Smaller(a, b)
  {
    if a != "" && b != "" {
      StringLeqIsLexicographic(a[1..], b[1..]);
      SmallerCons(a, b);
      assert a == [a[0]] + a[1..] && b == [b[0]] + b[1..];
    }
    hide Smaller;
  }

  predicate RealLeq(a: real, b: real) { a <= b }

  /** The defined values of f over a sequence, in order. */
  function Collect<T, U>(f: T -> Option<U>, s: seq<T>): seq<U> {
    if s == [] then []
    else
      var x := f(s[|s| - 1]);
      Collect(f, s[..|s| - 1]) + if x.Some? then [x.value] else []
  }

  lemma {:induction false} CollectMembers<T, U>(f: T -> Option<U>, s: seq<T>, y: U)
    ensures y in Collect(f, s) <==> exists x :: x in s && f(x) == Some(y)
  {
    if s != [] {
      var before, last := s[..|s| - 1], s[|s| - 1];
      assert s == before + [last];
      CollectMembers(f, before, y);
    }
  }

  lemma {:induction false} CollectConcat<T, U>(f: T -> Option<U>, a: seq<T>, b: seq<T>)
    ensures Collect(f, a + b) == Collect(f, a) + Collect(f, b)
  {
    if b == [] {
      assert a + b == a;
    } else {
      assert (a + b)[..|a + b| - 1] == a + b[..|b| - 1];
      CollectConcat(f, a, b[..|b| - 1]);
    }
  }

  lemma RemoveAt<T>(s: seq<T>, k: nat)
    requires k < |s|
    ensures s == s[..k] + [s[k]] + s[k + 1..]
    ensures multiset(s[..k] + s[k + 1..]) == multiset(s) - multiset{s[k]}
  {
    assert s == s[..k] + [s[k]] + s[k + 1..];
  }

  lemma CollectRemoves<T, U>(f: T -> Option<U>, s: seq<T>, k: nat)
    requires k < |s|
    ensures multiset(Collect(f, s)) ==
            multiset(Collect(f, s[..k] + s[k + 1..])) + (if f(s[k]).Some? then multiset{f(s[k]).value} else multiset{})
  {
    RemoveAt(s, k);
    CollectConcat(f, s[..k], s[k + 1..]);
    CollectConcat(f, s[..k] + [s[k]], s[k + 1..]);
    CollectConcat(f, s[..k], [s[k]]);
    assert [s[k]][..0] == [];
    assert Collect(f, [s[k]]) == if f(s[k]).Some? then [f(s[k]).value] else [];
  }

  /** Collecting gives the same elements whatever the order of the input. */
  lemma {:induction false} CollectForgetsOrder<T, U>(f: T -> Option<U>, a: seq<T>, b: seq<T>)
    requires multiset(a) == multiset(b)
    ensures multiset(Collect(f, a)) == multiset(Collect(f, b))
    decreases |a|
  {
    assert |multiset(a)| == |multiset(b)|;
    if a != [] {
      assert a[0] in multiset(b);
      var k :| 0 <= k < |b| && b[k] == a[0];
      RemoveAt(a, 0);
      RemoveAt(b, k);
      assert a[..0] + a[1..] == a[1..];
      CollectRemoves(f, a, 0);
      CollectRemoves(f, b, k);
      CollectForgetsOrder(f, a[1..], b[..k] + b[k + 1..]);
    }
  }

  function MoveToFront<T>(s: seq<T>, k: nat): seq<T>
    requires k < |s|
  {
    [s[k]] + (s[..k] + s[k + 1..])
  }

  lemma MoveToFrontPermutes<T>(s: seq<T>, k: nat)
    requires k < |s|
    ensures multiset(MoveToFront(s, k)) == multiset(s)
    ensures |MoveToFront(s, k)| == |s|
  {
    RemoveAt(s, k);
  }

  lemma MoveToFrontKeepsRest<T(!new)>(leq: (T, T) -> bool, s: seq<T>, k: nat)
    requires k < |s| && Sorted(leq, s)
    ensures Sorted(leq, MoveToFront(s, k)[1..])
  {
    var rest := s[..k] + s[k + 1..];
    assert MoveToFront(s, k)[1..] == rest;
    forall i, j | 0 <= i < j < |rest| ensures leq(rest[i], rest[j]) {
      assert rest[i] == s[if i < k then i else i + 1];
      assert rest[j] == s[if j < k then j else j + 1];
    }
  }
}
