/** What a stable library sort does: insertion from the left, later elements after
    equal earlier ones. */
module StableSort {
  import opened Basics

  ghost predicate TotalPreorder<T(!new)>(leq: (T, T) -> bool) {
    && (forall a, b :: leq(a, b) || leq(b, a))
    && (forall a, b, c :: leq(a, b) && leq(b, c) ==> leq(a, c))
  }

  ghost predicate Ordered<T>(s: seq<T>, leq: (T, T) -> bool) {
    forall i, j :: 0 <= i < j < |s| ==> leq(s[i], s[j])
  }

  /** `x` goes behind the last element that may come before it. */
  function Insert<T>(s: seq<T>, x: T, leq: (T, T) -> bool): seq<T> {
    if s == [] || leq(s[|s| - 1], x) then s + [x]
    else Insert(s[..|s| - 1], x, leq) + [s[|s| - 1]]
  }

  function Sort<T>(s: seq<T>, leq: (T, T) -> bool): seq<T>
  {
    if s == [] then [] else Insert(Sort(s[..|s| - 1], leq), s[|s| - 1], leq)
  }

  lemma {:induction false} InsertKeeps<T>(s: seq<T>, x: T, leq: (T, T) -> bool)
    ensures multiset(Insert(s, x, leq)) == multiset(s) + multiset{x}
  {
    if !(s == [] || leq(s[|s| - 1], x)) {
      InsertKeeps(s[..|s| - 1], x, leq);
      assert s == s[..|s| - 1] + [s[|s| - 1]];
    }
  }

  lemma {:induction false} InsertOrders<T(!new)>(s: seq<T>, x: T, leq: (T, T) -> bool)
    requires TotalPreorder(leq) && Ordered(s, leq)
    ensures Ordered(Insert(s, x, leq), leq)
  {
    if !(s == [] || leq(s[|s| - 1], x)) {
      var n := |s| - 1;
      InsertOrders(s[..n], x, leq);
      InsertKeeps(s[..n], x, leq);
      var r := Insert(s[..n], x, leq);
      forall i | 0 <= i < |r|
        ensures leq(r[i], s[n])
      {
        assert r[i] in multiset(r);
        assert r[i] == x || r[i] in s[..n];
      }
    }
  }

  lemma {:induction false} SortKeeps<T>(s: seq<T>, leq: (T, T) -> bool)
    ensures multiset(Sort(s, leq)) == multiset(s)
    ensures |Sort(s, leq)| == |s|
  {
    if s != [] {
      var n := |s| - 1;
      SortKeeps(s[..n], leq);
      InsertKeeps(Sort(s[..n], leq), s[n], leq);
      LastOut(s);
      InsertGrows(Sort(s[..n], leq), s[n], leq);
    }
  }

  lemma {:induction false} InsertGrows<T>(s: seq<T>, x: T, leq: (T, T) -> bool)
    ensures |Insert(s, x, leq)| == |s| + 1
  {
    if !(s == [] || leq(s[|s| - 1], x)) {
      InsertGrows(s[..|s| - 1], x, leq);
    }
  }

  /** The result is an ordered permutation. */
  lemma {:induction false} SortOrders<T(!new)>(s: seq<T>, leq: (T, T) -> bool)
    requires TotalPreorder(leq)
    ensures Ordered(Sort(s, leq), leq) && multiset(Sort(s, leq)) == multiset(s)
  {
    SortKeeps(s, leq);
    if s != [] {
      var n := |s| - 1;
      SortOrders(s[..n], leq);
      InsertOrders(Sort(s[..n], leq), s[n], leq);
    }
  }

  function Filter<T>(s: seq<T>, p: T -> bool): seq<T> {
    if s == [] then []
    else
      var n := |s| - 1;
      if p(s[n]) then Filter(s[..n], p) + [s[n]] else Filter(s[..n], p)
  }

  lemma {:induction false} InsertIsStable<T(!new)>(s: seq<T>, x: T, leq: (T, T) -> bool, p: T -> bool)
    requires forall a, b :: p(a) && p(b) ==> leq(a, b)
    ensures Filter(Insert(s, x, leq), p) == Filter(s + [x], p)
  {
    var n := |s| - 1;
    assert (s + [x])[..|s|] == s;
    if !(s == [] || leq(s[n], x)) {
      InsertIsStable(s[..n], x, leq, p);
      assert (s[..n] + [x])[..n] == s[..n];
      assert (Insert(s[..n], x, leq) + [s[n]])[..|Insert(s[..n], x, leq)|] == Insert(s[..n], x, leq);
    }
  }

  /** Elements that tie keep the order they came in. */
  lemma {:induction false} SortIsStable<T(!new)>(s: seq<T>, leq: (T, T) -> bool, p: T -> bool)
    requires forall a, b :: p(a) && p(b) ==> leq(a, b)
    ensures Filter(Sort(s, leq), p) == Filter(s, p)
  {
    if s != [] {
      var n := |s| - 1;
      SortIsStable(s[..n], leq, p);
      InsertIsStable(Sort(s[..n], leq), s[n], leq, p);
      var sorted := Sort(s[..n], leq);
      assert (sorted + [s[n]])[..|sorted|] == sorted;
    }
  }

  // ---- the order of strings ----

  predicate LexLeq(a: string, b: string) {
    if a == [] then true
    else if b == [] then false
    else a[0] < b[0] || (a[0] == b[0] && LexLeq(a[1..], b[1..]))
  }

  lemma {:induction false} LexTotal(a: string, b: string)
    ensures LexLeq(a, b) || LexLeq(b, a)
    ensures LexLeq(a, b) && LexLeq(b, a) ==> a == b
  {
    if a != [] && b != [] && a[0] == b[0] {
      LexTotal(a[1..], b[1..]);
      assert a == [a[0]] + a[1..] && b == [b[0]] + b[1..];
    }
  }

  lemma {:induction false} LexTransitive(a: string, b: string, c: string)
    requires LexLeq(a, b) && LexLeq(b, c)
    ensures LexLeq(a, c)
  {
    if a != [] && b != [] && c != [] && a[0] == b[0] == c[0] {
      LexTransitive(a[1..], b[1..], c[1..]);
    }
  }
}
