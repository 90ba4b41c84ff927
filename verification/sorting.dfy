/**
 Lists: stable sorting by a total preorder, as Python's `sorted`, JavaScript's `sort` and ORDER BY on
 distinct keys do it, and how it goes together with filtering.
 */
module Sorting {

  ghost predicate TotalPreorder<T(!new)>(leq: (T, T) -> bool) {
    (forall a, b :: leq(a, b) || leq(b, a)) && (forall a, b, c :: leq(a, b) && leq(b, c) ==> leq(a, c))
  }

  ghost predicate SortedBy<T(!new)>(s: seq<T>, leq: (T, T) -> bool) {
    forall i, k :: 0 <= i < k < |s| ==> leq(s[i], s[k])
  }

  ghost predicate NoRepeats<T>(s: seq<T>) {
    forall i, k :: 0 <= i < k < |s| ==> s[i] != s[k]
  }

  /** x behind every element that may stand before it. */
  function Insert<T>(s: seq<T>, x: T, leq: (T, T) -> bool): seq<T> {
    if s == [] then [x]
    else if leq(s[|s| - 1], x) then s + [x]
    else Insert(s[..|s| - 1], x, leq) + [s[|s| - 1]]
  }

  function Sort<T>(s: seq<T>, leq: (T, T) -> bool): seq<T> {
    if s == [] then [] else Insert(Sort(s[..|s| - 1], leq), s[|s| - 1], leq)
  }

  function Filter<T>(s: seq<T>, p: T -> bool): seq<T> {
    if s == [] then []
    else Filter(s[..|s| - 1], p) + (if p(s[|s| - 1]) then [s[|s| - 1]] else [])
  }

  lemma {:induction false} InsertElements<T>(s: seq<T>, x: T, leq: (T, T) -> bool)
    ensures multiset(Insert(s, x, leq)) == multiset(s) + multiset{x}
  {
    if s == [] {
    } else {
      assert s == s[..|s| - 1] + [s[|s| - 1]];
      InsertElements(s[..|s| - 1], x, leq);
    }
  }

  lemma {:induction false} InsertSorts<T(!new)>(s: seq<T>, x: T, leq: (T, T) -> bool)
    requires TotalPreorder(leq) && SortedBy(s, leq)
    ensures SortedBy(Insert(s, x, leq), leq)
  {
    if s == [] {
    } else if leq(s[|s| - 1], x) {
      assert forall i :: 0 <= i < |s| - 1 ==> leq(s[i], s[|s| - 1]);
    } else {
      var init, last := s[..|s| - 1], s[|s| - 1];
      InsertSorts(init, x, leq);
      InsertElements(init, x, leq);
      var t := Insert(init, x, leq);
      forall i | 0 <= i < |t| ensures leq(t[i], last) {
        assert t[i] in multiset(t);
        assert t[i] in init || t[i] == x;
      }
    }
  }

  lemma {:induction false} SortSorts<T(!new)>(s: seq<T>, leq: (T, T) -> bool)
    requires TotalPreorder(leq)
    ensures SortedBy(Sort(s, leq), leq)
    ensures multiset(Sort(s, leq)) == multiset(s)
  {
    if s == [] {
    } else {
      assert s == s[..|s| - 1] + [s[|s| - 1]];
      SortSorts(s[..|s| - 1], leq);
      InsertSorts(Sort(s[..|s| - 1], leq), s[|s| - 1], leq);
      InsertElements(Sort(s[..|s| - 1], leq), s[|s| - 1], leq);
    }
  }

  lemma {:induction false} FilterConcat<T>(s: seq<T>, t: seq<T>, p: T -> bool)
    ensures Filter(s + t, p) == Filter(s, p) + Filter(t, p)
  {
    if t == [] {
      assert s + t == s;
      assert Filter(s, p) + [] == Filter(s, p);
    } else {
      var n := |t| - 1;
      FilterConcat(s, t[..n], p);
      assert s + t == s + t[..n] + [t[n]];
      var last := if p(t[n]) then [t[n]] else [];
      assert Filter(s, p) + Filter(t[..n], p) + last == Filter(s, p) + (Filter(t[..n], p) + last);
    }
  }

  lemma {:induction false} FilterCongruent<T>(s: seq<T>, p: T -> bool, q: T -> bool)
    requires forall i :: 0 <= i < |s| ==> p(s[i]) == q(s[i])
    ensures Filter(s, p) == Filter(s, q)
  {
    if s == [] {
    } else {
      FilterCongruent(s[..|s| - 1], p, q);
    }
  }

  lemma {:induction false} FilterNone<T>(s: seq<T>, p: T -> bool)
    requires forall i :: 0 <= i < |s| ==> !p(s[i])
    ensures Filter(s, p) == []
  {
    if s == [] {
    } else {
      FilterNone(s[..|s| - 1], p);
    }
  }

  lemma {:induction false} FilterMembers<T>(s: seq<T>, p: T -> bool)
    ensures forall x :: x in Filter(s, p) <==> x in s && p(x)
  {
    if s == [] {
    } else {
      assert s == s[..|s| - 1] + [s[|s| - 1]];
      FilterMembers(s[..|s| - 1], p);
    }
  }

  lemma {:induction false} FilterSorted<T(!new)>(s: seq<T>, p: T -> bool, leq: (T, T) -> bool)
    requires SortedBy(s, leq)
    ensures SortedBy(Filter(s, p), leq)
  {
    if s == [] {
    } else {
      var n := |s| - 1;
      FilterSorted(s[..n], p, leq);
      FilterMembers(s[..n], p);
      var f := Filter(s[..n], p);
      forall i | 0 <= i < |f| ensures leq(f[i], s[n]) {
        assert f[i] in s[..n];
      }
    }
  }

  lemma {:induction false} FilterIsBelow<T(!new)>(s: seq<T>, x: T, p: T -> bool, leq: (T, T) -> bool)
    requires TotalPreorder(leq) && SortedBy(s, leq) && s != [] && leq(s[|s| - 1], x)
    ensures Filter(s, p) != [] ==> leq(Filter(s, p)[|Filter(s, p)| - 1], x)
  {
    var f := Filter(s, p);
    FilterMembers(s, p);
    if f != [] {
      assert f[|f| - 1] in s;
      var i :| 0 <= i < |s| && s[i] == f[|f| - 1];
      assert leq(s[i], s[|s| - 1]) || i == |s| - 1;
    }
  }

  lemma {:induction false} FilterInsertBefore<T(!new)>(init: seq<T>, last: T, x: T, p: T -> bool, leq: (T, T) -> bool)
    requires !leq(last, x)
    requires Filter(Insert(init, x, leq), p) == if p(x) then Insert(Filter(init, p), x, leq) else Filter(init, p)
    ensures Filter(Insert(init + [last], x, leq), p)
         == if p(x) then Insert(Filter(init + [last], p), x, leq) else Filter(init + [last], p)
  {
    if p(last) {
    } else {
      assert Filter(init, p) + [] == Filter(init, p);
      assert Filter(Insert(init, x, leq), p) + [] == Filter(Insert(init, x, leq), p);
    }
  }

  lemma {:induction false} FilterInsert<T(!new)>(s: seq<T>, x: T, p: T -> bool, leq: (T, T) -> bool)
    requires TotalPreorder(leq) && SortedBy(s, leq)
    ensures Filter(Insert(s, x, leq), p) == if p(x) then Insert(Filter(s, p), x, leq) else Filter(s, p)
  {
    if s == [] {
      assert [] + [x] == [x];
    } else if leq(s[|s| - 1], x) {
      FilterIsBelow(s, x, p, leq);
      assert Filter(s, p) + [] == Filter(s, p);
    } else {
      var init, last := s[..|s| - 1], s[|s| - 1];
      assert s == init + [last];
      FilterInsert(init, x, p, leq);
      FilterInsertBefore(init, last, x, p, leq);
    }
  }

  lemma {:induction false} FilterSortStep<T(!new)>(init: seq<T>, last: T, p: T -> bool, leq: (T, T) -> bool)
    requires TotalPreorder(leq)
    requires Filter(Sort(init, leq), p) == Sort(Filter(init, p), leq)
    ensures Filter(Sort(init + [last], leq), p) == Sort(Filter(init + [last], p), leq)
  {
    SortSorts(init, leq);
    FilterInsert(Sort(init, leq), last, p, leq);
    assert Filter(init, p) + [] == Filter(init, p);
  }

  /** Filtering a sorted list is sorting the filtered list. */
  lemma {:induction false} FilterSort<T(!new)>(s: seq<T>, p: T -> bool, leq: (T, T) -> bool)
    requires TotalPreorder(leq)
    ensures Filter(Sort(s, leq), p) == Sort(Filter(s, p), leq)
  {
    if s == [] {
    } else {
      FilterSort(s[..|s| - 1], p, leq);
      FilterSortStep(s[..|s| - 1], s[|s| - 1], p, leq);
      assert s == s[..|s| - 1] + [s[|s| - 1]];
    }
  }

  lemma {:induction false} SortOfSorted<T(!new)>(s: seq<T>, leq: (T, T) -> bool)
    requires SortedBy(s, leq)
    ensures Sort(s, leq) == s
  {
    if s == [] {
    } else {
      var init := s[..|s| - 1];
      SortOfSorted(init, leq);
    }
  }

  function Tied<T>(c: T, leq: (T, T) -> bool): T -> bool {
    x => leq(x, c) && leq(c, x)
  }

  /** Elements that tie with c keep the order they came in. */
  lemma {:induction false} SortIsStable<T(!new)>(s: seq<T>, c: T, leq: (T, T) -> bool)
    requires TotalPreorder(leq)
    ensures Filter(Sort(s, leq), Tied(c, leq)) == Filter(s, Tied(c, leq))
  {
    var tied := Tied(c, leq);
    FilterSort(s, tied, leq);
    FilterMembers(s, tied);
    var f := Filter(s, tied);
    forall i, k | 0 <= i < k < |f| ensures leq(f[i], f[k]) {
      assert f[i] in f && f[k] in f;
    }
    SortOfSorted(f, leq);
  }

  ghost predicate StrictlySorted<T(!new)>(s: seq<T>, leq: (T, T) -> bool) {
    forall i, k :: 0 <= i < k < |s| ==> leq(s[i], s[k]) && !leq(s[k], s[i])
  }

  /** A list in strict order is the only way to sort its elements. */
  lemma {:induction false} SortedIsUnique<T(!new)>(s: seq<T>, t: seq<T>, leq: (T, T) -> bool)
    requires SortedBy(s, leq) && StrictlySorted(t, leq) && multiset(s) == multiset(t)
    ensures s == t
  {
    assert |s| == |multiset(s)| == |multiset(t)| == |t|;
    if s == [] {
    } else {
      SameHead(s, t, leq);
      TailElements(s);
      TailElements(t);
      SortedIsUnique(s[1..], t[1..], leq);
    }
  }

  lemma {:induction false} TailElements<T>(s: seq<T>)
    requires s != []
    ensures s == [s[0]] + s[1..] && multiset(s[1..]) == multiset(s) - multiset{s[0]}
  {
    assert s == [s[0]] + s[1..];
  }

  lemma {:induction false} SameHead<T(!new)>(s: seq<T>, t: seq<T>, leq: (T, T) -> bool)
    requires SortedBy(s, leq) && StrictlySorted(t, leq) && multiset(s) == multiset(t)
    requires s != [] && t != []
    ensures s[0] == t[0]
  {
    assert s[0] in multiset(t) && t[0] in multiset(s);
    var i :| 0 <= i < |t| && t[i] == s[0];
    var k :| 0 <= k < |s| && s[k] == t[0];
  }

  lemma {:induction false} FilterStrict<T(!new)>(s: seq<T>, p: T -> bool, leq: (T, T) -> bool)
    requires StrictlySorted(s, leq)
    ensures StrictlySorted(Filter(s, p), leq)
  {
    if s == [] {
    } else {
      var n := |s| - 1;
      FilterStrict(s[..n], p, leq);
      FilterMembers(s[..n], p);
      var f := Filter(s[..n], p);
      forall i | 0 <= i < |f| ensures leq(f[i], s[n]) && !leq(s[n], f[i]) {
        assert f[i] in s[..n];
      }
    }
  }

  function Both<T>(p: T -> bool, q: T -> bool): T -> bool {
    x => p(x) && q(x)
  }

  lemma {:induction false} FilterFilter<T>(s: seq<T>, p: T -> bool, q: T -> bool)
    ensures Filter(Filter(s, p), q) == Filter(s, Both(p, q))
  {
    if s == [] {
    } else {
      var n := |s| - 1;
      FilterFilter(s[..n], p, q);
      if p(s[n]) {
      } else {
        assert Filter(s[..n], p) + [] == Filter(s[..n], p);
        assert Filter(s[..n], Both(p, q)) + [] == Filter(s[..n], Both(p, q));
      }
    }
  }

  ghost predicate Antisymmetric<T(!new)>(leq: (T, T) -> bool) {
    forall a, b :: leq(a, b) && leq(b, a) ==> a == b
  }

  /** Where no two different elements tie there is one way to sort, repeated elements included. */
  lemma {:induction false} SortedWithoutTies<T(!new)>(s: seq<T>, t: seq<T>, leq: (T, T) -> bool)
    requires Antisymmetric(leq) && SortedBy(s, leq) && SortedBy(t, leq) && multiset(s) == multiset(t)
    ensures s == t
  {
    assert |s| == |multiset(s)| == |multiset(t)| == |t|;
    if s == [] {
    } else {
      LeastIsUnique(s, t, leq);
      TailElements(s);
      TailElements(t);
      SortedWithoutTies(s[1..], t[1..], leq);
    }
  }

  lemma {:induction false} LeastIsUnique<T(!new)>(s: seq<T>, t: seq<T>, leq: (T, T) -> bool)
    requires Antisymmetric(leq) && SortedBy(s, leq) && SortedBy(t, leq) && multiset(s) == multiset(t)
    requires s != [] && t != []
    ensures s[0] == t[0]
  {
    assert s[0] in multiset(t) && t[0] in multiset(s);
    var i :| 0 <= i < |t| && t[i] == s[0];
    var k :| 0 <= k < |s| && s[k] == t[0];
    assert i == 0 || leq(t[0], t[i]);
    assert k == 0 || leq(s[0], s[k]);
  }

  lemma {:induction false} WithoutElement<T>(s: seq<T>, i: nat)
    requires i < |s|
    ensures s == s[..i] + [s[i]] + s[i + 1..]
    ensures multiset(s[..i] + s[i + 1..]) == multiset(s) - multiset{s[i]}
  {
    assert s == s[..i] + [s[i]] + s[i + 1..];
  }

  lemma {:induction false} FilterMultiplicity<T>(s: seq<T>, p: T -> bool, x: T)
    ensures multiset(Filter(s, p))[x] == if p(x) then multiset(s)[x] else 0
  {
    if s == [] {
    } else {
      var n := |s| - 1;
      assert s == s[..n] + [s[n]];
      FilterMultiplicity(s[..n], p, x);
    }
  }

  lemma {:induction false} FilterPermuted<T(!new)>(s: seq<T>, t: seq<T>, p: T -> bool)
    requires multiset(s) == multiset(t)
    ensures multiset(Filter(s, p)) == multiset(Filter(t, p))
  {
    forall x ensures multiset(Filter(s, p))[x] == multiset(Filter(t, p))[x] {
      FilterMultiplicity(s, p, x);
      FilterMultiplicity(t, p, x);
    }
  }
}
