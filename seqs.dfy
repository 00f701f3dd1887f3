/** The array built-ins the client uses: `filter`, `filter(...).length` and `some`. */
module Seqs {

  /** `a` is an order-preserving subsequence of `b` (greedy matching is complete). */
  predicate IsSubseq<T(==)>(a: seq<T>, b: seq<T>)
  {
    if a == [] then true
    else if b == [] then false
    else if a[0] == b[0] then IsSubseq(a[1..], b[1..])
    else IsSubseq(a, b[1..])
  }

  /** No element occurs twice. */
  predicate Distinct<T(==)>(s: seq<T>)
  {
    forall i, j :: 0 <= i < j < |s| ==> s[i] != s[j]
  }

  /** `s.filter(p)`: the elements satisfying `p`, in their original order. */
  function Filter<T(==)>(s: seq<T>, p: T -> bool): (r: seq<T>)
    ensures |r| <= |s|
    ensures forall i :: 0 <= i < |r| ==> r[i] in s && p(r[i])
    ensures forall i :: 0 <= i < |s| && p(s[i]) ==> s[i] in r
  {
    if s == [] then []
    else if p(s[0]) then [s[0]] + Filter(s[1..], p)
    else Filter(s[1..], p)
  }

  /** `filter` keeps every passing element as often as it occurs, and no failing one. */
  lemma {:induction false} FilterMultiset<T>(s: seq<T>, p: T -> bool)
    ensures forall x :: multiset(Filter(s, p))[x] == if p(x) then multiset(s)[x] else 0
  {
    if s != [] {
      FilterMultiset(s[1..], p);
      var rest := Filter(s[1..], p);
      assert s == [s[0]] + s[1..];
      assert multiset(s) == multiset{s[0]} + multiset(s[1..]);
      if p(s[0]) {
        assert multiset(Filter(s, p)) == multiset{s[0]} + multiset(rest);
      } else {
        assert Filter(s, p) == rest;
      }
    }
  }

  /** `filter` keeps the order: its result is a subsequence of its input. */
  lemma {:induction false} FilterIsSubseq<T>(s: seq<T>, p: T -> bool)
    ensures IsSubseq(Filter(s, p), s)
  {
    if s != [] {
      FilterIsSubseq(s[1..], p);
      var rest := Filter(s[1..], p);
      if !p(s[0]) {
        assert rest != [] ==> rest[0] != s[0];
        SkipKeepsSubseq(rest, s);
      }
    }
  }

  /** A subsequence of the tail that does not start with the head is a subsequence of the whole. */
  lemma SkipKeepsSubseq<T>(a: seq<T>, s: seq<T>)
    requires s != [] && IsSubseq(a, s[1..]) && (a != [] ==> a[0] != s[0])
    ensures IsSubseq(a, s)
  {
  }

  /** The number of elements satisfying `p`, that is `s.filter(p).length` (see `FilterLengthIsCountIf`). */
  function CountIf<T>(s: seq<T>, p: T -> bool): (n: nat)
    ensures n <= |s|
    ensures n == 0 <==> forall i :: 0 <= i < |s| ==> !p(s[i])
    ensures n == |s| <==> forall i :: 0 <= i < |s| ==> p(s[i])
  {
    if s == [] then 0
    else CountIf(s[..|s| - 1], p) + (if p(s[|s| - 1]) then 1 else 0)
  }

  /** Counting the passing elements gives the length of the filtered sequence. */
  lemma {:induction false} FilterLengthIsCountIf<T>(s: seq<T>, p: T -> bool)
    ensures |Filter(s, p)| == CountIf(s, p)
  {
    if s != [] {
      var init, last := s[..|s| - 1], s[|s| - 1];
      FilterLengthIsCountIf(init, p);
      assert s == init + [last];
      FilterAppend(init, [last], p);
      assert [last][1..] == [];
    }
  }

  /** Counting with a weaker predicate never gives fewer. */
  lemma {:induction false} CountIfMonotone<T>(s: seq<T>, p: T -> bool, q: T -> bool)
    requires forall x :: p(x) ==> q(x)
    ensures CountIf(s, p) <= CountIf(s, q)
  {
    if s != [] {
      CountIfMonotone(s[..|s| - 1], p, q);
    }
  }

  /** Two predicates that agree on every element of `s` count the same. */
  lemma {:induction false} CountIfCongruent<T>(s: seq<T>, p: T -> bool, q: T -> bool)
    requires forall i :: 0 <= i < |s| ==> p(s[i]) == q(s[i])
    ensures CountIf(s, p) == CountIf(s, q)
  {
    if s != [] {
      CountIfCongruent(s[..|s| - 1], p, q);
    }
  }

  /** A filter that every element passes keeps the whole sequence. */
  lemma {:induction false} FilterAll<T>(s: seq<T>, p: T -> bool)
    requires forall i :: 0 <= i < |s| ==> p(s[i])
    ensures Filter(s, p) == s
  {
    if s != [] {
      FilterAll(s[1..], p);
    }
  }

  /** Filtering a concatenation filters each part. */
  lemma {:induction false} FilterAppend<T>(a: seq<T>, b: seq<T>, p: T -> bool)
    ensures Filter(a + b, p) == Filter(a, p) + Filter(b, p)
  {
    if a == [] {
      assert a + b == b;
    } else {
      assert (a + b)[0] == a[0];
      assert (a + b)[1..] == a[1..] + b;
      FilterAppend(a[1..], b, p);
      if p(a[0]) {
        assert Filter(a + b, p) == [a[0]] + Filter(a[1..] + b, p);
      } else {
        assert Filter(a + b, p) == Filter(a[1..] + b, p);
      }
    }
  }

  /** Filtering a sequence without repetitions gives one without repetitions. */
  lemma {:induction false} FilterDistinct<T>(s: seq<T>, p: T -> bool)
    requires Distinct(s)
    ensures Distinct(Filter(s, p))
  {
    if s != [] {
      FilterDistinct(s[1..], p);
      var rest := Filter(s[1..], p);
      assert s[0] !in s[1..];
      assert forall i :: 0 <= i < |rest| ==> rest[i] != s[0];
    }
  }
}
