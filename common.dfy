/** Small shared vocabulary: Option/Result and order-preserving filtering of sequences. */
module Common {

  datatype Option<+T> = None | Some(value: T)

  datatype Result<+T, +E> = Ok(value: T) | Err(error: E)

  /** The elements of `s` that satisfy `p`, in their original order (Python's `filter`). */
  function Filter<T>(p: T -> bool, s: seq<T>): (r: seq<T>)
    ensures |r| <= |s|
    ensures forall i :: 0 <= i < |r| ==> p(r[i])
  {
    if s == [] then [] else (if p(s[0]) then [s[0]] else []) + Filter(p, s[1..])
  }

  lemma {:induction false} FilterAppend<T>(p: T -> bool, a: seq<T>, b: seq<T>)
    ensures Filter(p, a + b) == Filter(p, a) + Filter(p, b)
  {
    if a == [] {
      assert a + b == b;
    } else {
      assert (a + b)[0] == a[0];
      assert (a + b)[1..] == a[1..] + b;
      FilterAppend(p, a[1..], b);
    }
  }

  /** Filtering by a predicate and by its negation splits a sequence into two parts that together hold exactly its elements. */
  lemma {:induction false} FilterSplitsMultiset<T>(p: T -> bool, q: T -> bool, s: seq<T>)
    requires forall x :: q(x) == !p(x)
    ensures multiset(Filter(p, s)) + multiset(Filter(q, s)) == multiset(s)
  {
    if s != [] {
      FilterSplitsMultiset(p, q, s[1..]);
      MultisetOfCons(s);
      var head := multiset{s[0]};
      if p(s[0]) {
        MultisetOfCons(Filter(p, s));
        assert multiset(Filter(p, s)) == head + multiset(Filter(p, s[1..]));
        assert multiset(Filter(q, s)) == multiset(Filter(q, s[1..]));
      } else {
        MultisetOfCons(Filter(q, s));
        assert multiset(Filter(p, s)) == multiset(Filter(p, s[1..]));
        assert multiset(Filter(q, s)) == head + multiset(Filter(q, s[1..]));
      }
    }
  }

  lemma MultisetOfCons<T>(s: seq<T>)
    requires s != []
    ensures multiset(s) == multiset{s[0]} + multiset(s[1..])
  {
    assert s == [s[0]] + s[1..];
  }

  lemma {:induction false} FilterIdempotent<T>(p: T -> bool, s: seq<T>)
    ensures Filter(p, Filter(p, s)) == Filter(p, s)
  {
    if s != [] {
      FilterIdempotent(p, s[1..]);
      var head := if p(s[0]) then [s[0]] else [];
      FilterAppend(p, head, Filter(p, s[1..]));
    }
  }

  lemma {:induction false} FilterAll<T>(p: T -> bool, s: seq<T>)
    requires forall i :: 0 <= i < |s| ==> p(s[i])
    ensures Filter(p, s) == s
  {
    if s != [] {
      FilterAll(p, s[1..]);
    }
  }

  lemma {:induction false} FilterNone<T>(p: T -> bool, s: seq<T>)
    requires forall i :: 0 <= i < |s| ==> !p(s[i])
    ensures Filter(p, s) == []
  {
    if s != [] {
      FilterNone(p, s[1..]);
    }
  }

  /** Every element `Filter` keeps still has any property all of `s` has. */
  lemma {:induction false} FilterKeeps<T>(p: T -> bool, q: T -> bool, s: seq<T>)
    requires forall i :: 0 <= i < |s| ==> q(s[i])
    ensures forall i :: 0 <= i < |Filter(p, s)| ==> q(Filter(p, s)[i])
  {
    if s != [] {
      FilterKeeps(p, q, s[1..]);
      var head := if p(s[0]) then [s[0]] else [];
      assert Filter(p, s) == head + Filter(p, s[1..]);
    }
  }

  lemma {:induction false} FilterCommute<T>(p: T -> bool, q: T -> bool, s: seq<T>)
    ensures Filter(p, Filter(q, s)) == Filter(q, Filter(p, s))
  {
    if s != [] {
      FilterCommute(p, q, s[1..]);
      var qs := if q(s[0]) then [s[0]] else [];
      var ps := if p(s[0]) then [s[0]] else [];
      FilterAppend(p, qs, Filter(q, s[1..]));
      FilterAppend(q, ps, Filter(p, s[1..]));
    }
  }

  /** An element survives filtering exactly when it occurs in the input and satisfies the predicate. */
  lemma {:induction false} FilterMembers<T>(p: T -> bool, s: seq<T>, x: T)
    ensures x in Filter(p, s) <==> x in s && p(x)
  {
    if s != [] {
      FilterMembers(p, s[1..], x);
      assert s == [s[0]] + s[1..];
    }
  }

  /** `sub` can be obtained from `s` by deleting elements. */
  ghost predicate IsSubsequence<T>(sub: seq<T>, s: seq<T>)
    decreases |s|
  {
    if sub == [] then true
    else if s == [] then false
    else if sub[0] == s[0] then IsSubsequence(sub[1..], s[1..])
    else IsSubsequence(sub, s[1..])
  }

  lemma {:induction false} FilterIsSubsequence<T>(p: T -> bool, s: seq<T>)
    ensures IsSubsequence(Filter(p, s), s)
  {
    if s != [] {
      FilterIsSubsequence(p, s[1..]);
      var f := Filter(p, s);
      if !p(s[0]) {
        // s[0] fails p, so it cannot be the head of the filtered sequence
        assert f == Filter(p, s[1..]);
        assert f != [] ==> f[0] in f && f[0] != s[0];
      }
    }
  }
}
