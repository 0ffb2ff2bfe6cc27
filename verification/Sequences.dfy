/** Facts about sequences that several components share. */
module Sequences {

  /** The elements of `s` that satisfy `p`, in order: a stream or list `filter`. */
  function Select<T>(s: seq<T>, p: T -> bool): (r: seq<T>)
    ensures |r| <= |s|
  {
    if |s| == 0 then [] else (if p(s[0]) then [s[0]] else []) + Select(s[1..], p)
  }

  lemma {:induction false} SelectMultiplicity<T>(s: seq<T>, p: T -> bool, x: T)
    ensures multiset(Select(s, p))[x] == if p(x) then multiset(s)[x] else 0
  {
    if |s| != 0 {
      SelectMultiplicity(s[1..], p, x);
      assert s == [s[0]] + s[1..];
    }
  }

  lemma SelectMembers<T>(s: seq<T>, p: T -> bool)
    ensures forall x :: x in Select(s, p) <==> x in s && p(x)
  {
    forall x ensures x in Select(s, p) <==> x in s && p(x) {
      SelectMultiplicity(s, p, x);
      assert x in Select(s, p) <==> multiset(Select(s, p))[x] > 0;
      assert x in s <==> multiset(s)[x] > 0;
    }
  }

  lemma {:induction false} SelectAll<T>(s: seq<T>, p: T -> bool)
    requires forall x | x in s :: p(x)
    ensures Select(s, p) == s
  {
    if |s| != 0 {
      SelectAll(s[1..], p);
    }
  }

  lemma SelectCons<T>(x: T, s: seq<T>, p: T -> bool)
    ensures Select([x] + s, p) == (if p(x) then [x] else []) + Select(s, p)
  {
    assert ([x] + s)[1..] == s;
  }

  lemma {:induction false} SelectConcat<T>(a: seq<T>, b: seq<T>, p: T -> bool)
    ensures Select(a + b, p) == Select(a, p) + Select(b, p)
  {
    if |a| == 0 {
      assert a + b == b;
    } else {
      var rest := a[1..];
      var head := if p(a[0]) then [a[0]] else [];
      SelectConcat(rest, b, p);
      assert a + b == [a[0]] + (rest + b);
      SelectCons(a[0], rest + b, p);
      assert a == [a[0]] + rest;
      SelectCons(a[0], rest, p);
      assert head + (Select(rest, p) + Select(b, p)) == (head + Select(rest, p)) + Select(b, p);
    }
  }

  lemma {:induction false} SelectNone<T>(s: seq<T>, p: T -> bool)
    requires forall x | x in s :: !p(x)
    ensures Select(s, p) == []
  {
    if |s| != 0 {
      SelectNone(s[1..], p);
    }
  }

  /** Filtering twice is filtering by the conjunction. */
  lemma {:induction false} SelectTwice<T>(s: seq<T>, p: T -> bool, q: T -> bool, both: T -> bool)
    requires forall x | x in s :: both(x) == (p(x) && q(x))
    ensures Select(Select(s, p), q) == Select(s, both)
  {
    if |s| != 0 {
      SelectTwice(s[1..], p, q, both);
      if p(s[0]) {
        assert Select(s, p)[1..] == Select(s[1..], p);
      } else {
        assert Select(s, p) == Select(s[1..], p);
      }
    }
  }

  lemma {:induction false} SelectSame<T>(s: seq<T>, p: T -> bool, q: T -> bool)
    requires forall x | x in s :: p(x) == q(x)
    ensures Select(s, p) == Select(s, q)
  {
    if |s| != 0 {
      SelectSame(s[1..], p, q);
    }
  }

  ghost predicate Distinct<T>(s: seq<T>) {
    forall i, j :: 0 <= i < j < |s| ==> s[i] != s[j]
  }

  lemma {:induction false} DistinctMultiplicity<T>(s: seq<T>, x: T)
    requires Distinct(s)
    ensures multiset(s)[x] == if x in s then 1 else 0
  {
    if |s| != 0 {
      assert s == [s[0]] + s[1..];
      DistinctMultiplicity(s[1..], x);
    }
  }

  lemma {:induction false} SameMultiplicities<T>(a: seq<T>, b: seq<T>)
    requires multiset(a) == multiset(b)
    ensures |a| == |b|
    ensures forall x :: x in a <==> x in b
  {
    assert |multiset(a)| == |a| && |multiset(b)| == |b|;
    forall x ensures x in a <==> x in b {
      assert x in a <==> x in multiset(a);
      assert x in b <==> x in multiset(b);
    }
  }
}
