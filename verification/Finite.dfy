// Counting facts about finite sets and sequences that several modules need.
module Finite {
  ghost predicate Distinct<T>(s: seq<T>) {
    forall i, j :: 0 <= i < j < |s| ==> s[i] != s[j]
  }

  lemma DistinctAppend<T>(s: seq<T>, x: T)
    requires Distinct(s) && x !in s
    ensures Distinct(s + [x])
  {
    assert forall i :: 0 <= i < |s| ==> s[i] in s;
  }

  method Pick<T>(s: set<T>) returns (x: T)
    requires s != {}
    ensures x in s
  {
    x :| x in s;
  }

  /** The integers of the half-open interval [lo, hi). */
  ghost function Range(lo: int, hi: int): (r: set<int>)
    ensures forall x :: x in r <==> lo <= x < hi
    ensures |r| == if lo <= hi then hi - lo else 0
    decreases hi - lo
  {
    if hi <= lo then {} else Range(lo, hi - 1) + {hi - 1}
  }

  ghost function Elements<T>(s: seq<T>): set<T> {
    set x | x in s
  }

  lemma ElementsAppend<T>(s: seq<T>, x: T)
    ensures Elements(s + [x]) == Elements(s) + {x}
  {
  }

  lemma {:induction false} ElementsSize<T>(s: seq<T>)
    ensures |Elements(s)| <= |s|
  {
    if s != [] {
      var t := s[..|s| - 1];
      ElementsSize(t);
      assert s == t + [s[|s| - 1]];
      ElementsAppend(t, s[|s| - 1]);
    }
  }

  lemma MoveOver<T>(all: set<T>, rest: set<T>, x: T)
    requires x in rest && rest <= all
    ensures (all - rest) + {x} == all - (rest - {x}) && x !in all - rest
  {
  }

  /** An injective image of a finite set inside another one cannot be larger than it. */
  lemma {:induction false} InjectionBounds<S, T>(source: set<S>, f: map<S, T>, target: set<T>)
    requires forall x :: x in source ==> x in f && f[x] in target
    requires forall x, y :: x in source && y in source && f[x] == f[y] ==> x == y
    ensures |source| <= |target|
    decreases |source|
  {
    if source != {} {
      var x :| x in source;
      InjectionBounds(source - {x}, f, target - {f[x]});
    }
  }

  lemma {:induction false} SubsetSize<T>(a: set<T>, b: set<T>)
    requires a <= b
    ensures |a| <= |b|
    ensures |a| == |b| ==> a == b
    decreases |a|
  {
    if x :| x in a {
      SubsetSize(a - {x}, b - {x});
      assert (a - {x}) + {x} == a && (b - {x}) + {x} == b;
    } else {
      assert a == {} && (|b| == 0 ==> b == {});
    }
  }

  /** A subset of an interval has at most as many elements as the interval. */
  lemma {:induction false} BoundedSize(s: set<int>, lo: int, hi: int)
    requires lo <= hi
    requires forall x :: x in s ==> lo <= x < hi
    ensures |s| <= hi - lo
  {
    SubsetSize(s, Range(lo, hi));
  }

  lemma {:induction false} DistinctSize<T>(s: seq<T>)
    requires Distinct(s)
    ensures |Elements(s)| == |s|
  {
    if s != [] {
      var t := s[..|s| - 1];
      DistinctSize(t);
      assert s == t + [s[|s| - 1]];
      assert Elements(s) == Elements(t) + {s[|s| - 1]};
      assert s[|s| - 1] !in Elements(t);
    }
  }

  /** Pigeonhole: distinct entries drawn from an interval fit into it. */
  lemma {:induction false} DistinctFits(s: seq<int>, lo: int, hi: int)
    requires lo <= hi
    requires Distinct(s)
    requires forall i :: 0 <= i < |s| ==> lo <= s[i] < hi
    ensures |s| <= hi - lo
  {
    DistinctSize(s);
    BoundedSize(Elements(s), lo, hi);
  }

  ghost predicate InRange(sw: seq<int>, n: int) {
    forall i :: 0 <= i < |sw| ==> 0 <= sw[i] < n
  }

  ghost predicate IsPermutation(perm: seq<int>, n: int) {
    |perm| == n && InRange(perm, n) && Distinct(perm)
  }

  lemma {:induction false} PermutationHitsAll(perm: seq<int>, n: int, k: int)
    requires IsPermutation(perm, n) && 0 <= k < n
    ensures k in perm
  {
    DistinctSize(perm);
    forall x | x in Elements(perm)
      ensures 0 <= x < n
    {
      var i :| 0 <= i < |perm| && perm[i] == x;
    }
    SubsetSize(Elements(perm), Range(0, n));
    assert k in Range(0, n) && k in Elements(perm);
  }

  /** Some order of 0..n; nothing else about the generator is relied on. */
  method RandomPermute(n: int) returns (perm: seq<int>)
    requires n >= 0
    ensures IsPermutation(perm, n)
  {
    perm := seq(n, i => i);
  }
}
