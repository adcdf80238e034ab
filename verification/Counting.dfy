/** Counting and summing over sequences; the bookkeeping shared by the protocol proofs. */
module Counting {
  import opened Arithmetic

  /** The number of elements of `s` that satisfy `p`. */
  function Count<T>(s: seq<T>, p: T -> bool): (n: nat)
    ensures n <= |s|
  {
    if s == [] then 0 else Count(s[..|s| - 1], p) + (if p(s[|s| - 1]) then 1 else 0)
  }

  lemma {:induction false} CountUpdate<T>(s: seq<T>, i: nat, x: T, p: T -> bool)
    requires i < |s|
    ensures Count(s[i := x], p) == Count(s, p) - (if p(s[i]) then 1 else 0) + (if p(x) then 1 else 0)
  {
    var last := |s| - 1;
    if i == last {
      assert s[i := x][..last] == s[..last];
    } else {
      assert s[i := x][..last] == s[..last][i := x];
      CountUpdate(s[..last], i, x, p);
    }
  }

  lemma CountAppend<T>(s: seq<T>, x: T, p: T -> bool)
    ensures Count(s + [x], p) == Count(s, p) + (if p(x) then 1 else 0)
  {}

  lemma {:induction false} CountNone<T>(s: seq<T>, p: T -> bool)
    requires forall i :: 0 <= i < |s| ==> !p(s[i])
    ensures Count(s, p) == 0
  {
    if s != [] {
      CountNone(s[..|s| - 1], p);
    }
  }

  lemma {:induction false} CountPositive<T>(s: seq<T>, p: T -> bool, i: nat)
    requires i < |s| && p(s[i])
    ensures Count(s, p) > 0
  {
    if i < |s| - 1 {
      CountPositive(s[..|s| - 1], p, i);
    }
  }

  lemma {:induction false} CountInRange<T>(s: seq<T>, p: T -> bool, lo: nat, hi: nat)
    requires lo <= hi && forall i :: 0 <= i < |s| && p(s[i]) ==> lo <= i < hi
    ensures Count(s, p) <= hi - lo
    decreases |s|
  {
    if s != [] {
      var last := |s| - 1;
      if lo < hi {
        CountInRange(s[..last], p, lo, if p(s[last]) then last else hi);
      } else {
        CountNone(s, p);
      }
    }
  }

  lemma {:induction false} OnlyOne<T>(s: seq<T>, p: T -> bool, i: nat, j: nat)
    requires i < |s| && j < |s| && p(s[i]) && p(s[j]) && Count(s, p) <= 1
    ensures i == j
  {
    var last := |s| - 1;
    if i < last && j < last {
      OnlyOne(s[..last], p, i, j);
    } else if i < last {
      CountPositive(s[..last], p, i);
    } else if j < last {
      CountPositive(s[..last], p, j);
    }
  }

  lemma {:induction false} CountWitness<T>(s: seq<T>, p: T -> bool) returns (i: nat)
    requires Count(s, p) > 0
    ensures i < |s| && p(s[i])
  {
    if p(s[|s| - 1]) {
      i := |s| - 1;
    } else {
      i := CountWitness(s[..|s| - 1], p);
    }
  }

  lemma {:induction false} CountImplies<T>(s: seq<T>, p: T -> bool, q: T -> bool)
    requires forall i :: 0 <= i < |s| && p(s[i]) ==> q(s[i])
    ensures Count(s, p) <= Count(s, q)
  {
    if s != [] {
      CountImplies(s[..|s| - 1], p, q);
    }
  }

  /** When every element satisfies exactly one of `p` and `q`, the two counts share out the length. */
  lemma {:induction false} CountSplit<T>(s: seq<T>, p: T -> bool, q: T -> bool)
    requires forall i :: 0 <= i < |s| ==> p(s[i]) != q(s[i])
    ensures Count(s, p) + Count(s, q) == |s|
  {
    if s != [] {
      CountSplit(s[..|s| - 1], p, q);
    }
  }

  /** The sum of `f` over `s`. */
  function Sum<T>(s: seq<T>, f: T -> nat): nat {
    if s == [] then 0 else Sum(s[..|s| - 1], f) + f(s[|s| - 1])
  }

  lemma {:induction false} SumUpdate<T>(s: seq<T>, i: nat, x: T, f: T -> nat)
    requires i < |s|
    ensures Sum(s[i := x], f) == Sum(s, f) - f(s[i]) + f(x)
  {
    var last := |s| - 1;
    if i == last {
      assert s[i := x][..last] == s[..last];
    } else {
      assert s[i := x][..last] == s[..last][i := x];
      SumUpdate(s[..last], i, x, f);
    }
  }

  lemma {:induction false} SumBound<T>(s: seq<T>, f: T -> nat, bound: nat)
    requires forall i :: 0 <= i < |s| ==> f(s[i]) <= bound
    ensures Sum(s, f) <= bound * |s|
  {
    if s != [] {
      SumBound(s[..|s| - 1], f, bound);
    }
  }

  lemma {:induction false} CountBelowSum<T>(s: seq<T>, p: T -> bool, f: T -> nat)
    requires forall i :: 0 <= i < |s| && p(s[i]) ==> f(s[i]) >= 1
    ensures Count(s, p) <= Sum(s, f)
  {
    if s != [] {
      CountBelowSum(s[..|s| - 1], p, f);
    }
  }

  /** How many `k` in `[lo, hi)` satisfy `p`. */
  function CountRange(p: nat -> bool, lo: nat, hi: nat): (n: nat)
    requires lo <= hi
    ensures n <= hi - lo
    decreases hi
  {
    if lo == hi then 0 else CountRange(p, lo, hi - 1) + (if p(hi - 1) then 1 else 0)
  }

  lemma {:induction false} CountRangeImplies(p: nat -> bool, q: nat -> bool, lo: nat, hi: nat)
    requires lo <= hi
    requires forall k: nat :: lo <= k < hi && p(k) ==> q(k)
    ensures CountRange(p, lo, hi) <= CountRange(q, lo, hi)
    decreases hi
  {
    if lo < hi {
      CountRangeImplies(p, q, lo, hi - 1);
    }
  }

  lemma {:induction false} CountRangeSplit(p: nat -> bool, lo: nat, mid: nat, hi: nat)
    requires lo <= mid <= hi
    ensures CountRange(p, lo, hi) == CountRange(p, lo, mid) + CountRange(p, mid, hi)
    decreases hi
  {
    if mid < hi {
      CountRangeSplit(p, lo, mid, hi - 1);
    }
  }

  lemma {:induction false} CountRangeAll(p: nat -> bool, lo: nat, hi: nat)
    requires lo <= hi
    requires forall k: nat :: lo <= k < hi ==> p(k)
    ensures CountRange(p, lo, hi) == hi - lo
    decreases hi
  {
    if lo < hi {
      CountRangeAll(p, lo, hi - 1);
    }
  }

  lemma {:induction false} CountRangeNone(p: nat -> bool, lo: nat, hi: nat)
    requires lo <= hi
    requires forall k: nat :: lo <= k < hi ==> !p(k)
    ensures CountRange(p, lo, hi) == 0
    decreases hi
  {
    if lo < hi {
      CountRangeNone(p, lo, hi - 1);
    }
  }

  /** One more index satisfies `q`. */
  lemma {:induction false} CountRangeGains(p: nat -> bool, q: nat -> bool, x: nat, hi: nat)
    requires x < hi && q(x) && !p(x)
    requires forall k: nat :: k < hi && k != x ==> (p(k) <==> q(k))
    ensures CountRange(q, 0, hi) == CountRange(p, 0, hi) + 1
  {
    if x == hi - 1 {
      CountRangeImplies(p, q, 0, x);
      CountRangeImplies(q, p, 0, x);
    } else {
      CountRangeGains(p, q, x, hi - 1);
    }
  }

  /** Disjoint cases add up. */
  lemma {:induction false} CountRangeSum(p: nat -> bool, q: nat -> bool, r: nat -> bool, lo: nat, hi: nat)
    requires lo <= hi
    requires forall k: nat :: lo <= k < hi ==> (p(k) <==> q(k) || r(k)) && !(q(k) && r(k))
    ensures CountRange(p, lo, hi) == CountRange(q, lo, hi) + CountRange(r, lo, hi)
    decreases hi
  {
    if lo < hi {
      CountRangeSum(p, q, r, lo, hi - 1);
    }
  }

  function WithTag(p: nat -> bool, tag: nat -> int, x: int): nat -> bool { (k: nat) => p(k) && tag(k) == x }

  function BelowTag(p: nat -> bool, tag: nat -> int, x: int): nat -> bool { (k: nat) => p(k) && tag(k) < x }

  /** If at most `n` of the indices that satisfy `p` share a tag, and the tags are among the `d`
      from `first` on, then at most `d` times `n` indices satisfy `p`. */
  lemma {:induction false} Pigeonhole(p: nat -> bool, tag: nat -> int, lo: nat, hi: nat, first: int, d: nat, n: nat)
    requires lo <= hi
    requires forall k: nat :: lo <= k < hi && p(k) ==> first <= tag(k)
    requires forall x: int :: CountRange(WithTag(p, tag, x), lo, hi) <= n
    ensures CountRange(BelowTag(p, tag, first + d), lo, hi) <= Times(d, n)
    decreases d
  {
    if d == 0 {
      CountRangeNone(BelowTag(p, tag, first), lo, hi);
    } else {
      Pigeonhole(p, tag, lo, hi, first, d - 1, n);
      var last := first + d - 1;
      CountRangeSum(BelowTag(p, tag, first + d), BelowTag(p, tag, last), WithTag(p, tag, last), lo, hi);
    }
  }

  predicate Nondecreasing(times: seq<int>) {
    forall i, j :: 0 <= i <= j < |times| ==> times[i] <= times[j]
  }

  function Min(x: int, y: int): int { if x < y then x else y }

  function Max(x: int, y: int): int { if x < y then y else x }
}
