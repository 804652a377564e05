/** The parts of Python's `random` module the scheduler calls. The generator is
    an arbitrary stream of integers read one at a time, each read being the
    result of one `_randbelow` call; since every sequence of results is some
    stream, a property proved for all streams holds for every sequence of
    draws. Probabilities are not modelled. */
module Randomness {
  import opened Common

  /** `_randbelow(n)` as the draw at position `k`: a value of the stream
      outside `0..n-1` stands for 0, so every result in range is some stream's. */
  function Below(stream: nat -> int, k: nat, n: int): (r: int)
    requires n >= 1
    ensures 0 <= r < n
  {
    if 0 <= stream(k) < n then stream(k) else 0
  }

  /** `randint(lo, hi)`, which is `lo + _randbelow(hi - lo + 1)`. */
  function Between(stream: nat -> int, k: nat, lo: int, hi: int): (r: int)
    requires lo <= hi
    ensures lo <= r <= hi
  {
    lo + Below(stream, k, hi - lo + 1)
  }

  /** Taking one element out of the live part `p[..m]` of a pool and moving the
      last live element into its place removes exactly that element. */
  lemma PoolRemove<T>(p: seq<T>, j: int, m: int)
    requires 0 <= j < m <= |p|
    ensures multiset(p[..m]) == multiset(p[j := p[m - 1]][..m - 1]) + multiset{p[j]}
  {
    var q := p[j := p[m - 1]];
    if j == m - 1 {
      assert p[..m] == p[..m - 1] + [p[m - 1]];
      assert q[..m - 1] == p[..m - 1];
    } else {
      assert p[..m] == p[..j] + [p[j]] + p[j + 1..m - 1] + [p[m - 1]];
      assert q[..m - 1] == p[..j] + [p[m - 1]] + p[j + 1..m - 1];
    }
  }

  lemma {:induction false} DistinctCount<T>(p: seq<T>, x: T)
    requires Distinct(p)
    ensures multiset(p)[x] <= 1
  {
    if p != [] {
      assert p == [p[0]] + p[1..];
      DistinctCount(p[1..], x);
      if p[0] == x {
        assert x !in p[1..] by {
          forall k | 0 <= k < |p[1..]| ensures p[1..][k] != x {
            assert p[1..][k] == p[k + 1];
          }
        }
      }
    }
  }

  /** A sample drawn without replacement from distinct elements is itself
      distinct and drawn from the population. */
  lemma SampleOfDistinct<T>(r: seq<T>, p: seq<T>)
    requires multiset(r) <= multiset(p) && Distinct(p)
    ensures Distinct(r)
    ensures forall x :: x in r ==> x in p
  {
    forall i, j | 0 <= i < j < |r| ensures r[i] != r[j] {
      if r[i] == r[j] {
        var x := r[i];
        assert r == r[..i] + [r[i]] + r[i + 1..j] + [r[j]] + r[j + 1..];
        assert multiset(r)[x] >= 2;
        DistinctCount(p, x);
        assert false;
      }
    }
    forall x | x in r ensures x in p {
      assert multiset(r)[x] > 0;
    }
  }

  /** `random.Random`: a stream and a read position. */
  class Rng {
    const stream: nat -> int
    var pos: nat

    constructor(stream0: nat -> int)
      ensures stream == stream0 && pos == 0
    {
      stream := stream0;
      pos := 0;
    }

    method RandBelow(n: int) returns (r: int)
      requires n >= 1
      modifies this
      ensures r == Below(stream, old(pos), n) && 0 <= r < n
      ensures pos == old(pos) + 1
    {
      r := stream(pos);
      if !(0 <= r < n) {
        r := 0;
      }
      pos := pos + 1;
    }

    /** `random.randint(lo, hi)`; Python raises for an empty range, so callers check first. */
    method RandInt(lo: int, hi: int) returns (r: int)
      requires lo <= hi
      modifies this
      ensures r == Between(stream, old(pos), lo, hi) && lo <= r <= hi
      ensures pos == old(pos) + 1
    {
      var b := RandBelow(hi - lo + 1);
      r := lo + b;
    }

    /** `random.choice(population)`. */
    method Choice<T>(population: seq<T>) returns (x: T)
      requires |population| >= 1
      modifies this
      ensures x == population[Below(stream, old(pos), |population|)]
      ensures pos == old(pos) + 1
    {
      var j := RandBelow(|population|);
      x := population[j];
    }

    /** `random.sample(population, k)` for a population no longer than 21, where
        Python moves each chosen element out of a pool by overwriting it with the
        last live one. */
    method Sample<T>(population: seq<T>, k: int) returns (r: seq<T>)
      requires 0 <= k <= |population| <= 21
      modifies this
      ensures |r| == k
      ensures multiset(r) <= multiset(population)
      ensures pos == old(pos) + k
    {
      var n := |population|;
      var pool := population;
      r := [];
      var i := 0;
      assert pool[..n] == population;
      while i < k
        invariant 0 <= i <= k
        invariant |pool| == n && |r| == i
        invariant multiset(r) + multiset(pool[..n - i]) == multiset(population)
        invariant pos == old(pos) + i
      {
        var j := RandBelow(n - i);
        PoolRemove(pool, j, n - i);
        r := r + [pool[j]];
        pool := pool[j := pool[n - i - 1]];
        i := i + 1;
      }
    }

    /** `random.choices(range(n), weights, k=k)` with the weights left out: `k`
        indices below `n`, one draw each; none when `k` is not positive. */
    method Choices(n: int, k: int) returns (r: seq<int>)
      requires n >= 1
      modifies this
      ensures |r| == if k > 0 then k else 0
      ensures forall j :: 0 <= j < |r| ==> r[j] == Below(stream, old(pos) + j, n)
      ensures pos == old(pos) + |r|
    {
      r := [];
      var i := 0;
      while i < k
        invariant 0 <= i <= (if k > 0 then k else 0) && |r| == i
        invariant forall j :: 0 <= j < i ==> r[j] == Below(stream, old(pos) + j, n)
        invariant pos == old(pos) + i
      {
        var x := RandBelow(n);
        r := r + [x];
        i := i + 1;
      }
    }
  }
}
