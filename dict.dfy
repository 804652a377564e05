/** Python dictionaries keyed by text, as the scheduler builds them: keys keep
    their insertion order, which is the order later loops visit them in. */
module Dicts {
  import opened Common

  datatype Dict<V> = Dict(keys: seq<string>, entries: map<string, V>)

  /** The keys listed once each, and exactly the keys that have values. */
  ghost predicate WellFormed<V>(d: Dict<V>)
  {
    Distinct(d.keys) && (forall k :: k in d.entries <==> k in d.keys)
  }

  function Empty<V>(): (d: Dict<V>)
    ensures WellFormed(d) && d.keys == []
  {
    Dict([], map[])
  }

  /** `d[k] = v`: a new key goes last, an existing key keeps its place. */
  function Put<V>(d: Dict<V>, k: string, v: V): (r: Dict<V>)
    requires WellFormed(d)
    ensures WellFormed(r)
    ensures r.entries == d.entries[k := v]
    ensures k in d.entries ==> r.keys == d.keys
    ensures k !in d.entries ==> r.keys == d.keys + [k]
  {
    if k in d.entries then Dict(d.keys, d.entries[k := v]) else Dict(d.keys + [k], d.entries[k := v])
  }

  /** `dict(zip(ks, vs))` for lists of one length: a repeated key keeps its
      first place and takes its last value. */
  function FromPairs<V>(ks: seq<string>, vs: seq<V>): (r: Dict<V>)
    requires |ks| == |vs|
    ensures WellFormed(r) && |r.keys| <= |ks|
    ensures forall k :: k in r.entries <==> k in ks
  {
    if ks == [] then Empty()
    else Put(FromPairs(ks[..|ks| - 1], vs[..|vs| - 1]), ks[|ks| - 1], vs[|vs| - 1])
  }

  /** For distinct keys, the pairs come back in order with their own values. */
  lemma {:induction false} FromDistinctPairs<V>(ks: seq<string>, vs: seq<V>)
    requires |ks| == |vs| && Distinct(ks)
    ensures FromPairs(ks, vs).keys == ks
    ensures forall i :: 0 <= i < |ks| ==> FromPairs(ks, vs).entries[ks[i]] == vs[i]
  {
    if ks != [] {
      var n := |ks|;
      var p, q := ks[..n - 1], vs[..n - 1];
      DistinctPrefix(ks);
      FromDistinctPairs(p, q);
      var d := FromPairs(p, q);
      forall i | 0 <= i < n - 1 ensures d.entries[ks[i]] == vs[i] {
        assert ks[i] == p[i] && vs[i] == q[i];
      }
      LastIsNew(ks);
      SnocStep(d, ks, vs);
    }
  }

  lemma DistinctPrefix(ks: seq<string>)
    requires |ks| > 0 && Distinct(ks)
    ensures Distinct(ks[..|ks| - 1])
  {
    var p := ks[..|ks| - 1];
    forall i, j | 0 <= i < j < |p| ensures p[i] != p[j] {
      assert p[i] == ks[i] && p[j] == ks[j];
    }
  }

  lemma LastIsNew(ks: seq<string>)
    requires |ks| > 0 && Distinct(ks)
    ensures ks[|ks| - 1] !in ks[..|ks| - 1]
  {
    var p := ks[..|ks| - 1];
    forall j | 0 <= j < |p| ensures p[j] != ks[|ks| - 1] {
      assert p[j] == ks[j];
    }
  }

  lemma DropLastAppend(ks: seq<string>)
    requires |ks| > 0
    ensures ks[..|ks| - 1] + [ks[|ks| - 1]] == ks
  {
  }

  /** The last pair of a zip whose key is new lands at the end with its value. */
  lemma SnocStep<V>(d: Dict<V>, ks: seq<string>, vs: seq<V>)
    requires |ks| == |vs| > 0
    requires WellFormed(d) && d.keys == ks[..|ks| - 1]
    requires forall i :: 0 <= i < |ks| - 1 ==> d.entries[ks[i]] == vs[i]
    requires ks[|ks| - 1] !in ks[..|ks| - 1]
    requires d == FromPairs(ks[..|ks| - 1], vs[..|vs| - 1])
    ensures FromPairs(ks, vs).keys == ks
    ensures forall i :: 0 <= i < |ks| ==> FromPairs(ks, vs).entries[ks[i]] == vs[i]
  {
    var n := |ks|;
    var r := Put(d, ks[n - 1], vs[n - 1]);
    assert FromPairs(ks, vs) == r;
    DropLastAppend(ks);
    forall i | 0 <= i < n ensures r.entries[ks[i]] == vs[i] {
      if i < n - 1 {
        assert ks[i] in ks[..n - 1];
      }
    }
  }

  /** Every value of a zip is one of the values zipped. */
  lemma {:induction false} FromPairsValueIn<V>(ks: seq<string>, vs: seq<V>)
    requires |ks| == |vs|
    ensures forall k :: k in FromPairs(ks, vs).entries ==> FromPairs(ks, vs).entries[k] in vs
  {
    if ks != [] {
      var n := |ks|;
      FromPairsValueIn(ks[..n - 1], vs[..n - 1]);
      var d := FromPairs(ks[..n - 1], vs[..n - 1]);
      forall k | k in d.entries ensures d.entries[k] in vs {
        assert d.entries[k] in vs[..n - 1];
      }
    }
  }

  /** `{k: v for k in ks}`. */
  function Constant<V>(ks: seq<string>, v: V): (r: Dict<V>)
    ensures WellFormed(r) && |r.keys| <= |ks|
    ensures forall k :: k in r.entries <==> k in ks
    ensures forall k :: k in r.entries ==> r.entries[k] == v
    ensures Distinct(ks) ==> r.keys == ks
  {
    var vs := seq(|ks|, _ => v);
    FromPairsValueIn(ks, vs);
    if Distinct(ks) then FromDistinctPairs(ks, vs); FromPairs(ks, vs) else FromPairs(ks, vs)
  }

  /** The sum of the values at `ks`. */
  function SumOver(ks: seq<string>, m: map<string, int>): int
    requires forall k :: k in ks ==> k in m
  {
    if ks == [] then 0 else m[ks[0]] + SumOver(ks[1..], m)
  }

  /** `sum(d.values())`. */
  function Total(d: Dict<int>): int
    requires WellFormed(d)
  {
    SumOver(d.keys, d.entries)
  }

  /** Changing one value of a dictionary changes its sum by the difference. */
  lemma {:induction false} SumOverUpdate(ks: seq<string>, m: map<string, int>, k: string, v: int)
    requires forall x :: x in ks ==> x in m
    requires Distinct(ks) && k in ks
    ensures SumOver(ks, m[k := v]) == SumOver(ks, m) - m[k] + v
  {
    if ks[0] == k {
      assert k !in ks[1..];
      SumOverUnchanged(ks[1..], m, k, v);
    } else {
      SumOverUpdate(ks[1..], m, k, v);
    }
  }

  lemma {:induction false} SumOverUnchanged(ks: seq<string>, m: map<string, int>, k: string, v: int)
    requires forall x :: x in ks ==> x in m
    requires k !in ks
    ensures SumOver(ks, m[k := v]) == SumOver(ks, m)
  {
    if ks != [] {
      SumOverUnchanged(ks[1..], m, k, v);
    }
  }

  /** Summing at the keys in order is summing the list of their values. */
  lemma {:induction false} SumOverValues(ks: seq<string>, m: map<string, int>, vs: seq<int>)
    requires forall x :: x in ks ==> x in m
    requires |vs| == |ks| && forall i :: 0 <= i < |ks| ==> m[ks[i]] == vs[i]
    ensures SumOver(ks, m) == Sum(vs)
  {
    if ks != [] {
      SumOverValues(ks[1..], m, vs[1..]);
    }
  }

  lemma {:induction false} SumOverConstant(ks: seq<string>, m: map<string, int>, c: int)
    requires forall x :: x in ks ==> x in m && m[x] == c
    ensures SumOver(ks, m) == c * |ks|
  {
    if ks != [] {
      SumOverConstant(ks[1..], m, c);
    }
  }

  /** With no negative value, any one value is at most the sum. */
  lemma {:induction false} SumOverBound(ks: seq<string>, m: map<string, int>, k: string)
    requires forall x :: x in ks ==> x in m && m[x] >= 0
    requires k in ks
    ensures 0 <= m[k] <= SumOver(ks, m)
  {
    if ks[0] != k {
      SumOverBound(ks[1..], m, k);
    } else {
      SumOverNonNegative(ks[1..], m);
    }
  }

  lemma {:induction false} SumOverNonNegative(ks: seq<string>, m: map<string, int>)
    requires forall x :: x in ks ==> x in m && m[x] >= 0
    ensures SumOver(ks, m) >= 0
  {
    if ks != [] {
      SumOverNonNegative(ks[1..], m);
    }
  }

  lemma {:induction false} SumOverSnoc(ks: seq<string>, m: map<string, int>, k: string)
    requires forall x :: x in ks ==> x in m
    requires k in m
    ensures SumOver(ks + [k], m) == SumOver(ks, m) + m[k]
  {
    if ks != [] {
      assert (ks + [k])[1..] == ks[1..] + [k];
      SumOverSnoc(ks[1..], m, k);
    }
  }

  /** Setting a key to a non-negative value raises the sum of a dictionary
      without negative values by at most that value. */
  lemma PutTotalAtMost(d: Dict<int>, k: string, v: int)
    requires WellFormed(d) && (forall x :: x in d.entries ==> d.entries[x] >= 0) && v >= 0
    ensures Total(Put(d, k, v)) <= Total(d) + v
    ensures forall x :: x in Put(d, k, v).entries ==> Put(d, k, v).entries[x] >= 0
  {
    if k in d.entries {
      SumOverUpdate(d.keys, d.entries, k, v);
    } else {
      SumOverUnchanged(d.keys, d.entries, k, v);
      SumOverSnoc(d.keys, d.entries[k := v], k);
    }
  }

  /** A zip of non-negative values sums to at most the values' sum: a repeated
      key keeps only its last value. */
  lemma {:induction false} FromPairsTotalAtMost(ks: seq<string>, vs: seq<int>)
    requires |ks| == |vs| && forall i :: 0 <= i < |vs| ==> vs[i] >= 0
    ensures Total(FromPairs(ks, vs)) <= Sum(vs)
    ensures forall k :: k in FromPairs(ks, vs).entries ==> FromPairs(ks, vs).entries[k] >= 0
  {
    if ks != [] {
      var n := |ks|;
      var p, q := ks[..n - 1], vs[..n - 1];
      assert forall i :: 0 <= i < |q| ==> q[i] == vs[i];
      FromPairsTotalAtMost(p, q);
      var d := FromPairs(p, q);
      assert FromPairs(ks, vs) == Put(d, ks[n - 1], vs[n - 1]);
      PutTotalAtMost(d, ks[n - 1], vs[n - 1]);
      SumLast(vs);
    }
  }

  lemma SumLast(vs: seq<int>)
    requires |vs| > 0
    ensures Sum(vs) == Sum(vs[..|vs| - 1]) + vs[|vs| - 1]
  {
    assert vs == vs[..|vs| - 1] + [vs[|vs| - 1]];
    SumAppend(vs[..|vs| - 1], [vs[|vs| - 1]]);
  }

  /** A constant dictionary over possibly repeated keys sums to at most the
      value times the number of keys listed. */
  lemma ConstantTotalAtMost(ks: seq<string>, c: int)
    requires c >= 0
    ensures Total(Constant(ks, c)) <= c * |ks|
  {
    var d := Constant(ks, c);
    ConstantValuesTotal(d, c, |ks|);
  }

  lemma ConstantValuesTotal(d: Dict<int>, c: int, n: int)
    requires WellFormed(d) && (forall x :: x in d.entries ==> d.entries[x] == c)
    requires c >= 0 && |d.keys| <= n
    ensures Total(d) <= c * n
  {
    SumOverConstant(d.keys, d.entries, c);
    MulMonotone(c, |d.keys|, n);
  }
}
