// Sums over finite maps, the ledgers' common currency.
module Sums {

  ghost function Pick<K>(s: set<K>): (k: K)
    requires s != {}
    ensures k in s
  {
    var k :| k in s; k
  }

  ghost function Total<K>(m: map<K, int>): int
    decreases |m|
  {
    if m.Keys == {} then 0
    else
      var k := Pick(m.Keys);
      m[k] + Total(m - {k})
  }

  lemma {:induction false} TotalWithout<K>(m: map<K, int>, k: K)
    requires k in m
    ensures Total(m) == m[k] + Total(m - {k})
    decreases |m|
  {
    var p := Pick(m.Keys);
    if p != k {
      TotalWithout(m - {p}, k);
      TotalWithout(m - {k}, p);
      assert m - {p} - {k} == m - {k} - {p};
    }
  }

  lemma TotalUpdate<K>(m: map<K, int>, k: K, v: int)
    ensures Total(m[k := v]) == Total(m) - (if k in m then m[k] else 0) + v
  {
    TotalWithout(m[k := v], k);
    assert m[k := v] - {k} == m - {k};
    if k in m {
      TotalWithout(m, k);
    } else {
      assert m - {k} == m;
    }
  }

  lemma TotalRemove<K>(m: map<K, int>, k: K)
    ensures Total(m - {k}) == Total(m) - (if k in m then m[k] else 0)
  {
    if k in m {
      TotalWithout(m, k);
    } else {
      assert m - {k} == m;
    }
  }

  function At<K>(m: map<K, int>, k: K): int {
    if k in m then m[k] else 0
  }

  /** Changing, adding or dropping one entry moves the total by the difference. */
  lemma TotalDiffersAt<K>(m: map<K, int>, m': map<K, int>, k: K)
    requires m - {k} == m' - {k}
    ensures Total(m') == Total(m) - At(m, k) + At(m', k)
  {
    TotalRemove(m, k);
    TotalRemove(m', k);
  }

  lemma {:induction false} TotalNonNegative<K>(m: map<K, int>)
    requires forall k | k in m :: m[k] >= 0
    ensures Total(m) >= 0
    decreases |m|
  {
    if m.Keys != {} {
      TotalNonNegative(m - {Pick(m.Keys)});
    }
  }

  lemma EachAtMostTotal<K>(m: map<K, int>, k: K)
    requires k in m && forall j | j in m :: m[j] >= 0
    ensures 0 <= m[k] <= Total(m)
  {
    TotalWithout(m, k);
    TotalNonNegative(m - {k});
  }

  ghost predicate FloorsOf<K>(floors: map<K, int>, parts: map<K, int>, scale: nat, unit: nat) {
    && floors.Keys == parts.Keys
    && forall k | k in parts :: unit * floors[k] <= scale * parts[k] < unit * floors[k] + unit
  }

  lemma SizeWithout<K>(m: map<K, int>, k: K)
    requires k in m
    ensures |m - {k}| == |m| - 1
  {
    assert (m - {k}).Keys == m.Keys - {k};
  }

  lemma FloorsOfRest<K>(floors: map<K, int>, parts: map<K, int>, scale: nat, unit: nat, k: K)
    requires FloorsOf(floors, parts, scale, unit)
    ensures FloorsOf(floors - {k}, parts - {k}, scale, unit)
  {
    assert (parts - {k}).Keys == parts.Keys - {k} == (floors - {k}).Keys;
  }

  /** Flooring every summand of a scaled sum loses less than one unit per summand. */
  lemma {:induction false} FloorsOfSum<K>(floors: map<K, int>, parts: map<K, int>, scale: nat, unit: nat)
    requires FloorsOf(floors, parts, scale, unit)
    ensures unit * Total(floors) <= scale * Total(parts) <= unit * Total(floors) + unit * |parts|
    ensures parts.Keys != {} ==> scale * Total(parts) < unit * Total(floors) + unit * |parts|
    decreases |parts|
  {
    if parts.Keys == {} {
      assert Total(floors) == 0 && Total(parts) == 0 && |parts| == 0;
    } else {
      var k := Pick(parts.Keys);
      FloorsOfRest(floors, parts, scale, unit, k);
      SizeWithout(parts, k);
      FloorsOfSum(floors - {k}, parts - {k}, scale, unit);
      FloorsCombine(floors, parts, scale, unit, k);
    }
  }

  lemma FloorsCombine<K>(floors: map<K, int>, parts: map<K, int>, scale: nat, unit: nat, k: K)
    requires k in floors && k in parts
    requires unit * floors[k] <= scale * parts[k] < unit * floors[k] + unit
    requires unit * Total(floors - {k}) <= scale * Total(parts - {k}) <= unit * Total(floors - {k})
             + unit * |parts - {k}|
    ensures unit * Total(floors) <= scale * Total(parts) < unit * Total(floors) + unit * |parts|
  {
    SizeWithout(parts, k);
    TotalWithout(floors, k);
    TotalWithout(parts, k);
    FloorStep(scale, unit, floors[k], parts[k], Total(floors - {k}), Total(parts - {k}), |parts - {k}|,
              Total(floors), Total(parts), |parts|);
  }

  lemma FloorStep(scale: nat, unit: nat, f: int, p: int, fs: int, ps: int, n: nat, fs': int, ps': int, n': nat)
    requires unit * f <= scale * p < unit * f + unit
    requires unit * fs <= scale * ps <= unit * fs + unit * n
    requires fs' == f + fs && ps' == p + ps && n' == n + 1
    ensures unit * fs' <= scale * ps' < unit * fs' + unit * n'
  {
    assert unit * fs' == unit * f + unit * fs;
    assert scale * ps' == scale * p + scale * ps;
    assert unit * n' == unit * n + unit;
  }
}
