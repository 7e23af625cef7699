/** The bucketed latency histogram (crates/nova-executor/src/metrics.rs). */
module Histogram {
  import opened Numbers

  const BOUNDS: seq<nat> := [
    1_000, 5_000, 10_000, 50_000, 100_000, 500_000, 1_000_000, 5_000_000, 10_000_000, 50_000_000, 100_000_000,
    500_000_000, 1_000_000_000, 5_000_000_000, 10_000_000_000, 60_000_000_000, U64_MAX]

  ghost predicate Ascending(bounds: seq<nat>) {
    bounds != [] && forall i, j :: 0 <= i < j < |bounds| ==> bounds[i] < bounds[j]
  }

  // ---- Meaning ----

  /** How many of the values are at most `v`. */
  function CountAtMost(values: seq<nat>, v: nat): nat {
    if values == [] then 0
    else CountAtMost(values[..|values| - 1], v) + (if values[|values| - 1] <= v then 1 else 0)
  }

  function SumTo(counts: seq<nat>, n: nat): nat
    requires n <= |counts|
  {
    if n == 0 then 0 else SumTo(counts, n - 1) + counts[n - 1]
  }

  /** `ceil(total * pct / 100)`. */
  function Target(total: nat, pct: nat): (n: nat)
    ensures 100 * n >= total * pct && (n > 0 ==> 100 * (n - 1) < total * pct)
  {
    (total * pct + 99) / 100
  }

  function SumOf(values: seq<nat>): nat {
    if values == [] then 0 else SumOf(values[..|values| - 1]) + values[|values| - 1]
  }

  lemma SumOneMore(values: seq<nat>, value: nat)
    ensures SumOf(values + [value]) == SumOf(values) + value
  {
    assert (values + [value])[..|values|] == values;
  }

  lemma CountOneMore(values: seq<nat>, value: nat, v: nat)
    ensures CountAtMost(values + [value], v) == CountAtMost(values, v) + (if value <= v then 1 else 0)
  {}

  lemma {:induction false} CountMonotone(values: seq<nat>, v: nat, w: nat)
    requires v <= w
    ensures CountAtMost(values, v) <= CountAtMost(values, w) <= |values|
    decreases |values|
  {
    if values != [] {
      CountMonotone(values[..|values| - 1], v, w);
    }
  }

  lemma {:induction false} CountAll(values: seq<nat>, v: nat)
    requires forall i :: 0 <= i < |values| ==> values[i] <= v
    ensures CountAtMost(values, v) == |values|
    decreases |values|
  {
    if values != [] {
      CountAll(values[..|values| - 1], v);
    }
  }

  lemma {:induction false} SumAfterBump(counts: seq<nat>, k: nat, n: nat)
    requires k < |counts| && n <= |counts|
    ensures SumTo(counts[k := counts[k] + 1], n) == SumTo(counts, n) + (if k < n then 1 else 0)
  {
    if n > 0 {
      SumAfterBump(counts, k, n - 1);
    }
  }

  // ---- Order statistics ----

  ghost predicate Sorts(sorted: seq<nat>, values: seq<nat>) {
    multiset(sorted) == multiset(values) && forall i, j :: 0 <= i < j < |sorted| ==> sorted[i] <= sorted[j]
  }

  lemma {:induction false} CountWithout(values: seq<nat>, i: nat, v: nat)
    requires i < |values|
    ensures CountAtMost(values, v) == CountAtMost(values[..i] + values[i + 1..], v) + (if values[i] <= v then 1 else 0)
    decreases |values|
  {
    var n, rest := |values| - 1, values[..i] + values[i + 1..];
    if i == n {
      assert rest == values[..n];
    } else {
      CountWithout(values[..n], i, v);
      assert rest[..n - 1] == values[..n][..i] + values[..n][i + 1..] && rest[n - 1] == values[n];
    }
  }

  /** The last value of one listing found in another, and what the two hold besides it. */
  lemma LastInOther(xs: seq<nat>, ys: seq<nat>) returns (i: nat)
    requires multiset(xs) == multiset(ys) && xs != []
    ensures i < |ys| && ys[i] == xs[|xs| - 1]
    ensures multiset(xs[..|xs| - 1]) == multiset(ys[..i] + ys[i + 1..])
  {
    var rest, x := xs[..|xs| - 1], xs[|xs| - 1];
    assert xs == rest + [x];
    assert x in multiset(ys);
    i :| i < |ys| && ys[i] == x;
    assert ys == ys[..i] + [x] + ys[i + 1..];
    assert multiset(rest) + multiset{x} == multiset(ys[..i] + ys[i + 1..]) + multiset{x};
    Cancels(multiset(rest), multiset(ys[..i] + ys[i + 1..]), x);
  }

  lemma Cancels(a: multiset<nat>, b: multiset<nat>, x: nat)
    requires a + multiset{x} == b + multiset{x}
    ensures a == b
  {
    assert a == (a + multiset{x}) - multiset{x} && b == (b + multiset{x}) - multiset{x};
  }

  /** Counting does not depend on the order. */
  lemma {:induction false} CountOfMultiset(xs: seq<nat>, ys: seq<nat>, v: nat)
    requires multiset(xs) == multiset(ys)
    ensures CountAtMost(xs, v) == CountAtMost(ys, v)
    decreases |xs|
  {
    if xs == [] {
      assert |ys| == |multiset(ys)| == 0;
    } else {
      var i := LastInOther(xs, ys);
      CountOfMultiset(xs[..|xs| - 1], ys[..i] + ys[i + 1..], v);
      CountWithout(ys, i, v);
    }
  }

  /** In sorted order at least `n` values are at or below `v` exactly if the `n`-th is. */
  lemma {:induction false} CountInSorted(sorted: seq<nat>, v: nat, n: nat)
    requires forall i, j :: 0 <= i < j < |sorted| ==> sorted[i] <= sorted[j]
    requires 1 <= n <= |sorted|
    ensures CountAtMost(sorted, v) >= n <==> sorted[n - 1] <= v
    decreases |sorted|
  {
    var last := |sorted| - 1;
    if n <= last {
      CountInSorted(sorted[..last], v, n);
    } else {
      CountMonotone(sorted[..last], v, v);
      if sorted[last] <= v { CountAll(sorted[..last], v); }
    }
  }

  /** What a percentile returns is the least bound at or above the exact order statistic of the sorted values. */
  lemma BoundCoversOrderStatistic(values: seq<nat>, sorted: seq<nat>, bounds: seq<nat>, bound: nat, target: nat)
    requires Sorts(sorted, values) && 1 <= target <= |sorted|
    requires CountAtMost(values, bound) >= target
    requires forall i :: 0 <= i < |bounds| && bounds[i] < bound ==> CountAtMost(values, bounds[i]) < target
    ensures sorted[target - 1] <= bound
    ensures forall i :: 0 <= i < |bounds| && bounds[i] < bound ==> bounds[i] < sorted[target - 1]
  {
    CountOfMultiset(values, sorted, bound);
    CountInSorted(sorted, bound, target);
    forall i | 0 <= i < |bounds| && bounds[i] < bound ensures bounds[i] < sorted[target - 1] {
      CountOfMultiset(values, sorted, bounds[i]);
      CountInSorted(sorted, bounds[i], target);
    }
  }

  lemma TargetWithinTotal(total: nat, pct: nat)
    requires pct <= 100
    ensures Target(total, pct) <= total
    ensures total > 0 && pct > 0 ==> Target(total, pct) > 0
  {
    assert total * pct <= total * 100;
    if total > 0 && pct > 0 { assert total * pct >= 1; }
  }

  // ---- The code ----

  class Histogram {
    const bounds: seq<nat>
    var counts: seq<nat>
    var total: nat
    var sum: nat
    /** Everything recorded so far. */
    ghost var values: seq<nat>

    /** Up to each bound, the buckets together count the values at or below it. */
    ghost predicate Valid()
      reads this
    {
      && Ascending(bounds) && bounds[|bounds| - 1] == U64_MAX
      && |counts| == |bounds| && total == |values| && sum == SumOf(values)
      && (forall i :: 0 <= i < |values| ==> values[i] <= U64_MAX)
      && forall n :: 0 <= n < |bounds| ==> SumTo(counts, n + 1) == CountAtMost(values, bounds[n])
    }

    constructor ()
      ensures Valid() && values == []
      ensures bounds == [
        1_000, 5_000, 10_000, 50_000, 100_000, 500_000, 1_000_000, 5_000_000, 10_000_000, 50_000_000, 100_000_000,
        500_000_000, 1_000_000_000, 5_000_000_000, 10_000_000_000, 60_000_000_000, 0xFFFF_FFFF_FFFF_FFFF]
    {
      bounds := BOUNDS;
      counts := seq(|BOUNDS|, i => 0);
      total, sum, values := 0, 0, [];
      new;
      forall m | 0 < m <= |bounds| ensures SumTo(counts, m) == 0 {
        SumOfZeros(counts, m);
      }
    }

    /** The value goes into the first bucket whose bound it does not exceed. */
    method Record(value: nat)
      requires Valid() && value <= U64_MAX
      modifies this
      ensures Valid() && values == old(values) + [value]
    {
      var k := Bucket(value);
      ghost var after := values + [value];
      forall n | 0 <= n < |bounds|
        ensures SumTo(counts[k := counts[k] + 1], n + 1) == CountAtMost(after, bounds[n])
      {
        SumAfterBump(counts, k, n + 1);
        CountOneMore(values, value, bounds[n]);
      }
      SumOneMore(values, value);
      total, sum := total + 1, sum + value;
      counts := counts[k := counts[k] + 1];
      values := after;
    }

    /** The loop over the buckets stops at the first one whose bound the value does not exceed. */
    method Bucket(value: nat) returns (k: nat)
      requires Ascending(bounds) && bounds[|bounds| - 1] == U64_MAX && value <= U64_MAX
      ensures k < |bounds| && value <= bounds[k]
      ensures forall i :: 0 <= i < k ==> bounds[i] < value
    {
      k := 0;
      while value > bounds[k]
        invariant k < |bounds|
        invariant forall i :: 0 <= i < k ==> bounds[i] < value
        decreases |bounds| - k
      {
        k := k + 1;
      }
    }

    /** The mean, rounded down; zero when nothing was recorded. */
    method Avg() returns (r: nat)
      requires Valid()
      ensures values == [] ==> r == 0
      ensures values != [] ==> r * |values| <= SumOf(values) < (r + 1) * |values|
    {
      r := if total == 0 then 0 else sum / total;
    }

    /** The least bound that covers the target share; the fall-through behind the loop is never reached. */
    method Percentile(pct: nat) returns (r: nat)
      requires Valid() && pct <= 100
      ensures total == 0 ==> r == 0
      ensures total > 0 ==>
                && r in bounds
                && CountAtMost(values, r) >= Target(total, pct)
                && forall i :: 0 <= i < |bounds| && bounds[i] < r ==>
                                 CountAtMost(values, bounds[i]) < Target(total, pct)
    {
      if total == 0 {
        return 0;
      }
      var target := Target(total, pct);
      var cumulative := 0;
      for k := 0 to |bounds|
        invariant cumulative == SumTo(counts, k)
        invariant forall i :: 0 <= i < k ==> CountAtMost(values, bounds[i]) < target
      {
        cumulative := cumulative + counts[k];
        assert SumTo(counts, k + 1) == CountAtMost(values, bounds[k]);
        if cumulative >= target {
          return bounds[k];
        }
      }
      CountAll(values, U64_MAX);
      TargetWithinTotal(total, pct);
      assert false;
    }
  }

  lemma {:induction false} SumOfZeros(counts: seq<nat>, n: nat)
    requires n <= |counts| && forall i :: 0 <= i < |counts| ==> counts[i] == 0
    ensures SumTo(counts, n) == 0
  {
    if n > 0 {
      SumOfZeros(counts, n - 1);
    }
  }
}
