/** Sums over the peers of a host. */
module Totals {
  function Total(values: seq<nat>): nat {
    if values == [] then 0 else Total(values[..|values| - 1]) + values[|values| - 1]
  }

  lemma {:induction false} TotalUpdate(values: seq<nat>, k: nat, v: nat)
    requires k < |values|
    ensures Total(values[k := v]) + values[k] == Total(values) + v
  {
    var n := |values| - 1;
    if k < n {
      TotalUpdate(values[..n], k, v);
      assert values[k := v][..n] == values[..n][k := v];
    } else {
      assert values[k := v][..n] == values[..n];
    }
  }

  lemma {:induction false} TotalCovers(values: seq<nat>, k: nat)
    requires k < |values|
    ensures values[k] <= Total(values)
  {
    TotalUpdate(values, k, 0);
  }

  lemma {:induction false} TotalBelow(small: seq<nat>, large: seq<nat>)
    requires |small| == |large| && forall i :: 0 <= i < |small| ==> small[i] <= large[i]
    ensures Total(small) <= Total(large)
  {
    if small != [] { TotalBelow(small[..|small| - 1], large[..|large| - 1]); }
  }

  lemma {:induction false} TotalSplits(a: seq<nat>, b: seq<nat>, sum: seq<nat>)
    requires |a| == |b| == |sum| && forall i :: 0 <= i < |a| ==> sum[i] == a[i] + b[i]
    ensures Total(sum) == Total(a) + Total(b)
  {
    if a != [] { TotalSplits(a[..|a| - 1], b[..|b| - 1], sum[..|sum| - 1]); }
  }
}
