/** Sequence helpers: filtering by a mask, counting, sums. */
module Seqs {

  /** The elements of `xs` whose mask entry is true, in order. */
  function Filter<T>(xs: seq<T>, keep: seq<bool>): (r: seq<T>)
    requires |xs| == |keep|
    ensures |r| <= |xs|
  {
    if xs == [] then []
    else
      var n := |xs| - 1;
      Filter(xs[..n], keep[..n]) + (if keep[n] then [xs[n]] else [])
  }

  /** Number of true entries. */
  function CountTrue(bs: seq<bool>): (n: nat)
    ensures n <= |bs|
  {
    if bs == [] then 0 else CountTrue(bs[..|bs| - 1]) + (if bs[|bs| - 1] then 1 else 0)
  }

  function Sum(xs: seq<real>): real {
    if xs == [] then 0.0 else xs[0] + Sum(xs[1..])
  }

  /** Filtering an extended sequence extends the filtered prefix. */
  lemma FilterSnoc<T>(xs: seq<T>, keep: seq<bool>, x: T, b: bool)
    requires |xs| == |keep|
    ensures Filter(xs + [x], keep + [b]) == Filter(xs, keep) + (if b then [x] else [])
  {
    assert (xs + [x])[..|xs|] == xs && (keep + [b])[..|keep|] == keep;
  }

  lemma CountTrueSnoc(bs: seq<bool>, b: bool)
    ensures CountTrue(bs + [b]) == CountTrue(bs) + (if b then 1 else 0)
  {
    assert (bs + [b])[..|bs|] == bs;
  }
}
