/** The table scans of the kernel: the first slot, in index order, that satisfies a test. */
module Search {
  import opened Words

  function FirstIn<T>(xs: seq<T>, p: T -> bool, lo: nat, hi: nat): (r: Option<nat>)
    requires lo <= hi <= |xs|
    ensures r.Some? ==> lo <= r.value < hi && p(xs[r.value])
    ensures r.Some? ==> forall j :: lo <= j < r.value ==> !p(xs[j])
    ensures r.None? ==> forall j :: lo <= j < hi ==> !p(xs[j])
    decreases hi - lo
  {
    if lo == hi then None
    else if p(xs[lo]) then Some(lo)
    else FirstIn(xs, p, lo + 1, hi)
  }

  function First<T>(xs: seq<T>, p: T -> bool): Option<nat> {
    FirstIn(xs, p, 0, |xs|)
  }
}
