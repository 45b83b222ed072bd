/** Ordered scans with early exit, shared by the classifier and the parser. */
module Scans {
  import opened Wrappers

  /** Index of the first element satisfying `hit`. */
  function FirstMatch<T>(xs: seq<T>, hit: T -> bool): (r: Option<nat>)
    ensures r.Some? ==> r.value < |xs| && hit(xs[r.value])
    ensures r.Some? ==> forall j :: 0 <= j < r.value ==> !hit(xs[j])
    ensures r.None? ==> forall j :: 0 <= j < |xs| ==> !hit(xs[j])
    decreases |xs|
  {
    if xs == [] then None
    else if hit(xs[0]) then Some(0)
    else
      var r := FirstMatch(xs[1..], hit);
      assert forall j :: 1 <= j < |xs| ==> xs[1..][j - 1] == xs[j];
      match r
      case None => None
      case Some(i) => Some(i + 1)
  }

  /** Index of the last element satisfying `hit`. */
  function LastMatch<T>(xs: seq<T>, hit: T -> bool): (r: Option<nat>)
    ensures r.Some? ==> r.value < |xs| && hit(xs[r.value])
    ensures r.Some? ==> forall j :: r.value < j < |xs| ==> !hit(xs[j])
    ensures r.None? ==> forall j :: 0 <= j < |xs| ==> !hit(xs[j])
    decreases |xs|
  {
    if xs == [] then None
    else if hit(xs[|xs| - 1]) then Some(|xs| - 1)
    else
      var init := xs[..|xs| - 1];
      assert forall j :: 0 <= j < |init| ==> init[j] == xs[j];
      LastMatch(init, hit)
  }
}
