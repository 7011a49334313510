/** Swift's `firstIndex(where:)`, the one search every core file uses. */
module Search {
  import opened Options

  /**
   * The first position, from `i` on, whose element satisfies `p`; `None` when no
   * element from `i` on does.
   */
  function FirstIndex<T>(s: seq<T>, p: T -> bool, i: nat): (r: Option<nat>)
    requires i <= |s|
    ensures r.Some? ==>
      && i <= r.value < |s|
      && p(s[r.value])
      && forall j :: i <= j < r.value ==> !p(s[j])
    ensures r.None? <==> forall j :: i <= j < |s| ==> !p(s[j])
    decreases |s| - i
  {
    if i == |s| then None
    else if p(s[i]) then Some(i)
    else FirstIndex(s, p, i + 1)
  }
}
