/** std::bsearch, which both formats look their keys up with. */
module BinarySearch {
  import opened Bytes

  /** The comparison is positive in front of where the key belongs, and negative behind. */
  ghost predicate Ascending(n: nat, cmp: nat -> int)
  {
    forall i: nat, j: nat :: i < j < n ==> (cmp(i) < 0 ==> cmp(j) < 0) && (cmp(j) > 0 ==> cmp(i) > 0)
  }

  /** `cmp(i)` compares the key with element `i`. */
  method Search(n: nat, cmp: nat -> int) returns (r: Option<nat>)
    requires Ascending(n, cmp)
    ensures r.Some? ==> r.value < n && cmp(r.value) == 0
    ensures r.None? ==> forall i: nat :: i < n ==> cmp(i) != 0
  {
    var lo, hi := 0, n;
    while lo < hi
      invariant 0 <= lo <= hi <= n
      invariant forall i: nat :: i < lo ==> cmp(i) > 0
      invariant forall i: nat :: hi <= i < n ==> cmp(i) < 0
    {
      var mid := lo + (hi - lo) / 2;
      var c := cmp(mid);
      if c == 0 {
        return Some(mid);
      } else if c < 0 {
        hi := mid;
      } else {
        lo := mid + 1;
      }
    }
    return None;
  }
}
