/** LUN and namespace id allocation. */
module Alloc {

  function Above(used: set<int>, c: int): set<int> { set x | x in used && c <= x }

  /** The least integer from `c` upwards that is not in `used`. */
  function LeastFree(used: set<int>, c: int): (r: int)
    ensures r >= c && r !in used
    ensures forall x :: c <= x < r ==> x in used
    decreases Above(used, c)
  {
    if c in used then
      assert c in Above(used, c) && c !in Above(used, c + 1);
      LeastFree(used, c + 1)
    else c
  }

  function ToSet(used: seq<int>): set<int> { set x | x in used }

  lemma LeastFreeUnique(used: set<int>, c: int, r: int)
    requires r >= c && r !in used
    requires forall x :: c <= x < r ==> x in used
    ensures r == LeastFree(used, c)
  {
  }

  lemma {:induction false} RangeSize(used: set<int>, c: int, r: int)
    requires c <= r
    requires forall x :: c <= x < r ==> x in used
    ensures r - c <= |used|
    decreases r - c
  {
    if c < r {
      RangeSize(used - {r - 1}, c, r - 1);
    }
  }

  /** Pigeonhole: an allocated id exceeds its start value by at most the number of ids in use. */
  lemma LeastFreeTight(used: set<int>, c: int)
    ensures LeastFree(used, c) <= c + |used|
  {
    RangeSize(used, c, LeastFree(used, c));
  }

  method AllocateLun(used: seq<int>) returns (candidate: int)
    ensures candidate == LeastFree(ToSet(used), 0)
  {
    var usedSet := ToSet(used);
    candidate := 0;
    while candidate in usedSet
      invariant candidate >= 0 && forall x :: 0 <= x < candidate ==> x in usedSet
      decreases Above(usedSet, candidate)
    {
      assert candidate in Above(usedSet, candidate) && candidate !in Above(usedSet, candidate + 1);
      candidate := candidate + 1;
    }
    LeastFreeUnique(usedSet, 0, candidate);
  }

  /** NSID 0 is reserved: the result is at least 1. */
  method AllocateNsid(used: seq<int>) returns (candidate: int)
    ensures candidate == LeastFree(ToSet(used), 1)
  {
    var usedSet := ToSet(used);
    candidate := 1;
    while candidate in usedSet
      invariant candidate >= 1 && forall x :: 1 <= x < candidate ==> x in usedSet
      decreases Above(usedSet, candidate)
    {
      assert candidate in Above(usedSet, candidate) && candidate !in Above(usedSet, candidate + 1);
      candidate := candidate + 1;
    }
    LeastFreeUnique(usedSet, 1, candidate);
  }

  /** The ids from the base up, shifted down by the base. */
  function Normalized(used: seq<int>, base: int): (n: seq<int>)
    ensures forall x :: x in n <==> x >= 0 && x + base in used
  {
    if used == [] then []
    else
      var rest := Normalized(used[1..], base);
      assert used == [used[0]] + used[1..];
      if used[0] >= base then [used[0] - base] + rest else rest
  }

  method AllocateLunFromBase(used: seq<int>, base: int) returns (lun: int)
    ensures lun == LeastFree(ToSet(used), base)
  {
    var normalized := Normalized(used, base);
    var offset := AllocateLun(normalized);
    lun := offset + base;
    forall x | base <= x < lun
      ensures x in ToSet(used)
    {
      assert x - base in ToSet(normalized);
    }
    LeastFreeUnique(ToSet(used), base, lun);
  }
}
