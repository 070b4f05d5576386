/** Identifier allocation shared by the product, order and user tables: a new
    record gets the largest identifier so far plus one, or 1 in an empty
    table. */
module Ids {
  import opened Common

  /** `[key(x) for x in xs]`: the identifiers of a table's records. */
  function Project<T>(xs: seq<T>, key: T -> int): (r: seq<int>)
    ensures |r| == |xs| && forall i :: 0 <= i < |xs| ==> r[i] == key(xs[i])
  {
    if xs == [] then [] else Project(xs[..|xs| - 1], key) + [key(xs[|xs| - 1])]
  }

  /** Python's `max(ids)` on a non-empty list. */
  function Max(ids: seq<int>): (m: int)
    requires |ids| > 0
    ensures forall i :: 0 <= i < |ids| ==> ids[i] <= m
    ensures exists i :: 0 <= i < |ids| && ids[i] == m
  {
    if |ids| == 1 then ids[0]
    else
      var m := Max(ids[..|ids| - 1]);
      if ids[|ids| - 1] > m then ids[|ids| - 1] else m
  }

  /** 1 when there are no identifiers, otherwise `max(ids) + 1`. */
  function NextId(ids: seq<int>): (r: int)
    ensures ids == [] ==> r == 1
    ensures forall i :: 0 <= i < |ids| ==> ids[i] < r
    ensures ids != [] ==> exists i :: 0 <= i < |ids| && r == ids[i] + 1
  {
    if ids == [] then 1 else Max(ids) + 1
  }

  /** `next(i for i, x in enumerate(ids) if x == id)`: the first position
      holding `id`, or None. */
  function FirstIndex(ids: seq<int>, id: int): (r: Option<nat>)
    ensures r.Some? ==> r.value < |ids| && ids[r.value] == id
    ensures r.Some? ==> forall j :: 0 <= j < r.value ==> ids[j] != id
    ensures r.None? <==> forall j :: 0 <= j < |ids| ==> ids[j] != id
  {
    if ids == [] then None
    else if ids[0] == id then Some(0)
    else match FirstIndex(ids[1..], id)
      case None => None
      case Some(k) => Some(k + 1)
  }

  /** No identifier occurs twice. */
  predicate Distinct(ids: seq<int>)
  {
    forall i, j :: 0 <= i < j < |ids| ==> ids[i] != ids[j]
  }
}
