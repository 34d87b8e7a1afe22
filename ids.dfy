/** The id-bumping rule shared by ingestion and the storage retry: walk a
    list of ids and, whenever one is at least the candidate, move the
    candidate just past it. */
module Ids {

  /** The least id that is at least `start` and above every id in `ids`:
      max(start, 1 + max ids). */
  function MaxAbove(start: int, ids: seq<int>): (r: int)
    ensures r >= start
    ensures forall k :: 0 <= k < |ids| ==> ids[k] < r
    ensures r == start || exists k :: 0 <= k < |ids| && r == ids[k] + 1
    decreases |ids|
  {
    if ids == [] then start
    else
      var m := MaxAbove(start, ids[..|ids| - 1]);
      var last := ids[|ids| - 1];
      assert forall k :: 0 <= k < |ids| - 1 ==> ids[k] == ids[..|ids| - 1][k];
      if last >= m then last + 1 else m
  }

  /** One more id in the walk. */
  lemma MaxAboveSnoc(start: int, ids: seq<int>, x: int)
    ensures MaxAbove(start, ids + [x]) ==
      if x >= MaxAbove(start, ids) then x + 1 else MaxAbove(start, ids)
  {
    assert (ids + [x])[..|ids|] == ids;
  }
}
