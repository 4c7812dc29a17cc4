/** The points table of `get_point_allocation`. */
module Scoring {

  /** Points by finishing place for a report of `podLen` placements. */
  function PointAllocation(podLen: int): seq<int> {
    if podLen == 4 then [4, 3, 2, 1]
    else if podLen == 3 then [4, 3, 2]
    else if podLen == 2 then [3, 2]
    else [2]
  }

  predicate StrictlyDescending(s: seq<int>) {
    forall i, j :: 0 <= i < j < |s| ==> s[i] > s[j]
  }

  /** The award the help text advertises for `place` (1-based) in a pod of `podSize` players. */
  function AdvertisedPoints(podSize: int, place: int): int {
    if podSize == 1 then 2          // "1-player pod(auto win): 1st=2"
    else if podSize == 2 then 3 - (place - 1)
    else 4 - (place - 1)
  }

  /**
   * Every vector is strictly descending and awards at least 1; it has one entry
   * per placement for 1 to 4 placements and a single entry otherwise.
   */
  lemma PointAllocationShape(podLen: int)
    ensures StrictlyDescending(PointAllocation(podLen))
    ensures forall k :: 0 <= k < |PointAllocation(podLen)| ==> PointAllocation(podLen)[k] >= 1
    ensures |PointAllocation(podLen)| == if 1 <= podLen <= 4 then podLen else 1
    ensures PointAllocation(podLen)[0] == if podLen == 2 then 3 else if podLen == 3 || podLen == 4 then 4 else 2
  {
  }

  /** The table agrees, place by place, with the help text's points system for pods of 1 to 4. */
  lemma PointAllocationMatchesHelp(podLen: int, place: int)
    requires 1 <= podLen <= 4 && 1 <= place <= podLen
    ensures PointAllocation(podLen)[place - 1] == AdvertisedPoints(podLen, place)
  {
  }
}
