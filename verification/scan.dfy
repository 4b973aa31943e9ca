/**
 * The nearest-target scan that PredatorController.PickTarget and
 * FireflyController.PickTarget both run over the result of
 * Object.FindObjectsByType: a running minimum over the scene's agents of one
 * type, in the order the engine returns them, skipping the entries that do
 * not qualify and keeping the first of several at the least distance
 * (the comparison is a strict `<`).
 */
module Scan {
  import opened Engine

  /**
   * One entry of a scene lookup, as the scanning agent sees it: whether it
   * qualifies as a target (it exists and passes the caller's filters) and its
   * distance from the scanning agent.
   */
  datatype Candidate = Candidate(eligible: bool, dist: real)

  /** `k` is the first eligible candidate of `c` at the least distance. */
  ghost predicate IsFirstNearest(c: seq<Candidate>, k: int) {
    && 0 <= k < |c|
    && c[k].eligible
    && (forall j :: 0 <= j < |c| && c[j].eligible ==> c[k].dist <= c[j].dist)
    && (forall j :: 0 <= j < k && c[j].eligible ==> c[k].dist < c[j].dist)
  }

  ghost predicate NoneEligible(c: seq<Candidate>) {
    forall j :: 0 <= j < |c| ==> !c[j].eligible
  }

  /** The scan of the first `n` candidates, as the source's loop computes it. */
  function NearestIn(c: seq<Candidate>, n: nat): (r: Option<nat>)
    requires n <= |c|
    ensures r.Some? ==> r.value < n && c[r.value].eligible
  {
    if n == 0 then None
    else
      var best := NearestIn(c, n - 1);
      if c[n - 1].eligible && (best.None? || c[n - 1].dist < c[best.value].dist)
      then Some(n - 1) else best
  }

  /** The result of scanning all of `c`. */
  function Nearest(c: seq<Candidate>): Option<nat> {
    NearestIn(c, |c|)
  }

  /**
   * The running minimum finds exactly the first nearest eligible candidate,
   * and finds nothing exactly when no candidate is eligible.
   */
  lemma {:induction false} NearestInIsFirstNearest(c: seq<Candidate>, n: nat)
    requires n <= |c|
    ensures NearestIn(c, n).None? <==> NoneEligible(c[..n])
    ensures NearestIn(c, n).Some? ==> IsFirstNearest(c[..n], NearestIn(c, n).value)
  {
    if n > 0 {
      NearestInIsFirstNearest(c, n - 1);
      assert c[..n][..n - 1] == c[..n - 1];
      var best := NearestIn(c, n - 1);
      if best.Some? {
        assert IsFirstNearest(c[..n - 1], best.value);
      }
    }
  }

  lemma NearestIsFirstNearest(c: seq<Candidate>)
    ensures Nearest(c).None? <==> NoneEligible(c)
    ensures Nearest(c).Some? ==> IsFirstNearest(c, Nearest(c).value)
  {
    NearestInIsFirstNearest(c, |c|);
    assert c[..|c|] == c;
  }

  /** The first nearest candidate is unique: the scan order breaks every tie. */
  lemma FirstNearestUnique(c: seq<Candidate>, k1: int, k2: int)
    requires IsFirstNearest(c, k1) && IsFirstNearest(c, k2)
    ensures k1 == k2
  {
  }

  /**
   * The scan loop of PickTarget: `nearest` starts as null and `nearestDist`
   * as infinity (here: no best yet), and a qualifying entry strictly closer
   * than the best so far replaces it.
   */
  method FirstNearest(c: seq<Candidate>) returns (nearest: Option<nat>)
    ensures nearest == Nearest(c)
    ensures nearest.None? <==> NoneEligible(c)
    ensures nearest.Some? ==> IsFirstNearest(c, nearest.value)
  {
    nearest := None;
    var nearestDist := 0.0;
    for i := 0 to |c|
      invariant nearest == NearestIn(c, i)
      invariant nearest.Some? ==> nearest.value < i && nearestDist == c[nearest.value].dist
    {
      if c[i].eligible && (nearest.None? || c[i].dist < nearestDist) {
        nearest := Some(i);
        nearestDist := c[i].dist;
      }
    }
    NearestIsFirstNearest(c);
  }
}
