/** The descriptor matcher of `useFaceAuth`: a strict below-threshold test
    on the distance of two face descriptors, and a single scan over the
    stored descriptors keeping the closest one below the threshold.
    The distance is the detector library's Euclidean distance; the model
    takes it as a parameter and assumes of it only what a lemma asks for. */
module FaceAuth {
  import opened Common

  /** A face descriptor (a fixed-length embedding vector). */
  type Descriptor = seq<real>

  /** A distance function between descriptors. */
  type DistanceFn = (Descriptor, Descriptor) -> real

  /** What the library's Euclidean distance satisfies. */
  ghost predicate IsDistance(dist: DistanceFn) {
    && (forall a, b :: dist(a, b) >= 0.0)
    && (forall a, b :: dist(a, b) == dist(b, a))
    && (forall a :: dist(a, a) == 0.0)
  }

  const DefaultThreshold: real := 0.5

  /** A stored enrolment entry: a descriptor and the label (`name`) of its owner. */
  datatype StoredFace = StoredFace(descriptor: Descriptor, name: string)

  /** A distance or JavaScript's `Infinity`. */
  datatype Extended = Inf | Fin(value: real)

  datatype MatchResult = MatchResult(matched: bool, name: Option<string>, distance: Extended)

  /** The accumulator the scan starts from, and its answer when nothing
      lies below the threshold. */
  const NoMatch: MatchResult := MatchResult(false, None, Inf)

  /** `compareFaces`: the two descriptors are closer than the threshold. */
  function CompareFaces(d1: Descriptor, d2: Descriptor, dist: DistanceFn, threshold: real := DefaultThreshold): bool {
    dist(d1, d2) < threshold
  }

  /** A descriptor always matches itself under a positive threshold. */
  lemma CompareFacesReflexive(d: Descriptor, threshold: real, dist: DistanceFn)
    requires IsDistance(dist) && threshold > 0.0
    ensures CompareFaces(d, d, dist, threshold)
  {
  }

  /** The comparison does not depend on argument order. */
  lemma CompareFacesSymmetric(d1: Descriptor, d2: Descriptor, threshold: real, dist: DistanceFn)
    requires IsDistance(dist)
    ensures CompareFaces(d1, d2, dist, threshold) == CompareFaces(d2, d1, dist, threshold)
  {
  }

  /** No distance function can make a non-positive threshold match. */
  lemma NonPositiveThresholdNeverMatches(d1: Descriptor, d2: Descriptor, threshold: real, dist: DistanceFn)
    requires IsDistance(dist) && threshold <= 0.0
    ensures !CompareFaces(d1, d2, dist, threshold)
  {
  }

  function DistanceTo(query: Descriptor, stored: seq<StoredFace>, i: int, dist: DistanceFn): real
    requires 0 <= i < |stored|
  {
    dist(query, stored[i].descriptor)
  }

  /** Entry `k` is what the scan keeps: below the threshold, no farther than
      any entry below the threshold, and strictly closer than every earlier
      entry below the threshold (the first of equally close entries wins). */
  ghost predicate IsBestEntry(query: Descriptor, stored: seq<StoredFace>, threshold: real, dist: DistanceFn, k: int) {
    && 0 <= k < |stored|
    && DistanceTo(query, stored, k, dist) < threshold
    && (forall j :: 0 <= j < |stored| && DistanceTo(query, stored, j, dist) < threshold ==>
          DistanceTo(query, stored, k, dist) <= DistanceTo(query, stored, j, dist))
    && (forall j :: 0 <= j < k && DistanceTo(query, stored, j, dist) < threshold ==>
          DistanceTo(query, stored, k, dist) < DistanceTo(query, stored, j, dist))
  }

  /** `r` is the answer `findMatchingFace` owes: the best entry's label and
      distance if some entry lies below the threshold, else `NoMatch`. */
  ghost predicate IsMatchFor(r: MatchResult, query: Descriptor, stored: seq<StoredFace>, threshold: real, dist: DistanceFn) {
    if exists i :: 0 <= i < |stored| && CompareFaces(query, stored[i].descriptor, dist, threshold) then
      exists k :: IsBestEntry(query, stored, threshold, dist, k)
                  && r == MatchResult(true, Some(stored[k].name), Fin(DistanceTo(query, stored, k, dist)))
    else
      r == NoMatch
  }

  /** `findMatchingFace`: one pass over the stored entries, replacing the
      best-so-far only by an entry below the threshold and strictly closer. */
  method FindMatchingFace(query: Descriptor, stored: seq<StoredFace>, dist: DistanceFn,
                          threshold: real := DefaultThreshold)
    returns (best: MatchResult)
    ensures best.matched <==> exists i :: 0 <= i < |stored| && CompareFaces(query, stored[i].descriptor, dist, threshold)
    ensures IsMatchFor(best, query, stored, threshold, dist)
  {
    best := NoMatch;
    ghost var k := -1;
    for i := 0 to |stored|
      invariant !best.matched <==> forall j :: 0 <= j < i ==> DistanceTo(query, stored, j, dist) >= threshold
      invariant !best.matched ==> best == NoMatch && k == -1
      invariant best.matched ==> 0 <= k < i
      invariant best.matched ==> best == MatchResult(true, Some(stored[k].name), Fin(DistanceTo(query, stored, k, dist)))
      invariant best.matched ==> DistanceTo(query, stored, k, dist) < threshold
      invariant best.matched ==> forall j :: 0 <= j < i && DistanceTo(query, stored, j, dist) < threshold ==>
                                   DistanceTo(query, stored, k, dist) <= DistanceTo(query, stored, j, dist)
      invariant best.matched ==> forall j :: 0 <= j < k && DistanceTo(query, stored, j, dist) < threshold ==>
                                   DistanceTo(query, stored, k, dist) < DistanceTo(query, stored, j, dist)
    {
      var distance := dist(query, stored[i].descriptor);
      assert distance == DistanceTo(query, stored, i, dist);
      if distance < threshold && (best.distance.Inf? || distance < best.distance.value) {
        best := MatchResult(true, Some(stored[i].name), Fin(distance));
        k := i;
      }
    }
    if best.matched {
      assert IsBestEntry(query, stored, threshold, dist, k);
      assert CompareFaces(query, stored[k].descriptor, dist, threshold);
    } else {
      assert forall i :: 0 <= i < |stored| ==> !CompareFaces(query, stored[i].descriptor, dist, threshold) by {
        forall i | 0 <= i < |stored| ensures !CompareFaces(query, stored[i].descriptor, dist, threshold) {
          assert DistanceTo(query, stored, i, dist) >= threshold;
        }
      }
    }
  }

  /** With nothing stored the answer is no match at an infinite distance. */
  lemma EmptyStoreNeverMatches(r: MatchResult, query: Descriptor, threshold: real, dist: DistanceFn)
    requires IsMatchFor(r, query, [], threshold, dist)
    ensures r == NoMatch
  {
  }

  /** The scan's answer is determined: at most one entry is the best one. */
  lemma BestEntryUnique(query: Descriptor, stored: seq<StoredFace>, threshold: real, dist: DistanceFn, k1: int, k2: int)
    requires IsBestEntry(query, stored, threshold, dist, k1)
    requires IsBestEntry(query, stored, threshold, dist, k2)
    ensures k1 == k2
  {
  }

  /** No two entries below the threshold are equally far from the query. */
  ghost predicate DistinctBelowThreshold(query: Descriptor, stored: seq<StoredFace>, threshold: real, dist: DistanceFn) {
    forall i, j :: 0 <= i < |stored| && 0 <= j < |stored| && i != j
      && DistanceTo(query, stored, i, dist) < threshold && DistanceTo(query, stored, j, dist) < threshold
      ==> DistanceTo(query, stored, i, dist) != DistanceTo(query, stored, j, dist)
  }

  /** When no two candidates below the threshold are equidistant, the answer
      does not depend on the order in which the entries are stored. */
  lemma MatchIndependentOfOrder(query: Descriptor, stored: seq<StoredFace>, reordered: seq<StoredFace>,
                                threshold: real, dist: DistanceFn, r1: MatchResult, r2: MatchResult)
    requires multiset(stored) == multiset(reordered)
    requires DistinctBelowThreshold(query, stored, threshold, dist)
    requires IsMatchFor(r1, query, stored, threshold, dist)
    requires IsMatchFor(r2, query, reordered, threshold, dist)
    ensures r1 == r2
  {
    var some1 := exists i :: 0 <= i < |stored| && CompareFaces(query, stored[i].descriptor, dist, threshold);
    var some2 := exists i :: 0 <= i < |reordered| && CompareFaces(query, reordered[i].descriptor, dist, threshold);
    if some1 {
      var i :| 0 <= i < |stored| && CompareFaces(query, stored[i].descriptor, dist, threshold);
      var j := IndexIn(stored[i], reordered);
      assert CompareFaces(query, reordered[j].descriptor, dist, threshold);
    }
    if some2 {
      var i :| 0 <= i < |reordered| && CompareFaces(query, reordered[i].descriptor, dist, threshold);
      var j := IndexIn(reordered[i], stored);
      assert CompareFaces(query, stored[j].descriptor, dist, threshold);
    }
    assert some1 == some2;
    if some1 {
      var k1 :| IsBestEntry(query, stored, threshold, dist, k1)
                && r1 == MatchResult(true, Some(stored[k1].name), Fin(DistanceTo(query, stored, k1, dist)));
      var k2 :| IsBestEntry(query, reordered, threshold, dist, k2)
                && r2 == MatchResult(true, Some(reordered[k2].name), Fin(DistanceTo(query, reordered, k2, dist)));
      var i1 := IndexIn(reordered[k2], stored);
      var i2 := IndexIn(stored[k1], reordered);
      assert DistanceTo(query, stored, k1, dist) <= DistanceTo(query, stored, i1, dist);
      assert DistanceTo(query, reordered, k2, dist) <= DistanceTo(query, reordered, i2, dist);
      assert i1 == k1;
    }
  }

  /** An index at which a member of the multiset of `s` occurs in `s`. */
  lemma IndexIn(x: StoredFace, s: seq<StoredFace>) returns (i: int)
    requires x in multiset(s)
    ensures 0 <= i < |s| && s[i] == x
  {
    assert x in s;
    i :| 0 <= i < |s| && s[i] == x;
  }
}
