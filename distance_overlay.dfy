/**
 * The distance script's frame body: one translation vector and one pixel
 * center per detected marker, then a label for every unordered pair of
 * markers, placed at the truncated midpoint of their centers.
 */
module DistanceOverlay {
  import opened Wrappers
  import opened Geometry
  import opened Pairs

  /**
   * What the library reports for marker i: the translation vector from the
   * pose solve (type V, left abstract) and the integer mean of its corners.
   */
  datatype Observation<V> = Observation(tvec: V, center: Point)

  /**
   * One overlay entry for the pair (first, second): the line between the two
   * centers, the two translation vectors the distance text is computed from,
   * and the text's origin.
   */
  datatype DistanceLabel<V> = DistanceLabel(first: nat, second: nat, tvecs: (V, V), from: Point, to: Point, org: Point)

  /** The label the pair loop draws for (i, j). */
  predicate LabelsPair<V(==)>(l: DistanceLabel<V>, p: Pair, tvecs: seq<V>, centers: seq<Point>)
  {
    && p.0 < |tvecs| && p.1 < |tvecs| && |centers| == |tvecs|
    && l.first == p.0 && l.second == p.1
    && l.tvecs == (tvecs[p.0], tvecs[p.1])
    && l.from == centers[p.0] && l.to == centers[p.1]
    && l.org == TruncMidpoint(centers[p.0], centers[p.1])
  }

  /**
   * The frame body after detection.  `ids` is None when nothing was
   * detected; otherwise `observed[i]` belongs to `ids[i]`.
   */
  method MeasureFrame<V(==)>(ids: Option<seq<int>>, observed: seq<Observation<V>>)
    returns (tvecs: seq<V>, centers: seq<Point>, labels: seq<DistanceLabel<V>>)
    requires ids.Some? ==> |ids.value| == |observed|
    // tvecs and centers grow in lockstep, in detection order
    ensures |tvecs| == |centers| == (if ids.Some? then |observed| else 0)
    ensures forall i :: 0 <= i < |tvecs| ==> tvecs[i] == observed[i].tvec && centers[i] == observed[i].center
    // one label per unordered pair, in combinations order
    ensures |labels| == |tvecs| * (|tvecs| - 1) / 2
    ensures |labels| == |Combinations2(|tvecs|)|
    ensures forall k :: 0 <= k < |labels| ==>
      labels[k].first < labels[k].second < |tvecs| &&
      LabelsPair(labels[k], Combinations2(|tvecs|)[k], tvecs, centers)
    ensures forall a, b :: 0 <= a < b < |labels| ==>
      LexLess((labels[a].first, labels[a].second), (labels[b].first, labels[b].second))
    ensures forall k :: 0 <= k < |labels| ==> InBox(labels[k].org, labels[k].from, labels[k].to)
  {
    tvecs, centers, labels := [], [], [];
    if ids.Some? {
      for i := 0 to |ids.value|
        invariant |tvecs| == |centers| == i
        invariant forall k :: 0 <= k < i ==> tvecs[k] == observed[k].tvec && centers[k] == observed[k].center
      {
        tvecs := tvecs + [observed[i].tvec];
        centers := centers + [observed[i].center];
      }
    }
    ghost var pairs := Combinations2(|tvecs|);
    CombinationsCount(|tvecs|);
    CombinationsOrdered(|tvecs|);
    forall p | p in pairs ensures p.0 < p.1 < |tvecs| {
      CombinationsMembers(|tvecs|, p);
    }
    if |tvecs| > 1 {
      var combinations := Combinations2(|tvecs|);
      for k := 0 to |combinations|
        invariant |labels| == k
        invariant forall m :: 0 <= m < k ==> labels[m].first < labels[m].second < |tvecs| && LabelsPair(labels[m], pairs[m], tvecs, centers)
        invariant forall m :: 0 <= m < k ==> InBox(labels[m].org, labels[m].from, labels[m].to)
      {
        var (idx1, idx2) := combinations[k];
        assert combinations[k] in pairs;
        var center1, center2 := centers[idx1], centers[idx2];
        var midPoint := Point(TruncMid(center1.x, center2.x), TruncMid(center1.y, center2.y));
        TruncMidpointBetween(center1, center2);
        labels := labels + [DistanceLabel(idx1, idx2, (tvecs[idx1], tvecs[idx2]), center1, center2, midPoint)];
      }
    } else {
      CombinationsOfFewer(|tvecs|);
    }
  }

  /** On screen (non-negative pixels) the labels sit at the floor midpoint. */
  lemma LabelOnScreen<V>(l: DistanceLabel<V>, p: Pair, tvecs: seq<V>, centers: seq<Point>)
    requires LabelsPair(l, p, tvecs, centers)
    requires 0 <= l.from.x && 0 <= l.from.y && 0 <= l.to.x && 0 <= l.to.y
    ensures l.org == FloorMidpoint(l.from, l.to)
  {
  }
}
