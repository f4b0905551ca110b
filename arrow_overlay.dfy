/**
 * The arrow script's frame body: with more than one marker, collect one
 * center per corner group, then draw an arrow for every ordered pair of
 * distinct markers, labelled at the floor midpoint with the pixel distance.
 */
module ArrowOverlay {
  import opened Wrappers
  import opened Geometry
  import opened Pairs

  /**
   * The arrow from marker `from` to marker `to`, its label origin, and the
   * squared pixel offset whose square root the label shows.
   */
  datatype Arrow = Arrow(from: nat, to: nat, tail: Point, head: Point, mid: Point, offsetSq: int)

  /** The arrow the inner loop draws for the ordered pair p. */
  predicate DrawsPair(a: Arrow, p: Pair, centers: seq<Point>)
  {
    && p.0 < |centers| && p.1 < |centers|
    && a.from == p.0 && a.to == p.1
    && a.tail == centers[p.0] && a.head == centers[p.1]
    && a.mid == FloorMidpoint(centers[p.0], centers[p.1])
    && a.offsetSq == SquaredOffset(centers[p.0], centers[p.1])
  }

  /** arrows[k] is the arrow drawn for pairs[k], for every k. */
  predicate DrawsAll(arrows: seq<Arrow>, pairs: seq<Pair>, centers: seq<Point>)
  {
    |arrows| == |pairs| && forall k :: 0 <= k < |arrows| ==> DrawsPair(arrows[k], pairs[k], centers)
  }

  lemma DrawsAllConcat(a: seq<Arrow>, b: seq<Arrow>, s: seq<Pair>, t: seq<Pair>, centers: seq<Point>)
    requires DrawsAll(a, s, centers) && DrawsAll(b, t, centers)
    ensures DrawsAll(a + b, s + t, centers)
  {
    forall k | 0 <= k < |a + b|
      ensures DrawsPair((a + b)[k], (s + t)[k], centers)
    {
      if k < |a| {
        assert (a + b)[k] == a[k] && (s + t)[k] == s[k];
      } else {
        assert (a + b)[k] == b[k - |a|] && (s + t)[k] == t[k - |a|];
      }
    }
  }

  /**
   * The frame body after detection: `ids` is None when nothing was detected,
   * otherwise `groupCenters[i]` is the (integer) center of corner group i.
   */
  method ArrowFrame(ids: Option<seq<int>>, groupCenters: seq<Point>) returns (markerCenters: seq<Point>, arrows: seq<Arrow>)
    requires ids.Some? ==> |ids.value| == |groupCenters|
    // centers are collected only when more than one id is detected, one per group, in order
    ensures ids.Some? && |ids.value| > 1 ==> markerCenters == groupCenters
    ensures !(ids.Some? && |ids.value| > 1) ==> markerCenters == [] && arrows == []
    // n(n-1) arrows, one per ordered pair of distinct markers, in row-major order
    ensures |arrows| == |markerCenters| * (|markerCenters| - 1)
    ensures DrawsAll(arrows, OrderedPairs(|markerCenters|), markerCenters)
    ensures forall k :: 0 <= k < |arrows| ==> arrows[k].from != arrows[k].to
    ensures forall a, b :: 0 <= a < b < |arrows| ==> LexLess((arrows[a].from, arrows[a].to), (arrows[b].from, arrows[b].to))
    ensures forall k :: 0 <= k < |arrows| ==> InBox(arrows[k].mid, arrows[k].tail, arrows[k].head) && arrows[k].offsetSq >= 0
  {
    markerCenters, arrows := [], [];
    if ids.Some? && |ids.value| > 1 {
      for g := 0 to |groupCenters|
        invariant markerCenters == groupCenters[..g]
      {
        markerCenters := markerCenters + [groupCenters[g]];
      }
      assert markerCenters == groupCenters;
      var n := |markerCenters|;
      for i := 0 to n
        invariant DrawsAll(arrows, RowsPrefix(i, n), markerCenters)
      {
        var row := ArrowsFrom(i, markerCenters);
        DrawsAllConcat(arrows, row, RowsPrefix(i, n), RowPrefix(i, n), markerCenters);
        arrows := arrows + row;
      }
    }
    ghost var n := |markerCenters|;
    OrderedPairsCount(n);
    OrderedPairsSorted(n);
    forall k | 0 <= k < |arrows|
      ensures arrows[k].from != arrows[k].to
      ensures InBox(arrows[k].mid, arrows[k].tail, arrows[k].head) && arrows[k].offsetSq >= 0
    {
      OrderedPairsMembers(n, OrderedPairs(n)[k]);
      FloorMidpointBetween(arrows[k].tail, arrows[k].head);
    }
  }

  /** The inner loop for marker i: an arrow to every other marker, in index order. */
  method ArrowsFrom(i: nat, markerCenters: seq<Point>) returns (row: seq<Arrow>)
    requires i < |markerCenters|
    ensures DrawsAll(row, RowPrefix(i, |markerCenters|), markerCenters)
  {
    row := [];
    for j := 0 to |markerCenters|
      invariant DrawsAll(row, RowPrefix(i, j), markerCenters)
    {
      if i != j {
        var center, other := markerCenters[i], markerCenters[j];
        var distanceSq := (other.x - center.x) * (other.x - center.x) + (other.y - center.y) * (other.y - center.y);
        var midX := (center.x + other.x) / 2;
        var midY := (center.y + other.y) / 2;
        row := row + [Arrow(i, j, center, other, Point(midX, midY), distanceSq)];
      }
    }
  }

  /** Swapping the two centers changes neither the label position nor the distance. */
  lemma ReverseArrowSameLabel(a: Arrow, b: Arrow, centers: seq<Point>)
    requires DrawsPair(a, (a.from, a.to), centers) && DrawsPair(b, (a.to, a.from), centers)
    ensures b.mid == a.mid && b.offsetSq == a.offsetSq
    ensures a.offsetSq == 0 <==> a.tail == a.head
  {
    FloorMidpointBetween(a.tail, a.head);
    SquaredOffsetProperties(a.tail, a.head);
  }
}
