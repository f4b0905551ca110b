/**
 * The two index-pair scans of the overlay scripts.
 *
 * `Combinations2(n)` is `itertools.combinations(range(n), 2)`: every unordered
 * pair once, in lexicographic order.  `OrderedPairs(n)` is the sequence of
 * pairs visited by two nested `for` loops over `range(n)` guarded by `i != j`.
 */
module Pairs {

  type Pair = (nat, nat)

  /** Strict lexicographic order: first component, then second. */
  predicate LexLess(p: Pair, q: Pair)
  {
    p.0 < q.0 || (p.0 == q.0 && p.1 < q.1)
  }

  predicate StrictlySorted(s: seq<Pair>)
  {
    forall a, b :: 0 <= a < b < |s| ==> LexLess(s[a], s[b])
  }

  // ---------------------------------------------------------------------
  // Unordered pairs: itertools.combinations(range(n), 2)
  // ---------------------------------------------------------------------

  /** The pairs combinations emits with first element i: (i, i+1), ..., (i, n-1). */
  function UpperRow(i: nat, n: nat): seq<Pair>
  {
    if i < n then seq(n - i - 1, k requires 0 <= k < n - i - 1 => (i, i + 1 + k)) else []
  }

  /** The rows with first element 0 .. i-1, in that order. */
  function UpperRows(i: nat, n: nat): seq<Pair>
  {
    if i == 0 then [] else UpperRows(i - 1, n) + UpperRow(i - 1, n)
  }

  function Combinations2(n: nat): seq<Pair>
  {
    UpperRows(n, n)
  }

  lemma {:induction false} UpperRowsLength(i: nat, n: nat)
    requires i <= n
    ensures 2 * |UpperRows(i, n)| == i * (2 * n - i - 1)
  {
    if i > 0 {
      UpperRowsLength(i - 1, n);
      assert |UpperRow(i - 1, n)| == n - i;
      var m := 2 * n - i;
      assert (i - 1) * m == i * m - m;
      assert i * (m - 1) == i * m - i;
    }
  }

  /** The pair scan yields exactly n(n-1)/2 pairs. */
  lemma CombinationsCount(n: nat)
    ensures |Combinations2(n)| == n * (n - 1) / 2
  {
    UpperRowsLength(n, n);
  }

  /** Fewer than two markers: no pair at all. */
  lemma CombinationsOfFewer(n: nat)
    requires n < 2
    ensures Combinations2(n) == []
  {
    CombinationsCount(n);
  }

  lemma UpperRowMembers(i: nat, n: nat, p: Pair)
    ensures p in UpperRow(i, n) <==> p.0 == i && i < p.1 < n
  {
    if p.0 == i && i < p.1 < n {
      assert UpperRow(i, n)[p.1 - i - 1] == p;
    }
  }

  lemma {:induction false} UpperRowsMembers(i: nat, n: nat, p: Pair)
    ensures p in UpperRows(i, n) <==> p.0 < i && p.0 < p.1 < n
  {
    if i > 0 {
      UpperRowsMembers(i - 1, n, p);
      UpperRowMembers(i - 1, n, p);
    }
  }

  /** A pair is produced iff it is a pair of distinct indices below n, smaller first. */
  lemma CombinationsMembers(n: nat, p: Pair)
    ensures p in Combinations2(n) <==> p.0 < p.1 < n
  {
    UpperRowsMembers(n, n, p);
  }

  lemma SortedConcat(s: seq<Pair>, t: seq<Pair>)
    requires StrictlySorted(s) && StrictlySorted(t)
    requires forall a, b :: 0 <= a < |s| && 0 <= b < |t| ==> LexLess(s[a], t[b])
    ensures StrictlySorted(s + t)
  {
  }

  lemma {:induction false} UpperRowsSorted(i: nat, n: nat)
    ensures StrictlySorted(UpperRows(i, n))
  {
    if i > 0 {
      UpperRowsSorted(i - 1, n);
      var s, t := UpperRows(i - 1, n), UpperRow(i - 1, n);
      forall a, b | 0 <= a < |s| && 0 <= b < |t|
        ensures LexLess(s[a], t[b])
      {
        UpperRowsMembers(i - 1, n, s[a]);
      }
      SortedConcat(s, t);
    }
  }

  /** Pairs come in lexicographic order, hence none repeats. */
  lemma CombinationsOrdered(n: nat)
    ensures StrictlySorted(Combinations2(n))
    ensures forall a, b :: 0 <= a < b < |Combinations2(n)| ==> Combinations2(n)[a] != Combinations2(n)[b]
  {
    UpperRowsSorted(n, n);
  }

  // ---------------------------------------------------------------------
  // Ordered pairs: for i in range(n): for j in range(n): if i != j
  // ---------------------------------------------------------------------

  /** The pairs (i, j') with j' < j and j' != i, as the inner loop emits them. */
  function RowPrefix(i: nat, j: nat): seq<Pair>
  {
    if j == 0 then [] else RowPrefix(i, j - 1) + (if j - 1 != i then [(i, j - 1)] else [])
  }

  /** The complete inner loops for i' < i. */
  function RowsPrefix(i: nat, n: nat): seq<Pair>
  {
    if i == 0 then [] else RowsPrefix(i - 1, n) + RowPrefix(i - 1, n)
  }

  function OrderedPairs(n: nat): seq<Pair>
  {
    RowsPrefix(n, n)
  }

  lemma {:induction false} RowPrefixLength(i: nat, j: nat)
    ensures |RowPrefix(i, j)| == if i < j then j - 1 else j
  {
    if j > 0 {
      RowPrefixLength(i, j - 1);
    }
  }

  lemma {:induction false} RowsPrefixLength(i: nat, n: nat)
    requires i <= n
    ensures |RowsPrefix(i, n)| == i * (n - 1)
  {
    if i > 0 {
      RowsPrefixLength(i - 1, n);
      RowPrefixLength(i - 1, n);
      assert (i - 1) * (n - 1) + (n - 1) == i * (n - 1);
    }
  }

  /** The nested scan makes n(n-1) visits. */
  lemma OrderedPairsCount(n: nat)
    ensures |OrderedPairs(n)| == n * (n - 1)
  {
    RowsPrefixLength(n, n);
  }

  lemma {:induction false} RowPrefixMembers(i: nat, j: nat, p: Pair)
    ensures p in RowPrefix(i, j) <==> p.0 == i && p.1 < j && p.1 != i
  {
    if j > 0 {
      RowPrefixMembers(i, j - 1, p);
    }
  }

  lemma {:induction false} RowsPrefixMembers(i: nat, n: nat, p: Pair)
    ensures p in RowsPrefix(i, n) <==> p.0 < i && p.1 < n && p.0 != p.1
  {
    if i > 0 {
      RowsPrefixMembers(i - 1, n, p);
      RowPrefixMembers(i - 1, n, p);
    }
  }

  /** Every ordered pair of distinct indices below n is visited, and nothing else. */
  lemma OrderedPairsMembers(n: nat, p: Pair)
    ensures p in OrderedPairs(n) <==> p.0 < n && p.1 < n && p.0 != p.1
  {
    RowsPrefixMembers(n, n, p);
  }

  lemma {:induction false} RowPrefixSorted(i: nat, j: nat)
    ensures StrictlySorted(RowPrefix(i, j))
  {
    if j > 0 {
      RowPrefixSorted(i, j - 1);
      var s := RowPrefix(i, j - 1);
      var t: seq<Pair> := if j - 1 != i then [(i, j - 1)] else [];
      forall a, b | 0 <= a < |s| && 0 <= b < |t|
        ensures LexLess(s[a], t[b])
      {
        RowPrefixMembers(i, j - 1, s[a]);
      }
      SortedConcat(s, t);
    }
  }

  lemma {:induction false} RowsPrefixSorted(i: nat, n: nat)
    ensures StrictlySorted(RowsPrefix(i, n))
  {
    if i > 0 {
      RowsPrefixSorted(i - 1, n);
      RowPrefixSorted(i - 1, n);
      var s, t := RowsPrefix(i - 1, n), RowPrefix(i - 1, n);
      forall a, b | 0 <= a < |s| && 0 <= b < |t|
        ensures LexLess(s[a], t[b])
      {
        RowsPrefixMembers(i - 1, n, s[a]);
        RowPrefixMembers(i - 1, n, t[b]);
      }
      SortedConcat(s, t);
    }
  }

  /** Row-major visiting order, so no ordered pair is visited twice. */
  lemma OrderedPairsSorted(n: nat)
    ensures StrictlySorted(OrderedPairs(n))
    ensures forall a, b :: 0 <= a < b < |OrderedPairs(n)| ==> OrderedPairs(n)[a] != OrderedPairs(n)[b]
  {
    RowsPrefixSorted(n, n);
  }

  /**
   * The ordered scan visits each unordered pair once in each direction:
   * its visits are exactly the combinations and their reversals, twice as many.
   */
  lemma OrderedPairsBothDirections(n: nat, p: Pair)
    ensures p in OrderedPairs(n) <==> p in Combinations2(n) || (p.1, p.0) in Combinations2(n)
    ensures p in OrderedPairs(n) <==> (p.1, p.0) in OrderedPairs(n)
    ensures |OrderedPairs(n)| == 2 * |Combinations2(n)|
  {
    OrderedPairsMembers(n, p);
    OrderedPairsMembers(n, (p.1, p.0));
    CombinationsMembers(n, p);
    CombinationsMembers(n, (p.1, p.0));
    OrderedPairsCount(n);
    UpperRowsLength(n, n);
  }
}
