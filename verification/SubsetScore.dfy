/** The score of a set of node ids: the weights of all its unordered pairs, whatever order the ids were added in. */
module SubsetScore {
  import opened PairWeights
  import opened Permutation

  /** What adding id to ids costs: its weight to each of them. */
  function AddedWeight(weights: Weights, ids: seq<int>, id: int): int {
    if ids == [] then 0
    else AddedWeight(weights, ids[..|ids| - 1], id) + Weight(weights, ids[|ids| - 1], id)
  }

  /** The sum of the weights of all pairs of positions i < j. */
  function PairSum(weights: Weights, ids: seq<int>): int {
    if ids == [] then 0
    else PairSum(weights, ids[..|ids| - 1]) + AddedWeight(weights, ids[..|ids| - 1], ids[|ids| - 1])
  }

  // ---------- the score read off the table ----------

  /** The table's entry for two ids, kept under the smaller one first; zero without one. */
  function TableEntry(weights: Weights, a: int, b: int): int {
    if a < b && (a, b) in weights then weights[(a, b)]
    else if b <= a && (b, a) in weights then weights[(b, a)]
    else 0
  }

  function Sum(s: seq<int>): int {
    if s == [] then 0 else Sum(s[..|s| - 1]) + s[|s| - 1]
  }

  /** The entries of id with each of ids. */
  function EntriesWith(weights: Weights, ids: seq<int>, id: int): seq<int> {
    seq(|ids|, i requires 0 <= i < |ids| => TableEntry(weights, ids[i], id))
  }

  /** For every position, the sum of the entries with the positions before it. */
  function RowSums(weights: Weights, ids: seq<int>): seq<int> {
    seq(|ids|, j requires 0 <= j < |ids| => Sum(EntriesWith(weights, ids[..j], ids[j])))
  }

  /** The sum of the table's entries over all positions i < j. */
  function TableSum(weights: Weights, ids: seq<int>): int {
    Sum(RowSums(weights, ids))
  }

  lemma SumAppend(s: seq<int>, x: int)
    ensures Sum(s + [x]) == Sum(s) + x
  {
    assert (s + [x])[..|s|] == s;
  }

  lemma {:induction false} AddedOnTable(weights: Weights, ids: seq<int>, id: int)
    ensures AddedWeight(weights, ids, id) == Sum(EntriesWith(weights, ids, id))
  {
    if ids != [] {
      var front, last := ids[..|ids| - 1], ids[|ids| - 1];
      AddedOnTable(weights, front, id);
      assert EntriesWith(weights, ids, id) == EntriesWith(weights, front, id) + [TableEntry(weights, last, id)];
      SumAppend(EntriesWith(weights, front, id), TableEntry(weights, last, id));
    }
  }

  /** The incremental score of a set is the sum of the table's entries of its pairs. */
  lemma {:induction false} ScoreOnTable(weights: Weights, ids: seq<int>)
    ensures PairSum(weights, ids) == TableSum(weights, ids)
  {
    if ids != [] {
      var front, last := ids[..|ids| - 1], ids[|ids| - 1];
      ScoreOnTable(weights, front);
      AddedOnTable(weights, front, last);
      var row := Sum(EntriesWith(weights, front, last));
      assert RowSums(weights, ids) == RowSums(weights, front) + [row] by {
        forall j | 0 <= j < |front| ensures ids[..j] == front[..j] {}
      }
      SumAppend(RowSums(weights, front), row);
    }
  }

  /** The score of two ids is the table's entry of their pair. */
  lemma PairScore(weights: Weights, a: int, b: int)
    requires a < b && (a, b) in weights
    ensures PairSum(weights, [a, b]) == PairSum(weights, [b, a]) == weights[(a, b)]
  {
    PairOf(weights, a, b);
    PairOf(weights, b, a);
  }

  lemma PairOf(weights: Weights, x: int, y: int)
    ensures PairSum(weights, [x, y]) == Weight(weights, x, y)
  {
    hide Weight;
    PairSumAppend(weights, [], x);
    AddedAppend(weights, [], x, y);
    assert [] + [x] == [x] && [x] + [y] == [x, y];
    PairSumAppend(weights, [x], y);
  }

  lemma PairSumAppend(weights: Weights, ids: seq<int>, id: int)
    ensures PairSum(weights, ids + [id]) == PairSum(weights, ids) + AddedWeight(weights, ids, id)
  {
    assert (ids + [id])[..|ids|] == ids;
  }

  lemma AddedAppend(weights: Weights, ids: seq<int>, x: int, id: int)
    ensures AddedWeight(weights, ids + [x], id) == AddedWeight(weights, ids, id) + Weight(weights, x, id)
  {
    assert (ids + [x])[..|ids|] == ids;
  }

  lemma {:induction false} AddedRemove(weights: Weights, ids: seq<int>, k: nat, id: int)
    requires k < |ids|
    ensures AddedWeight(weights, ids, id) == AddedWeight(weights, Without(ids, k), id) + Weight(weights, ids[k], id)
  {
    var front, last := ids[..|ids| - 1], ids[|ids| - 1];
    if k < |front| {
      AddedRemove(weights, front, k, id);
      WithoutFront(ids, k);
      AddedAppend(weights, Without(front, k), last, id);
    } else {
      WithoutLast(ids);
    }
  }

  /** Any id can be seen as the one added last. */
  lemma {:induction false} PairSumRemove(weights: Weights, ids: seq<int>, k: nat)
    requires k < |ids|
    ensures PairSum(weights, ids) == PairSum(weights, Without(ids, k)) + AddedWeight(weights, Without(ids, k), ids[k])
  {
    var front, last := ids[..|ids| - 1], ids[|ids| - 1];
    if k < |front| {
      var rest := Without(front, k);
      PairSumRemove(weights, front, k);
      WithoutFront(ids, k);
      AddedRemove(weights, front, k, last);
      PairSumAppend(weights, rest, last);
      AddedAppend(weights, rest, last, ids[k]);
    } else {
      WithoutLast(ids);
    }
  }

  lemma {:induction false} AddedPermute(weights: Weights, a: seq<int>, b: seq<int>, id: int)
    requires multiset(a) == multiset(b)
    ensures AddedWeight(weights, a, id) == AddedWeight(weights, b, id)
  {
    SameLength(a, b);
    if a != [] {
      var k := LastOccurs(a, b);
      AddedPermute(weights, a[..|a| - 1], Without(b, k), id);
      AddedRemove(weights, b, k, id);
    }
  }

  /** The score depends on the ids alone, not on the order in which they were added. */
  lemma {:induction false} PairSumPermute(weights: Weights, a: seq<int>, b: seq<int>)
    requires multiset(a) == multiset(b)
    ensures PairSum(weights, a) == PairSum(weights, b)
  {
    SameLength(a, b);
    if a != [] {
      var k := LastOccurs(a, b);
      PairSumPermute(weights, a[..|a| - 1], Without(b, k));
      AddedPermute(weights, a[..|a| - 1], Without(b, k), b[k]);
      PairSumRemove(weights, b, k);
    }
  }

  lemma {:induction false} AddedBound(weights: Weights, ids: seq<int>, id: int)
    requires InBounds(weights)
    ensures 0 <= AddedWeight(weights, ids, id) <= MAX_WEIGHT * |ids|
  {
    if ids != [] { AddedBound(weights, ids[..|ids| - 1], id); }
  }

  /** n ids have n(n-1)/2 pairs of at most 90 each. */
  lemma {:induction false} PairSumBound(weights: Weights, ids: seq<int>)
    requires InBounds(weights)
    ensures 0 <= 2 * PairSum(weights, ids) <= MAX_WEIGHT * (|ids| * (|ids| - 1))
  {
    if ids != [] {
      var front := ids[..|ids| - 1];
      PairSumBound(weights, front);
      AddedBound(weights, front, ids[|ids| - 1]);
      assert |ids| * (|ids| - 1) == |front| * (|front| - 1) + 2 * |front|;
    }
  }
}
