/**
 * Candidate enumeration: from groups of free node ids, one per GPU, the sets of newSize ids that take some GPUs whole
 * and complete from one more. The worklist loop builds every such set exactly once, and terminates.
 */
module Candidates {
  import opened Arith
  import opened PairWeights
  import opened SubsetScore
  import opened Words

  /** A set under construction. */
  datatype DeviceSet = DeviceSet(ids: seq<int>, totalWeight: int, lastIdx: int, size: nat, parentIds: seq<nat>)

  /** The filtered ids of each GPU. */
  type Groups = seq<seq<int>>

  ghost predicate NonEmpty(groups: Groups) {
    forall i :: 0 <= i < |groups| ==> groups[i] != []
  }

  // ---------- sets of whole groups ----------

  predicate InRange(groups: Groups, p: seq<nat>) {
    forall i :: 0 <= i < |p| ==> p[i] < |groups|
  }

  /** All ids of the listed groups, group after group. */
  function Whole(groups: Groups, p: seq<nat>): seq<int>
    requires InRange(groups, p)
  {
    if p == [] then [] else Whole(groups, p[..|p| - 1]) + groups[p[|p| - 1]]
  }

  lemma WholeAppend(groups: Groups, p: seq<nat>, i: nat)
    requires InRange(groups, p) && i < |groups|
    ensures InRange(groups, p + [i]) && Whole(groups, p + [i]) == Whole(groups, p) + groups[i]
  {
    assert (p + [i])[..|p|] == p;
  }

  /** The groups in p are taken whole and do not suffice. */
  predicate IsPartial(groups: Groups, newSize: int, p: seq<nat>) {
    p != [] && InRange(groups, p) && Increasing(p) && |Whole(groups, p)| < newSize
  }

  function Front(p: seq<nat>): seq<nat>
    requires p != []
  {
    p[..|p| - 1]
  }

  function Last(p: seq<nat>): nat
    requires p != []
  {
    p[|p| - 1]
  }

  /**
   * The groups in Front(p) are taken whole, in increasing order, and Last(p) completes the set; a group before the
   * last whole one may only complete it if it is not used up.
   */
  predicate IsCompletion(groups: Groups, newSize: int, p: seq<nat>) {
    && p != [] && InRange(groups, p) && InRange(groups, Front(p)) && Increasing(Front(p)) && Last(p) !in Front(p)
    && |Whole(groups, Front(p))| < newSize <= |Whole(groups, Front(p))| + |groups[Last(p)]|
    && (Front(p) != [] && Last(p) < Last(Front(p)) ==> |groups[Last(p)]| > newSize - |Whole(groups, Front(p))|)
  }

  /** The ids of a completed set before the required ones are added. */
  function ChosenIds(groups: Groups, newSize: int, p: seq<nat>): (ids: seq<int>)
    requires IsCompletion(groups, newSize, p)
    ensures |ids| == newSize
  {
    var whole := Whole(groups, Front(p));
    whole + groups[Last(p)][..newSize - |whole|]
  }

  // ---------- what the loop keeps in its two lists ----------

  /** An entry of subsetsTemp. */
  ghost predicate IsNode(groups: Groups, weights: Weights, newSize: int, c: DeviceSet) {
    && IsPartial(groups, newSize, c.parentIds)
    && c.ids == Whole(groups, c.parentIds)
    && c.size == |c.ids|
    && c.lastIdx == Last(c.parentIds)
    && c.totalWeight == PairSum(weights, c.ids)
  }

  /** An entry of subsetsFinal. */
  ghost predicate IsFinal(groups: Groups, weights: Weights, required: seq<int>, newSize: int, c: DeviceSet) {
    && IsCompletion(groups, newSize, c.parentIds)
    && c.ids == ChosenIds(groups, newSize, c.parentIds) + required
    && c.totalWeight == PairSum(weights, c.ids)
  }

  /** The order of index lists of one length by their first difference. */
  predicate Lex(a: seq<nat>, b: seq<nat>) {
    a != [] && b != [] && (a[0] < b[0] || (a[0] == b[0] && Lex(a[1..], b[1..])))
  }

  /** Fewer groups come first, then lower indices. */
  predicate Before(a: seq<nat>, b: seq<nat>) {
    |a| < |b| || (|a| == |b| && Lex(a, b))
  }

  ghost predicate InOrder(s: seq<DeviceSet>) {
    forall i, j :: 0 <= i < j < |s| ==> Before(s[i].parentIds, s[j].parentIds)
  }

  lemma {:induction false} LexIrreflexive(a: seq<nat>)
    ensures !Lex(a, a)
  {
    if a != [] { LexIrreflexive(a[1..]); }
  }

  lemma {:induction false} LexExtends(a: seq<nat>, i: nat, b: seq<nat>, j: nat)
    requires |a| == |b| && (Lex(a, b) || (a == b && i < j))
    ensures Lex(a + [i], b + [j])
  {
    if a != [] {
      assert (a + [i])[1..] == a[1..] + [i] && (b + [j])[1..] == b[1..] + [j];
      if a[0] == b[0] { LexExtends(a[1..], i, b[1..], j); }
    }
  }

  /** Sets grown from sets in order are in order. */
  lemma BeforeGrown(p: seq<nat>, q: seq<nat>)
    requires p != [] && q != []
    requires Before(Front(p), Front(q)) || (Front(p) == Front(q) && Last(p) < Last(q))
    ensures Before(p, q)
  {
    assert p == Front(p) + [Last(p)] && q == Front(q) + [Last(q)];
    if |p| == |q| { LexExtends(Front(p), Last(p), Front(q), Last(q)); }
  }

  ghost predicate Lists(s: seq<DeviceSet>, p: seq<nat>) {
    exists k :: 0 <= k < |s| && s[k].parentIds == p
  }

  // ---------- building one set ----------

  method AddDeviceToSubsetAndUpdateWeight(weights: Weights, subset: DeviceSet, devId: int, devIdx: int) returns (s: DeviceSet)
    ensures s == DeviceSet(subset.ids + [devId], subset.totalWeight + AddedWeight(weights, subset.ids, devId), devIdx,
      |subset.ids| + 1, subset.parentIds)
    ensures s.totalWeight == subset.totalWeight + Sum(EntriesWith(weights, subset.ids, devId))
  {
    AddedOnTable(weights, subset.ids, devId);
    var currentWeight := subset.totalWeight;
    for i := 0 to |subset.ids|
      invariant currentWeight == subset.totalWeight + AddedWeight(weights, subset.ids[..i], devId)
    {
      assert subset.ids[..i + 1] == subset.ids[..i] + [subset.ids[i]];
      AddedAppend(weights, subset.ids[..i], subset.ids[i], devId);
      var from_, to := if subset.ids[i] < devId then subset.ids[i] else devId, if subset.ids[i] < devId then devId else subset.ids[i];
      currentWeight := currentWeight + if (from_, to) in weights then weights[(from_, to)] else 0;
    }
    assert subset.ids[..|subset.ids|] == subset.ids;
    var ids := subset.ids + [devId];
    s := DeviceSet(ids, currentWeight, devIdx, |ids|, subset.parentIds);
  }

  /** Adds ids in order; the weight stays the pair sum. */
  method AddAll(weights: Weights, subset: DeviceSet, ids: seq<int>, devIdx: int) returns (s: DeviceSet)
    requires subset.size == |subset.ids| && subset.totalWeight == PairSum(weights, subset.ids)
    ensures s.ids == subset.ids + ids && s.parentIds == subset.parentIds && s.size == |s.ids|
    ensures s.totalWeight == PairSum(weights, s.ids)
    ensures s.lastIdx == if ids == [] then subset.lastIdx else devIdx
  {
    hide PairSum, AddedWeight;
    s := subset;
    for k := 0 to |ids|
      invariant s.ids == subset.ids + ids[..k] && s.parentIds == subset.parentIds && s.size == |s.ids|
      invariant s.totalWeight == PairSum(weights, s.ids)
      invariant s.lastIdx == if k == 0 then subset.lastIdx else devIdx
    {
      PairSumAppend(weights, s.ids, ids[k]);
      PrefixGrows(subset.ids, ids, k);
      s := AddDeviceToSubsetAndUpdateWeight(weights, s, ids[k], devIdx);
    }
    assert ids[..|ids|] == ids;
  }

  lemma PartialOne(groups: Groups, newSize: int, idx: nat)
    requires idx < |groups|
    ensures Whole(groups, [idx]) == groups[idx]
    ensures IsPartial(groups, newSize, [idx]) <==> |groups[idx]| < newSize
    ensures IsCompletion(groups, newSize, [idx]) <==> 0 < newSize <= |groups[idx]|
    ensures IsCompletion(groups, newSize, [idx]) ==> ChosenIds(groups, newSize, [idx]) == groups[idx][..newSize]
  {
    WholeAppend(groups, [], idx);
    assert [] + [idx] == [idx];
    assert Front([idx]) == [];
  }

  lemma StartedIsFinal(groups: Groups, weights: Weights, required: seq<int>, newSize: int, idx: nat, c: DeviceSet)
    requires idx < |groups| && 0 < newSize <= |groups[idx]|
    requires c.parentIds == [idx] && c.ids == groups[idx][..newSize] + required && c.totalWeight == PairSum(weights, c.ids)
    ensures IsFinal(groups, weights, required, newSize, c)
  {
    PartialOne(groups, newSize, idx);
    hide PairSum, Whole, ChosenIds, IsCompletion;
  }

  lemma StartedIsNode(groups: Groups, weights: Weights, newSize: int, idx: nat, c: DeviceSet)
    requires idx < |groups| && |groups[idx]| < newSize
    requires c.parentIds == [idx] && c.ids == groups[idx] && c.size == |c.ids| && c.lastIdx == idx
    requires c.totalWeight == PairSum(weights, c.ids)
    ensures IsNode(groups, weights, newSize, c)
  {
    PartialOne(groups, newSize, idx);
    hide PairSum, Whole;
  }

  lemma PairSumOne(weights: Weights, id: int)
    ensures PairSum(weights, [id]) == 0
  {
    PairSumAppend(weights, [], id);
    assert [] + [id] == [id];
  }

  /** One round of the first loop: the set begun with group idx alone; done says that it is already complete. */
  method StartSubset(groups: Groups, weights: Weights, required: seq<int>, newSize: int, idx: nat) returns (devset: DeviceSet, done: bool)
    requires NonEmpty(groups) && idx < |groups|
    ensures devset.parentIds == [idx]
    ensures done <==> 0 < newSize <= |groups[idx]|
    ensures done ==> IsFinal(groups, weights, required, newSize, devset)
    ensures !done && newSize > 0 ==> IsNode(groups, weights, newSize, devset)
    ensures devset.size == |devset.ids| && devset.totalWeight == PairSum(weights, devset.ids)
    ensures !done ==> devset.ids == groups[idx] && devset.lastIdx == idx
  {
    var ids := groups[idx];
    devset := DeviceSet([ids[0]], 0, idx, 1, [idx]);
    PairSumOne(weights, ids[0]);
    hide PairSum, AddedWeight, IsFinal, IsNode;
    assert ids[..1] == [ids[0]];
    if newSize == 1 {
      devset := AddAll(weights, devset, required, idx);
      StartedIsFinal(groups, weights, required, newSize, idx, devset);
      return devset, true;
    }
    for i := 1 to |ids|
      invariant devset.ids == ids[..i] && devset.size == i && devset.parentIds == [idx] && devset.lastIdx == idx
      invariant devset.totalWeight == PairSum(weights, devset.ids)
      invariant newSize <= 0 || i < newSize
    {
      PairSumAppend(weights, devset.ids, ids[i]);
      devset := AddDeviceToSubsetAndUpdateWeight(weights, devset, ids[i], idx);
      assert ids[..i] + [ids[i]] == ids[..i + 1];
      if i == newSize - 1 {
        devset := AddAll(weights, devset, required, idx);
        StartedIsFinal(groups, weights, required, newSize, idx, devset);
        return devset, true;
      }
    }
    assert ids[..|ids|] == ids;
    if newSize > 0 { StartedIsNode(groups, weights, newSize, idx, devset); }
    return devset, false;
  }

  // ---------- extending one set by one group ----------

  /** A group the second loop skips for a set whose whole groups are p: already taken, or a lower one it would use up. */
  predicate Skipped(groups: Groups, newSize: int, p: seq<nat>, lastIdx: int, size: nat, idx: nat)
    requires idx < |groups|
  {
    idx in p || (idx < lastIdx && |groups[idx]| <= newSize - size)
  }

  /** The body of the second loop for a group that is not skipped. */
  method CompleteWith(groups: Groups, weights: Weights, required: seq<int>, newSize: int, cur: DeviceSet, idx: nat)
    returns (devset: DeviceSet, done: bool)
    requires NonEmpty(groups) && idx < |groups|
    requires cur.size == |cur.ids| && cur.totalWeight == PairSum(weights, cur.ids)
    requires newSize <= 0 || cur.size < newSize
    ensures devset.parentIds == cur.parentIds + [idx]
    ensures devset.size == |devset.ids| && devset.totalWeight == PairSum(weights, devset.ids)
    ensures done <==> newSize > 0 && newSize - cur.size <= |groups[idx]|
    ensures done ==> devset.ids == cur.ids + groups[idx][..newSize - cur.size] + required && devset.size >= newSize
    ensures !done ==> devset.ids == cur.ids + groups[idx] && devset.lastIdx == idx
  {
    hide PairSum, AddedWeight;
    var g := groups[idx];
    devset := DeviceSet(cur.ids, cur.totalWeight, cur.lastIdx, |cur.ids|, cur.parentIds + [idx]);
    assert cur.ids + g[..0] == cur.ids;
    for k := 0 to |g|
      invariant devset.ids == cur.ids + g[..k] && devset.size == |devset.ids| && devset.parentIds == cur.parentIds + [idx]
      invariant devset.totalWeight == PairSum(weights, devset.ids)
      invariant k > 0 ==> devset.lastIdx == idx
      invariant newSize <= 0 || cur.size + k < newSize
    {
      PairSumAppend(weights, devset.ids, g[k]);
      devset := AddDeviceToSubsetAndUpdateWeight(weights, devset, g[k], idx);
      PrefixGrows(cur.ids, g, k);
      if devset.size == newSize {
        devset := AddAll(weights, devset, required, idx);
        return devset, true;
      }
    }
    assert g[..|g|] == g;
    return devset, false;
  }

  lemma PrefixGrows(ids: seq<int>, g: seq<int>, k: nat)
    requires k < |g|
    ensures ids + g[..k] + [g[k]] == ids + g[..k + 1]
  {
  }

  /** What the rule of the second loop builds from a node: exactly the completions and the partial sets that extend it. */
  lemma Extensions(groups: Groups, weights: Weights, newSize: int, cur: DeviceSet, idx: nat)
    requires NonEmpty(groups) && IsNode(groups, weights, newSize, cur) && idx < |groups|
    ensures var p := cur.parentIds + [idx];
      && InRange(groups, p)
      && Front(p) == cur.parentIds
      && Whole(groups, p) == cur.ids + groups[idx]
      && (IsCompletion(groups, newSize, p) <==>
            !Skipped(groups, newSize, cur.parentIds, cur.lastIdx, cur.size, idx) && newSize - cur.size <= |groups[idx]|)
      && (IsPartial(groups, newSize, p) <==>
            !Skipped(groups, newSize, cur.parentIds, cur.lastIdx, cur.size, idx) && |groups[idx]| < newSize - cur.size)
      && (IsPartial(groups, newSize, p) ==> cur.lastIdx < idx)
      && (IsCompletion(groups, newSize, p) ==> ChosenIds(groups, newSize, p) == cur.ids + groups[idx][..newSize - cur.size])
  {
    hide Whole, PairSum;
    WholeAppend(groups, cur.parentIds, idx);
    var p := cur.parentIds + [idx];
    assert Front(p) == cur.parentIds;
    if idx in cur.parentIds {
      var k :| 0 <= k < |cur.parentIds| && cur.parentIds[k] == idx;
      assert p[k] == p[|p| - 1];
    } else if idx < cur.lastIdx {
      assert p[|p| - 2] == cur.lastIdx;
    } else {
      forall i, j | 0 <= i < j < |p| ensures p[i] < p[j] {
        assert p[i] == cur.parentIds[i] <= Last(cur.parentIds);
      }
    }
  }

  // ---------- termination ----------

  function Rank(n: nat, c: DeviceSet): nat {
    if 0 <= c.lastIdx < n then n - 1 - c.lastIdx else 0
  }

  /** Every set in the worklist counts 2^(N-1-LastIdx); the sum bounds the pops still to come. */
  function Potential(n: nat, s: seq<DeviceSet>): nat {
    if s == [] then 0 else Potential(n, s[..|s| - 1]) + Pow2(Rank(n, s[|s| - 1]))
  }

  lemma PotentialAppend(n: nat, s: seq<DeviceSet>, c: DeviceSet)
    ensures Potential(n, s + [c]) == Potential(n, s) + Pow2(Rank(n, c))
  {
    assert (s + [c])[..|s|] == s;
  }

  lemma {:induction false} PotentialConcat(n: nat, s: seq<DeviceSet>, t: seq<DeviceSet>)
    ensures Potential(n, s + t) == Potential(n, s) + Potential(n, t)
  {
    if t == [] {
      assert s + t == s;
    } else {
      PotentialConcat(n, s, t[..|t| - 1]);
      assert (s + t)[..|s + t| - 1] == s + t[..|t| - 1];
    }
  }

  lemma PotentialPop(n: nat, s: seq<DeviceSet>)
    requires s != []
    ensures Potential(n, s) == Pow2(Rank(n, s[0])) + Potential(n, s[1..])
  {
    PotentialConcat(n, [s[0]], s[1..]);
    assert [s[0]] + s[1..] == s;
    assert [s[0]][..0] == [];
  }

  // ---------- extending one set by every group ----------

  /** The sets of s extend p by one group below bound each, in increasing order. */
  ghost predicate ExtendInOrder(s: seq<DeviceSet>, p: seq<nat>, bound: nat) {
    && (forall k :: 0 <= k < |s| ==> s[k].parentIds != [] && Front(s[k].parentIds) == p && Last(s[k].parentIds) < bound)
    && (forall k, l :: 0 <= k < l < |s| ==> s[k].parentIds != [] && s[l].parentIds != [] && Last(s[k].parentIds) < Last(s[l].parentIds))
  }

  lemma ExtendNext(s: seq<DeviceSet>, c: DeviceSet, p: seq<nat>, idx: nat)
    requires ExtendInOrder(s, p, idx) && c.parentIds == p + [idx]
    ensures ExtendInOrder(s + [c], p, idx + 1)
    ensures forall q :: Lists(s + [c], q) <==> Lists(s, q) || q == c.parentIds
  {
    assert Front(c.parentIds) == p;
    forall q ensures Lists(s + [c], q) <==> Lists(s, q) || q == c.parentIds {
      if Lists(s, q) {
        var k :| 0 <= k < |s| && s[k].parentIds == q;
        assert (s + [c])[k].parentIds == q;
      }
      if q == c.parentIds { assert (s + [c])[|s|].parentIds == q; }
      if Lists(s + [c], q) {
        var k :| 0 <= k < |s + [c]| && (s + [c])[k].parentIds == q;
      }
    }
  }

  lemma ExtensionsInOrder(s: seq<DeviceSet>, p: seq<nat>, bound: nat)
    requires ExtendInOrder(s, p, bound)
    ensures InOrder(s)
  {
    hide Before, Front, Last;
    forall i, j | 0 <= i < j < |s| ensures Before(s[i].parentIds, s[j].parentIds) {
      BeforeGrown(s[i].parentIds, s[j].parentIds);
    }
  }

  /** pushed and finals are exactly the partial sets and the completions that extend p by one group below bound. */
  ghost predicate Built(groups: Groups, weights: Weights, required: seq<int>, newSize: int, p: seq<nat>,
                        pushed: seq<DeviceSet>, finals: seq<DeviceSet>, bound: nat)
  {
    && bound <= |groups|
    && ExtendInOrder(pushed, p, bound) && ExtendInOrder(finals, p, bound)
    && (forall k :: 0 <= k < |pushed| ==> IsNode(groups, weights, newSize, pushed[k]))
    && (forall k :: 0 <= k < |finals| ==> IsFinal(groups, weights, required, newSize, finals[k]))
    && (forall q :: ExtendsBelow(q, p, bound) && IsPartial(groups, newSize, q) ==> Lists(pushed, q))
    && (forall q :: ExtendsBelow(q, p, bound) && IsCompletion(groups, newSize, q) ==> Lists(finals, q))
  }

  predicate ExtendsBelow(q: seq<nat>, p: seq<nat>, bound: nat) {
    q != [] && Front(q) == p && Last(q) < bound
  }

  lemma BuiltNothing(groups: Groups, weights: Weights, required: seq<int>, newSize: int, p: seq<nat>)
    ensures Built(groups, weights, required, newSize, p, [], [], 0)
  {
  }

  lemma BuiltFinal(groups: Groups, weights: Weights, required: seq<int>, newSize: int, cur: DeviceSet,
                   pushed: seq<DeviceSet>, finals: seq<DeviceSet>, idx: nat, c: DeviceSet)
    requires NonEmpty(groups) && IsNode(groups, weights, newSize, cur) && idx < |groups|
    requires Built(groups, weights, required, newSize, cur.parentIds, pushed, finals, idx)
    requires !Skipped(groups, newSize, cur.parentIds, cur.lastIdx, cur.size, idx) && 0 < newSize - cur.size <= |groups[idx]|
    requires c.parentIds == cur.parentIds + [idx] && c.ids == cur.ids + groups[idx][..newSize - cur.size] + required
    requires c.totalWeight == PairSum(weights, c.ids)
    ensures Built(groups, weights, required, newSize, cur.parentIds, pushed, finals + [c], idx + 1)
  {
    Extensions(groups, weights, newSize, cur, idx);
    ExtendNext(finals, c, cur.parentIds, idx);
    assert IsFinal(groups, weights, required, newSize, c);
    hide PairSum, Whole, ChosenIds, IsCompletion, IsPartial, IsNode, IsFinal, Lists;
    forall q | ExtendsBelow(q, cur.parentIds, idx + 1) ensures ExtendsBelow(q, cur.parentIds, idx) || q == c.parentIds {
      assert q == Front(q) + [Last(q)];
    }
  }

  lemma BuiltPushed(groups: Groups, weights: Weights, required: seq<int>, newSize: int, cur: DeviceSet,
                    pushed: seq<DeviceSet>, finals: seq<DeviceSet>, idx: nat, c: DeviceSet)
    requires NonEmpty(groups) && IsNode(groups, weights, newSize, cur) && idx < |groups|
    requires Built(groups, weights, required, newSize, cur.parentIds, pushed, finals, idx)
    requires !Skipped(groups, newSize, cur.parentIds, cur.lastIdx, cur.size, idx) && |groups[idx]| < newSize - cur.size
    requires c.parentIds == cur.parentIds + [idx] && c.ids == cur.ids + groups[idx] && c.size == |c.ids| && c.lastIdx == idx
    requires c.totalWeight == PairSum(weights, c.ids)
    ensures Built(groups, weights, required, newSize, cur.parentIds, pushed + [c], finals, idx + 1)
    ensures cur.lastIdx < idx
  {
    Extensions(groups, weights, newSize, cur, idx);
    ExtendNext(pushed, c, cur.parentIds, idx);
    assert Last(c.parentIds) == idx;
    assert IsNode(groups, weights, newSize, c);
    hide PairSum, Whole, ChosenIds, IsCompletion, IsPartial, IsNode, IsFinal, Lists;
    forall q | ExtendsBelow(q, cur.parentIds, idx + 1) ensures ExtendsBelow(q, cur.parentIds, idx) || q == c.parentIds {
      assert q == Front(q) + [Last(q)];
    }
  }

  lemma BuiltSkip(groups: Groups, weights: Weights, required: seq<int>, newSize: int, cur: DeviceSet,
                  pushed: seq<DeviceSet>, finals: seq<DeviceSet>, idx: nat)
    requires NonEmpty(groups) && IsNode(groups, weights, newSize, cur) && idx < |groups|
    requires Built(groups, weights, required, newSize, cur.parentIds, pushed, finals, idx)
    requires Skipped(groups, newSize, cur.parentIds, cur.lastIdx, cur.size, idx)
    ensures Built(groups, weights, required, newSize, cur.parentIds, pushed, finals, idx + 1)
  {
    Extensions(groups, weights, newSize, cur, idx);
    hide PairSum, Whole, ChosenIds, IsCompletion, IsPartial, IsNode, IsFinal, Lists;
    forall q | ExtendsBelow(q, cur.parentIds, idx + 1) ensures ExtendsBelow(q, cur.parentIds, idx) || q == cur.parentIds + [idx] {
      assert q == Front(q) + [Last(q)];
    }
  }

  /** Extensions are pushed only from groups above cur.lastIdx, and together count less than cur did. */
  predicate Budget(n: nat, cur: DeviceSet, pushed: seq<DeviceSet>, idx: nat) {
    && idx <= n
    && (idx <= cur.lastIdx + 1 ==> pushed == [])
    && (idx > cur.lastIdx ==> Potential(n, pushed) + Pow2(n - idx) <= Pow2(Rank(n, cur)))
  }

  lemma BudgetSkip(n: nat, cur: DeviceSet, pushed: seq<DeviceSet>, idx: nat)
    requires 0 <= cur.lastIdx < n && idx < n && Budget(n, cur, pushed, idx)
    ensures Budget(n, cur, pushed, idx + 1)
  {
  }

  lemma BudgetPush(n: nat, cur: DeviceSet, pushed: seq<DeviceSet>, idx: nat, c: DeviceSet)
    requires 0 <= cur.lastIdx < idx < n && Budget(n, cur, pushed, idx) && c.lastIdx == idx
    ensures Budget(n, cur, pushed + [c], idx + 1)
  {
    PotentialAppend(n, pushed, c);
    assert Pow2(n - idx) == 2 * Pow2(n - idx - 1);
    hide Potential, Pow2;
  }

  lemma BudgetStart(n: nat, cur: DeviceSet)
    requires 0 <= cur.lastIdx < n
    ensures Budget(n, cur, [], 0)
  {
  }

  lemma BudgetEnd(n: nat, cur: DeviceSet, pushed: seq<DeviceSet>)
    requires 0 <= cur.lastIdx < n && Budget(n, cur, pushed, n)
    ensures Potential(n, pushed) < Pow2(Rank(n, cur))
  {
  }

  /** What the inner loop keeps, for every newSize. */
  ghost predicate Extending(groups: Groups, weights: Weights, required: seq<int>, newSize: int, cur: DeviceSet,
                            pushed: seq<DeviceSet>, finals: seq<DeviceSet>, idx: nat)
  {
    && Budget(|groups|, cur, pushed, idx)
    && (newSize <= 0 ==> pushed == [] && finals == [])
    && (newSize > 0 ==> Built(groups, weights, required, newSize, cur.parentIds, pushed, finals, idx))
  }

  lemma ExtendingStart(groups: Groups, weights: Weights, required: seq<int>, newSize: int, cur: DeviceSet)
    requires 0 <= cur.lastIdx < |groups|
    ensures Extending(groups, weights, required, newSize, cur, [], [], 0)
  {
    BuiltNothing(groups, weights, required, newSize, cur.parentIds);
    BudgetStart(|groups|, cur);
    hide Built, Budget;
  }

  lemma ExtendingSkip(groups: Groups, weights: Weights, required: seq<int>, newSize: int, cur: DeviceSet,
                      pushed: seq<DeviceSet>, finals: seq<DeviceSet>, idx: nat)
    requires NonEmpty(groups) && 0 <= cur.lastIdx < |groups| && idx < |groups|
    requires newSize > 0 ==>
      IsNode(groups, weights, newSize, cur) && Skipped(groups, newSize, cur.parentIds, cur.lastIdx, cur.size, idx)
    requires Extending(groups, weights, required, newSize, cur, pushed, finals, idx)
    ensures Extending(groups, weights, required, newSize, cur, pushed, finals, idx + 1)
  {
    BudgetSkip(|groups|, cur, pushed, idx);
    hide Built, Budget, IsNode, NonEmpty;
    if newSize > 0 { BuiltSkip(groups, weights, required, newSize, cur, pushed, finals, idx); }
  }

  /** The inner loop: all partial sets and all completions that extend cur by one group. */
  method ExtendSubset(groups: Groups, weights: Weights, required: seq<int>, newSize: int, cur: DeviceSet)
    returns (pushed: seq<DeviceSet>, finals: seq<DeviceSet>)
    requires NonEmpty(groups) && 0 <= cur.lastIdx < |groups|
    requires cur.size == |cur.ids| && cur.totalWeight == PairSum(weights, cur.ids)
    requires newSize > 0 ==> IsNode(groups, weights, newSize, cur)
    ensures newSize <= 0 ==> pushed == [] && finals == []
    ensures newSize > 0 ==> Built(groups, weights, required, newSize, cur.parentIds, pushed, finals, |groups|)
    ensures Potential(|groups|, pushed) < Pow2(Rank(|groups|, cur))
  {
    hide IsNode, PairSum, Extending, NonEmpty;
    pushed, finals := [], [];
    ExtendingStart(groups, weights, required, newSize, cur);
    for idx := 0 to |groups|
      invariant Extending(groups, weights, required, newSize, cur, pushed, finals, idx)
    {
      if idx in cur.parentIds || (idx < cur.lastIdx && |groups[idx]| <= newSize - cur.size) {
        ExtendingSkip(groups, weights, required, newSize, cur, pushed, finals, idx);
        continue;
      }
      pushed, finals := ExtendByGroup(groups, weights, required, newSize, cur, idx, pushed, finals);
    }
    ExtendingEnd(groups, weights, required, newSize, cur, pushed, finals);
  }

  lemma ExtendingEnd(groups: Groups, weights: Weights, required: seq<int>, newSize: int, cur: DeviceSet,
                     pushed: seq<DeviceSet>, finals: seq<DeviceSet>)
    requires 0 <= cur.lastIdx < |groups| && Extending(groups, weights, required, newSize, cur, pushed, finals, |groups|)
    ensures newSize <= 0 ==> pushed == [] && finals == []
    ensures newSize > 0 ==> Built(groups, weights, required, newSize, cur.parentIds, pushed, finals, |groups|)
    ensures Potential(|groups|, pushed) < Pow2(Rank(|groups|, cur))
  {
    BudgetEnd(|groups|, cur, pushed);
    hide Built, Budget;
  }

  /** One round of the inner loop that is not skipped. */
  method ExtendByGroup(groups: Groups, weights: Weights, required: seq<int>, newSize: int, cur: DeviceSet, idx: nat,
                       pushed: seq<DeviceSet>, finals: seq<DeviceSet>)
    returns (pushed': seq<DeviceSet>, finals': seq<DeviceSet>)
    requires NonEmpty(groups) && 0 <= cur.lastIdx < |groups| && idx < |groups|
    requires cur.size == |cur.ids| && cur.totalWeight == PairSum(weights, cur.ids)
    requires newSize > 0 ==> IsNode(groups, weights, newSize, cur)
    requires !Skipped(groups, newSize, cur.parentIds, cur.lastIdx, cur.size, idx)
    requires Extending(groups, weights, required, newSize, cur, pushed, finals, idx)
    ensures Extending(groups, weights, required, newSize, cur, pushed', finals', idx + 1)
  {
    NodeIsSmall(groups, weights, newSize, cur);
    hide IsNode, PairSum, Built, Budget, NonEmpty;
    var devset, done := CompleteWith(groups, weights, required, newSize, cur, idx);
    pushed', finals' := pushed, finals;
    if done {
      BudgetSkip(|groups|, cur, pushed, idx);
      BuiltFinal(groups, weights, required, newSize, cur, pushed, finals, idx, devset);
      finals' := finals + [devset];
    }
    if devset.size < newSize {
      BuiltPushed(groups, weights, required, newSize, cur, pushed, finals, idx, devset);
      BudgetPush(|groups|, cur, pushed, idx, devset);
      pushed' := pushed + [devset];
    } else if !done {
      ExtendingSkip(groups, weights, required, newSize, cur, pushed, finals, idx);
    }
  }

  lemma NodeIsSmall(groups: Groups, weights: Weights, newSize: int, cur: DeviceSet)
    ensures newSize > 0 && IsNode(groups, weights, newSize, cur) ==> cur.size < newSize
  {
  }

  // ---------- the whole enumeration ----------

  /**
   * What the enumeration returns: every completion, in order and so once, with its ids, the required ids, and
   * its pair sum.
   */
  ghost predicate Enumerates(groups: Groups, weights: Weights, required: seq<int>, newSize: int, finals: seq<DeviceSet>) {
    && (forall k :: 0 <= k < |finals| ==> IsFinal(groups, weights, required, newSize, finals[k]))
    && InOrder(finals)
    && (forall q :: IsCompletion(groups, newSize, q) ==> Lists(finals, q))
  }

  /** A worklist entry as far as the loop relies on it whatever newSize is. */
  ghost predicate Sound(groups: Groups, weights: Weights, newSize: int, c: DeviceSet) {
    && 0 <= c.lastIdx < |groups|
    && c.size == |c.ids| && c.totalWeight == PairSum(weights, c.ids)
    && (newSize > 0 ==> IsNode(groups, weights, newSize, c))
  }

  /** The first loop. */
  method StartSubsets(groups: Groups, weights: Weights, required: seq<int>, newSize: int)
    returns (temp: seq<DeviceSet>, finals: seq<DeviceSet>)
    requires NonEmpty(groups)
    ensures AllSound(groups, weights, newSize, temp)
    ensures newSize <= 0 ==> finals == []
    ensures newSize > 0 ==> Built(groups, weights, required, newSize, [], temp, finals, |groups|)
  {
    BuiltNothing(groups, weights, required, newSize, []);
    hide PairSum, Built, IsNode, IsFinal;
    temp, finals := [], [];
    for idx := 0 to |groups|
      invariant forall k :: 0 <= k < |temp| ==> Sound(groups, weights, newSize, temp[k])
      invariant newSize <= 0 ==> finals == []
      invariant newSize > 0 ==> Built(groups, weights, required, newSize, [], temp, finals, idx)
    {
      var devset, done := StartSubset(groups, weights, required, newSize, idx);
      if done {
        StartedFinal(groups, weights, required, newSize, temp, finals, idx, devset);
        finals := finals + [devset];
      } else {
        if newSize > 0 { StartedNode(groups, weights, required, newSize, temp, finals, idx, devset); }
        temp := temp + [devset];
      }
    }
  }

  lemma StartedFinal(groups: Groups, weights: Weights, required: seq<int>, newSize: int,
                     temp: seq<DeviceSet>, finals: seq<DeviceSet>, idx: nat, c: DeviceSet)
    requires idx < |groups| && 0 < newSize <= |groups[idx]|
    requires Built(groups, weights, required, newSize, [], temp, finals, idx)
    requires c.parentIds == [idx] && IsFinal(groups, weights, required, newSize, c)
    ensures Built(groups, weights, required, newSize, [], temp, finals + [c], idx + 1)
  {
    PartialOne(groups, newSize, idx);
    assert [] + [idx] == [idx];
    ExtendNext(finals, c, [], idx);
    hide PairSum, Whole, ChosenIds, IsCompletion, IsPartial, IsNode, IsFinal, Lists;
    forall q | ExtendsBelow(q, [], idx + 1) ensures ExtendsBelow(q, [], idx) || q == [idx] {
      assert q == Front(q) + [Last(q)];
    }
  }

  lemma StartedNode(groups: Groups, weights: Weights, required: seq<int>, newSize: int,
                    temp: seq<DeviceSet>, finals: seq<DeviceSet>, idx: nat, c: DeviceSet)
    requires idx < |groups| && |groups[idx]| < newSize
    requires Built(groups, weights, required, newSize, [], temp, finals, idx)
    requires c.parentIds == [idx] && IsNode(groups, weights, newSize, c)
    ensures Built(groups, weights, required, newSize, [], temp + [c], finals, idx + 1)
  {
    PartialOne(groups, newSize, idx);
    assert [] + [idx] == [idx];
    ExtendNext(temp, c, [], idx);
    assert Last(c.parentIds) == idx;
    hide PairSum, Whole, ChosenIds, IsCompletion, IsPartial, IsNode, IsFinal, Lists;
    forall q | ExtendsBelow(q, [], idx + 1) ensures ExtendsBelow(q, [], idx) || q == [idx] {
      assert q == Front(q) + [Last(q)];
    }
  }

  /** q adds one group to a set that has been extended. */
  predicate Grows(q: seq<nat>, done: set<seq<nat>>) {
    q != [] && Front(q) in done
  }

  /** Every extended set was reached through a shorter one. */
  ghost predicate Closed(done: set<seq<nat>>) {
    [] in done && forall q :: q in done && q != [] ==> Grows(q, done)
  }

  ghost predicate After(done: set<seq<nat>>, p: seq<nat>) {
    forall d :: d in done ==> Before(d, p)
  }

  /** A queue entry: a partial set whose own extensions are still to be built, later than all that have been extended. */
  ghost predicate Waiting(groups: Groups, weights: Weights, newSize: int, done: set<seq<nat>>, c: DeviceSet) {
    IsNode(groups, weights, newSize, c) && After(done, c.parentIds) && Grows(c.parentIds, done)
  }

  ghost predicate AllWaiting(groups: Groups, weights: Weights, newSize: int, done: set<seq<nat>>, queue: seq<DeviceSet>) {
    InOrder(queue) && forall k :: 0 <= k < |queue| ==> Waiting(groups, weights, newSize, done, queue[k])
  }

  ghost predicate AllFinal(groups: Groups, weights: Weights, required: seq<int>, newSize: int, done: set<seq<nat>>, finals: seq<DeviceSet>) {
    && InOrder(finals)
    && (forall k :: 0 <= k < |finals| ==> IsFinal(groups, weights, required, newSize, finals[k]) && Grows(finals[k].parentIds, done))
  }

  /**
   * The state of the second loop: the sets in done (and the empty one) have been extended in every way; what extends
   * them is in done or waiting in the queue, and their completions are in finals; nothing is listed twice.
   */
  ghost predicate Explored(groups: Groups, weights: Weights, required: seq<int>, newSize: int,
                           done: set<seq<nat>>, queue: seq<DeviceSet>, finals: seq<DeviceSet>)
  {
    && Closed(done)
    && AllWaiting(groups, weights, newSize, done, queue)
    && AllFinal(groups, weights, required, newSize, done, finals)
    && (forall q :: Grows(q, done) && IsPartial(groups, newSize, q) ==> q in done || Lists(queue, q))
    && (forall q :: Grows(q, done) && IsCompletion(groups, newSize, q) ==> Lists(finals, q))
  }

  lemma ExploredStart(groups: Groups, weights: Weights, required: seq<int>, newSize: int, temp: seq<DeviceSet>, finals: seq<DeviceSet>)
    requires Built(groups, weights, required, newSize, [], temp, finals, |groups|)
    ensures Explored(groups, weights, required, newSize, {[]}, temp, finals)
  {
    ExtensionsInOrder(temp, [], |groups|);
    ExtensionsInOrder(finals, [], |groups|);
    hide PairSum, Whole, ChosenIds, IsNode, IsFinal, Lists, Increasing, InOrder, Lex;
  }

  lemma AfterPop(done: set<seq<nat>>, p: seq<nat>, q: seq<nat>)
    requires After(done, p) && ((Before(p, q) && After(done, q)) || |q| == |p| + 1)
    ensures After(done + {p}, q)
  {
    hide Lex;
  }

  /** What has grown from an extended set comes before what grows from a later one. */
  lemma GrownBefore(done: set<seq<nat>>, q: seq<nat>, p: seq<nat>, c: seq<nat>)
    requires Grows(q, done) && After(done, p) && c != [] && Front(c) == p
    ensures Before(q, c)
  {
    hide Before, Last;
    BeforeGrown(q, c);
  }

  lemma QueueStep(groups: Groups, weights: Weights, newSize: int, done: set<seq<nat>>, queue: seq<DeviceSet>, pushed: seq<DeviceSet>, n: nat)
    requires Closed(done) && queue != [] && AllWaiting(groups, weights, newSize, done, queue)
    requires ExtendInOrder(pushed, queue[0].parentIds, n)
    requires forall k :: 0 <= k < |pushed| ==> IsNode(groups, weights, newSize, pushed[k])
    ensures AllWaiting(groups, weights, newSize, done + {queue[0].parentIds}, queue[1..] + pushed)
  {
    var p := queue[0].parentIds;
    ExtensionsInOrder(pushed, p, n);
    hide IsNode, ExtendInOrder, Before, After;
    var rest, done' := queue[1..] + pushed, done + {p};
    assert Waiting(groups, weights, newSize, done, queue[0]);
    forall k | 0 <= k < |pushed| ensures Waiting(groups, weights, newSize, done', pushed[k]) && pushed[k].parentIds != [] && Front(pushed[k].parentIds) == p {
      PushedFront(pushed, p, n, k);
      AfterPop(done, p, pushed[k].parentIds);
    }
    forall k | 1 <= k < |queue| ensures Waiting(groups, weights, newSize, done', queue[k]) {
      assert Waiting(groups, weights, newSize, done, queue[k]);
      AfterPop(done, p, queue[k].parentIds);
    }
    forall i, j | 0 <= i < j < |rest| ensures Before(rest[i].parentIds, rest[j].parentIds) {
      if i + 1 < |queue| <= j + 1 {
        assert Waiting(groups, weights, newSize, done, queue[i + 1]);
        GrownBefore(done, rest[i].parentIds, p, rest[j].parentIds);
      }
    }
  }

  lemma PushedFront(pushed: seq<DeviceSet>, p: seq<nat>, n: nat, k: nat)
    requires ExtendInOrder(pushed, p, n) && k < |pushed|
    ensures pushed[k].parentIds != [] && Front(pushed[k].parentIds) == p && |pushed[k].parentIds| == |p| + 1
  {
  }

  lemma FinalsStep(groups: Groups, weights: Weights, required: seq<int>, newSize: int, done: set<seq<nat>>,
                   p: seq<nat>, finals: seq<DeviceSet>, more: seq<DeviceSet>, n: nat)
    requires After(done, p) && AllFinal(groups, weights, required, newSize, done, finals)
    requires ExtendInOrder(more, p, n)
    requires forall k :: 0 <= k < |more| ==> IsFinal(groups, weights, required, newSize, more[k])
    ensures AllFinal(groups, weights, required, newSize, done + {p}, finals + more)
  {
    ExtensionsInOrder(more, p, n);
    hide IsFinal, ExtendInOrder, Before, After;
    var all := finals + more;
    forall k | 0 <= k < |more| ensures more[k].parentIds != [] && Front(more[k].parentIds) == p {
      PushedFront(more, p, n, k);
    }
    forall i, j | 0 <= i < j < |all| ensures Before(all[i].parentIds, all[j].parentIds) {
      if i < |finals| <= j { GrownBefore(done, all[i].parentIds, p, all[j].parentIds); }
    }
  }

  lemma CoverStep(groups: Groups, newSize: int, done: set<seq<nat>>, queue: seq<DeviceSet>, finals: seq<DeviceSet>,
                  pushed: seq<DeviceSet>, more: seq<DeviceSet>, p: seq<nat>, q: seq<nat>)
    requires queue != [] && p == queue[0].parentIds && q != [] && Grows(q, done + {p})
    requires Grows(q, done) && IsPartial(groups, newSize, q) ==> q in done || Lists(queue, q)
    requires Grows(q, done) && IsCompletion(groups, newSize, q) ==> Lists(finals, q)
    requires ExtendsBelow(q, p, |groups|) && IsPartial(groups, newSize, q) ==> Lists(pushed, q)
    requires ExtendsBelow(q, p, |groups|) && IsCompletion(groups, newSize, q) ==> Lists(more, q)
    ensures IsPartial(groups, newSize, q) ==> q in done + {p} || Lists(queue[1..] + pushed, q)
    ensures IsCompletion(groups, newSize, q) ==> Lists(finals + more, q)
  {
    ListsTail(queue, q);
    ListsConcat(queue[1..], pushed, q);
    ListsConcat(finals, more, q);
    hide Lists, Whole, Increasing;
  }

  lemma ExploredStep(groups: Groups, weights: Weights, required: seq<int>, newSize: int, done: set<seq<nat>>,
                     queue: seq<DeviceSet>, finals: seq<DeviceSet>, pushed: seq<DeviceSet>, more: seq<DeviceSet>)
    requires queue != [] && Explored(groups, weights, required, newSize, done, queue, finals)
    requires Built(groups, weights, required, newSize, queue[0].parentIds, pushed, more, |groups|)
    ensures Explored(groups, weights, required, newSize, done + {queue[0].parentIds}, queue[1..] + pushed, finals + more)
  {
    hide IsPartial, IsCompletion, IsNode, IsFinal, Lists, ExtendInOrder, After;
    var p := queue[0].parentIds;
    assert Waiting(groups, weights, newSize, done, queue[0]);
    QueueStep(groups, weights, newSize, done, queue, pushed, |groups|);
    FinalsStep(groups, weights, required, newSize, done, p, finals, more, |groups|);
    hide AllWaiting, AllFinal;
    forall q | Grows(q, done + {p})
      ensures IsPartial(groups, newSize, q) ==> q in done + {p} || Lists(queue[1..] + pushed, q)
      ensures IsCompletion(groups, newSize, q) ==> Lists(finals + more, q)
    {
      CoverStep(groups, newSize, done, queue, finals, pushed, more, p, q);
    }
  }

  lemma ListsTail(s: seq<DeviceSet>, q: seq<nat>)
    requires s != []
    ensures Lists(s, q) ==> s[0].parentIds == q || Lists(s[1..], q)
  {
    if Lists(s, q) {
      var k :| 0 <= k < |s| && s[k].parentIds == q;
      if k > 0 { assert s[1..][k - 1].parentIds == q; }
    }
  }

  lemma ListsConcat(s: seq<DeviceSet>, t: seq<DeviceSet>, q: seq<nat>)
    ensures Lists(s, q) || Lists(t, q) ==> Lists(s + t, q)
  {
    if Lists(s, q) {
      var k :| 0 <= k < |s| && s[k].parentIds == q;
      assert (s + t)[k].parentIds == q;
    } else if Lists(t, q) {
      var k :| 0 <= k < |t| && t[k].parentIds == q;
      assert (s + t)[|s| + k].parentIds == q;
    }
  }

  /** With an empty queue every partial set has been extended. */
  lemma {:induction false} PartialsDone(groups: Groups, weights: Weights, required: seq<int>, newSize: int,
                                        done: set<seq<nat>>, finals: seq<DeviceSet>, q: seq<nat>)
    requires Explored(groups, weights, required, newSize, done, [], finals)
    requires q == [] || IsPartial(groups, newSize, q)
    ensures q in done
    decreases |q|
  {
    hide IsFinal, IsCompletion;
    if q != [] {
      assert |Whole(groups, q)| == |Whole(groups, Front(q))| + |groups[Last(q)]|;
      PartialsDone(groups, weights, required, newSize, done, finals, Front(q));
      assert Grows(q, done);
      assert !Lists([], q);
    }
  }

  lemma ExploredAll(groups: Groups, weights: Weights, required: seq<int>, newSize: int, done: set<seq<nat>>, finals: seq<DeviceSet>)
    requires Explored(groups, weights, required, newSize, done, [], finals)
    ensures Enumerates(groups, weights, required, newSize, finals)
  {
    forall q | IsCompletion(groups, newSize, q) ensures Lists(finals, q) {
      PartialsDone(groups, weights, required, newSize, done, finals, Front(q));
      assert Grows(q, done);
    }
    hide IsCompletion, IsFinal;
  }

  ghost predicate AllSound(groups: Groups, weights: Weights, newSize: int, s: seq<DeviceSet>) {
    forall k :: 0 <= k < |s| ==> Sound(groups, weights, newSize, s[k])
  }

  /** What the second loop keeps, for every newSize. */
  ghost predicate LoopState(groups: Groups, weights: Weights, required: seq<int>, newSize: int,
                            done: set<seq<nat>>, queue: seq<DeviceSet>, finals: seq<DeviceSet>)
  {
    && AllSound(groups, weights, newSize, queue)
    && (newSize > 0 ==> Explored(groups, weights, required, newSize, done, queue, finals))
    && (newSize <= 0 ==> finals == [])
  }

  lemma SoundStep(groups: Groups, weights: Weights, newSize: int, queue: seq<DeviceSet>, pushed: seq<DeviceSet>)
    requires queue != [] && AllSound(groups, weights, newSize, queue) && AllSound(groups, weights, newSize, pushed)
    ensures AllSound(groups, weights, newSize, queue[1..] + pushed)
  {
    hide Sound;
  }

  lemma PotentialStep(n: nat, queue: seq<DeviceSet>, pushed: seq<DeviceSet>)
    requires queue != [] && Potential(n, pushed) < Pow2(Rank(n, queue[0]))
    ensures Potential(n, queue[1..] + pushed) < Potential(n, queue)
  {
    PotentialPop(n, queue);
    PotentialConcat(n, queue[1..], pushed);
  }

  lemma LoopStep(groups: Groups, weights: Weights, required: seq<int>, newSize: int, done: set<seq<nat>>,
                 queue: seq<DeviceSet>, finals: seq<DeviceSet>, pushed: seq<DeviceSet>, more: seq<DeviceSet>)
    requires queue != [] && LoopState(groups, weights, required, newSize, done, queue, finals)
    requires newSize <= 0 ==> pushed == [] && more == []
    requires newSize > 0 ==> Built(groups, weights, required, newSize, queue[0].parentIds, pushed, more, |groups|)
    requires Potential(|groups|, pushed) < Pow2(Rank(|groups|, queue[0]))
    ensures LoopState(groups, weights, required, newSize, done + {queue[0].parentIds}, queue[1..] + pushed, finals + more)
    ensures Potential(|groups|, queue[1..] + pushed) < Potential(|groups|, queue)
  {
    PotentialStep(|groups|, queue, pushed);
    hide Potential, Pow2, Rank, Explored, Built, AllSound;
    if newSize > 0 {
      ExploredStep(groups, weights, required, newSize, done, queue, finals, pushed, more);
      PushedSound(groups, weights, required, newSize, queue[0].parentIds, pushed, more);
    } else {
      NothingSound(groups, weights, newSize);
    }
    SoundStep(groups, weights, newSize, queue, pushed);
  }

  lemma NothingSound(groups: Groups, weights: Weights, newSize: int)
    ensures AllSound(groups, weights, newSize, [])
  {
  }

  /** A set made of all groups cannot be extended, so skipping it is building nothing from it. */
  lemma LoopSkip(groups: Groups, weights: Weights, required: seq<int>, newSize: int, done: set<seq<nat>>,
                 queue: seq<DeviceSet>, finals: seq<DeviceSet>)
    requires queue != [] && LoopState(groups, weights, required, newSize, done, queue, finals)
    requires |queue[0].parentIds| == |groups|
    ensures LoopState(groups, weights, required, newSize, done + {queue[0].parentIds}, queue[1..], finals)
    ensures Potential(|groups|, queue[1..]) < Potential(|groups|, queue)
  {
    hide Explored, Built, IsNode, PairSum;
    if newSize > 0 { FullIsDone(groups, weights, required, newSize, queue[0]); }
    LoopStep(groups, weights, required, newSize, done, queue, finals, [], []);
    assert queue[1..] + [] == queue[1..] && finals + [] == finals;
  }

  /** The enumeration of getCandidateDeviceSubsets, after the groups are filtered. */
  method EnumerateSubsets(groups: Groups, weights: Weights, required: seq<int>, newSize: int) returns (finals: seq<DeviceSet>)
    requires NonEmpty(groups)
    ensures newSize > 0 ==> Enumerates(groups, weights, required, newSize, finals)
    ensures newSize <= 0 ==> finals == []
  {
    var queue: seq<DeviceSet>;
    queue, finals := StartSubsets(groups, weights, required, newSize);
    ghost var done: set<seq<nat>> := {[]};
    if newSize > 0 { ExploredStart(groups, weights, required, newSize, queue, finals); }
    hide PairSum, Built, IsNode, Explored, Enumerates, Potential, Pow2, NonEmpty;
    assert AllSound(groups, weights, newSize, queue);
    while |queue| > 0
      invariant LoopState(groups, weights, required, newSize, done, queue, finals)
      decreases Potential(|groups|, queue)
    {
      var cur := queue[0];
      if |cur.parentIds| == |groups| {
        LoopSkip(groups, weights, required, newSize, done, queue, finals);
        done := done + {cur.parentIds};
        queue := queue[1..];
        continue;
      }
      var pushed, more := ExtendSubset(groups, weights, required, newSize, cur);
      LoopStep(groups, weights, required, newSize, done, queue, finals, pushed, more);
      done := done + {cur.parentIds};
      queue, finals := queue[1..] + pushed, finals + more;
    }
    if newSize > 0 { ExploredAll(groups, weights, required, newSize, done, finals); }
  }

  lemma PushedSound(groups: Groups, weights: Weights, required: seq<int>, newSize: int, p: seq<nat>, pushed: seq<DeviceSet>, more: seq<DeviceSet>)
    requires Built(groups, weights, required, newSize, p, pushed, more, |groups|)
    ensures AllSound(groups, weights, newSize, pushed)
  {
    hide PairSum, Whole, IsCompletion, IsPartial, IsFinal, Lists;
  }

  lemma FullIsDone(groups: Groups, weights: Weights, required: seq<int>, newSize: int, c: DeviceSet)
    requires IsNode(groups, weights, newSize, c) && |c.parentIds| == |groups|
    ensures Built(groups, weights, required, newSize, c.parentIds, [], [], |groups|)
    ensures Pow2(Rank(|groups|, c)) > 0
  {
    var p := c.parentIds;
    forall q: seq<nat> | q != [] && Front(q) == p && InRange(groups, q) ensures Last(q) in p && !Increasing(q) {
      IncreasingCoversAll(p, |groups|, Last(q));
      var k :| 0 <= k < |p| && p[k] == Last(q);
      assert q[k] == p[k] && q[|q| - 1] == q[k];
    }
    hide IsFinal, PairSum, Whole;
  }

  /** n increasing indices below n are all of them. */
  lemma {:induction false} IncreasingCoversAll(p: seq<nat>, n: nat, x: nat)
    requires Increasing(p) && |p| == n && x < n && forall i :: 0 <= i < |p| ==> p[i] < n
    ensures x in p
  {
    IncreasingAtLeast(p, x);
    IncreasingAtMost(p, n, x);
    assert p[x] == x;
  }

  lemma {:induction false} IncreasingAtLeast(p: seq<nat>, k: nat)
    requires Increasing(p) && k < |p|
    ensures p[k] >= k
  {
    if k > 0 { IncreasingAtLeast(p, k - 1); }
  }

  lemma {:induction false} IncreasingAtMost(p: seq<nat>, n: nat, k: nat)
    requires Increasing(p) && k < |p| && forall i :: 0 <= i < |p| ==> p[i] < n
    ensures p[k] + |p| <= n + k
    decreases |p| - k
  {
    if k < |p| - 1 { IncreasingAtMost(p, n, k + 1); }
  }
}
