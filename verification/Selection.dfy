/** What the scored branch of the policy answers, in terms of the candidate family, and that the answer is well formed. */
module Selection {
  import opened Arith
  import opened CandidateFamily
  import opened Candidates
  import opened CandidateSubsets
  import opened DeviceGroups
  import opened FilteredGroups
  import opened PairWeights
  import opened Permutation
  import opened RegisteredDevices
  import opened Sorting
  import opened SubsetScore

  /** The score of a family member together with the required nodes. */
  function Score(groups: Groups, weights: Weights, required: seq<int>, newSize: int, whole: seq<nat>, f: nat): int
    requires Member(groups, newSize, whole, f)
  {
    PairSum(weights, Whole(groups, whole) + groups[f][..newSize - |Whole(groups, whole)|] + required)
  }

  /** No member of the family scores better than score. */
  ghost predicate NoneBetter(groups: Groups, weights: Weights, required: seq<int>, newSize: int, spread: bool, score: int) {
    forall whole, f :: Member(groups, newSize, whole, f) ==> !Better(spread, Score(groups, weights, required, newSize, whole, f), score)
  }

  /** Of the free devices of each node as many are taken as ids asks for, if there are that many. */
  ghost predicate PicksFor(free: seq<Device>, ids: multiset<int>, picks: seq<Device>) {
    && multiset(picks) <= multiset(free)
    && (forall x :: Nodes(picks)[x] == Min(Nodes(free)[x], ids[x]))
  }

  /** The score of a completion together with the required nodes. */
  function CompletionScore(groups: Groups, weights: Weights, required: seq<int>, newSize: int, p: seq<nat>): int
    requires IsCompletion(groups, newSize, p)
  {
    PairSum(weights, ChosenIds(groups, newSize, p) + required)
  }

  predicate SameScore(groups: Groups, weights: Weights, required: seq<int>, newSize: int, p: seq<nat>, q: seq<nat>)
    requires IsCompletion(groups, newSize, p)
  {
    && IsCompletion(groups, newSize, q)
    && CompletionScore(groups, weights, required, newSize, q) == CompletionScore(groups, weights, required, newSize, p)
  }

  /** Of the completions with p's score, p is the one of fewest groups, then of lowest indices. */
  ghost predicate FirstOfScore(groups: Groups, weights: Weights, required: seq<int>, newSize: int, p: seq<nat>)
    requires IsCompletion(groups, newSize, p)
  {
    forall q :: SameScore(groups, weights, required, newSize, p, q) ==> q == p || Before(p, q)
  }

  /** out is the must-include ids and devices for the nodes of the first best completion p. */
  ghost predicate AnswerAt(groups: Groups, weights: Weights, required: seq<int>, newSize: int, spread: bool,
                           free: seq<Device>, requiredIds: seq<string>, out: seq<string>, p: seq<nat>, picks: seq<Device>)
  {
    && IsCompletion(groups, newSize, p)
    && NoneBetter(groups, weights, required, newSize, spread, CompletionScore(groups, weights, required, newSize, p))
    && FirstOfScore(groups, weights, required, newSize, p)
    && PicksFor(free, multiset(ChosenIds(groups, newSize, p)), picks)
    && out == requiredIds + DeviceIds(picks)
  }

  ghost predicate Answer(groups: Groups, weights: Weights, required: seq<int>, newSize: int, spread: bool,
                         free: seq<Device>, requiredIds: seq<string>, out: seq<string>)
  {
    exists p, picks :: AnswerAt(groups, weights, required, newSize, spread, free, requiredIds, out, p, picks)
  }

  // ---------- from candidates to family members ----------

  lemma CandidateScore(groups: Groups, weights: Weights, required: seq<int>, newSize: int, c: DeviceSet, whole: seq<nat>, f: nat)
    requires Member(groups, newSize, whole, f) && c.totalWeight == PairSum(weights, c.ids)
    requires multiset(c.ids) == MemberIds(groups, newSize, whole, f) + multiset(required)
    ensures c.totalWeight == Score(groups, weights, required, newSize, whole, f)
  {
    hide PairSum, Whole, Increasing, InRange;
    var t := groups[f][..newSize - |Whole(groups, whole)|];
    assert multiset(c.ids) == multiset(Whole(groups, whole) + t + required);
    PairSumPermute(weights, c.ids, Whole(groups, whole) + t + required);
  }

  /** A bound on all candidates is a bound on the whole family. */
  lemma BoundOnFamily(groups: Groups, weights: Weights, required: seq<int>, newSize: int, all: seq<DeviceSet>, spread: bool, score: int)
    requires Exact(groups, weights, required, newSize, all)
    ensures (forall k :: 0 <= k < |all| ==> !Better(spread, all[k].totalWeight, score))
      <==> NoneBetter(groups, weights, required, newSize, spread, score)
  {
    hide PairSum, Whole, Member, MemberIds, Score, Better, DisjointGroups;
    if forall k :: 0 <= k < |all| ==> !Better(spread, all[k].totalWeight, score) {
      forall whole, f | Member(groups, newSize, whole, f)
        ensures !Better(spread, Score(groups, weights, required, newSize, whole, f), score)
      {
        assert HasIds(all, MemberIds(groups, newSize, whole, f) + multiset(required));
        var k :| 0 <= k < |all| && multiset(all[k].ids) == MemberIds(groups, newSize, whole, f) + multiset(required);
        assert InFamily(groups, weights, required, newSize, all[k]);
        CandidateScore(groups, weights, required, newSize, all[k], whole, f);
      }
    }
    if NoneBetter(groups, weights, required, newSize, spread, score) {
      forall k | 0 <= k < |all| ensures !Better(spread, all[k].totalWeight, score) {
        assert InFamily(groups, weights, required, newSize, all[k]);
        var whole, f :| Member(groups, newSize, whole, f)
          && multiset(all[k].ids) == MemberIds(groups, newSize, whole, f) + multiset(required);
        CandidateScore(groups, weights, required, newSize, all[k], whole, f);
      }
    }
  }

  /** The chosen candidate is the first best completion. */
  lemma ChosenIsFirst(groups: Groups, weights: Weights, required: seq<int>, newSize: int, spread: bool, all: seq<DeviceSet>, c: DeviceSet)
    requires Enumerates(groups, weights, required, newSize, all) && FirstBest(all, spread, c)
    ensures IsFinal(groups, weights, required, newSize, c)
    ensures FirstOfScore(groups, weights, required, newSize, c.parentIds)
  {
    hide PairSum, IsCompletion, ChosenIds, Before, InOrder;
    var k: nat :| FirstBestAt(all, spread, k) && c == all[k];
    assert IsFinal(groups, weights, required, newSize, all[k]);
    forall q | SameScore(groups, weights, required, newSize, c.parentIds, q)
      ensures q == c.parentIds || Before(c.parentIds, q)
    {
      var j: nat :| j < |all| && all[j].parentIds == q;
      assert IsFinal(groups, weights, required, newSize, all[j]);
      TieBreak(all, spread, c, j);
    }
  }

  /** The chosen candidate, mapped back to device ids. */
  lemma ChosenAnswers(groups: Groups, weights: Weights, required: seq<Device>, newSize: int, spread: bool, all: seq<DeviceSet>,
                      c: DeviceSet, free: seq<Device>, requiredIds: seq<string>, need: map<int, int>, picks: seq<Device>,
                      left: map<int, int>, out: seq<string>)
    requires Enumerates(groups, weights, NodeIds(required), newSize, all) && Exact(groups, weights, NodeIds(required), newSize, all)
    requires FirstBest(all, spread, c)
    requires Needed(multiset(c.ids), Nodes(required), need) && Picked(free, need, picks, left)
    requires out == requiredIds + DeviceIds(picks)
    ensures Answer(groups, weights, NodeIds(required), newSize, spread, free, requiredIds, out)
  {
    hide PairSum, IsCompletion, ChosenIds, NodeIds, Nodes, NoneBetter, Exact, Enumerates, Better, DeviceIds, FirstOfScore, Needed, Picked, PicksFor;
    var ids, p := NodeIds(required), c.parentIds;
    NodeIdsNodes(required);
    ChosenIsFirst(groups, weights, ids, newSize, spread, all, c);
    BoundOnFamily(groups, weights, ids, newSize, all, spread, c.totalWeight);
    NeedIsMember(multiset(c.ids), multiset(ChosenIds(groups, newSize, p)), Nodes(required), need, free, picks, left);
    assert AnswerAt(groups, weights, ids, newSize, spread, free, requiredIds, out, p, picks);
  }

  /** At k, the first place where p and q differ, p has a GPU with no more free devices than q's. */
  predicate DiffersAt(groups: seq<DevicePartitions>, p: seq<nat>, q: seq<nat>, k: nat) {
    && k < |p| == |q| && p[..k] == q[..k] && p[k] < q[k] < |groups|
    && |groups[p[k]].ids| <= |groups[q[k]].ids|
  }

  /** p takes fewer GPUs than q, or, at the first GPU where they differ, one with no more free devices. */
  ghost predicate Prefers(groups: seq<DevicePartitions>, p: seq<nat>, q: seq<nat>) {
    |p| < |q| || exists k :: DiffersAt(groups, p, q, k)
  }

  lemma {:induction false} LexDiffers(a: seq<nat>, b: seq<nat>) returns (k: nat)
    requires |a| == |b| && Lex(a, b)
    ensures k < |a| && a[..k] == b[..k] && a[k] < b[k]
  {
    if a[0] < b[0] {
      k := 0;
    } else {
      var j := LexDiffers(a[1..], b[1..]);
      k := j + 1;
      assert a[..k] == [a[0]] + a[1..][..j] && b[..k] == [b[0]] + b[1..][..j];
    }
  }

  /** The order of the candidates prefers few GPUs, and GPUs with few free devices: it avoids fragmentation. */
  lemma BeforePrefers(groups: seq<DevicePartitions>, p: seq<nat>, q: seq<nat>)
    requires Ordered(groups, GroupLess) && InRange(IdsOf(groups), p) && InRange(IdsOf(groups), q) && Before(p, q)
    ensures Prefers(groups, p, q)
  {
    hide StringLess;
    if |p| == |q| {
      var k := LexDiffers(p, q);
      assert !GroupLess(groups[q[k]], groups[p[k]]);
      assert DiffersAt(groups, p, q, k);
    }
  }

  /** The answer comes from the best completion that, among equal scores, is preferred to every other. */
  lemma AnswerAvoidsFragmentation(groups: seq<DevicePartitions>, weights: Weights, required: seq<int>, newSize: int, spread: bool,
                                  free: seq<Device>, requiredIds: seq<string>, out: seq<string>) returns (p: seq<nat>, picks: seq<Device>)
    requires Ordered(groups, GroupLess) && Answer(IdsOf(groups), weights, required, newSize, spread, free, requiredIds, out)
    ensures AnswerAt(IdsOf(groups), weights, required, newSize, spread, free, requiredIds, out, p, picks)
    ensures forall q :: SameScore(IdsOf(groups), weights, required, newSize, p, q) && q != p ==> Prefers(groups, p, q)
  {
    hide Ordered, Before, NoneBetter, PicksFor, Prefers, CompletionScore, IdsOf;
    p, picks :| AnswerAt(IdsOf(groups), weights, required, newSize, spread, free, requiredIds, out, p, picks);
    forall q | SameScore(IdsOf(groups), weights, required, newSize, p, q) && q != p ensures Prefers(groups, p, q)
    {
      BeforePrefers(groups, p, q);
    }
  }

  // ---------- the choice, read off the weight table ----------

  /** Over the whole family, the sum of the answer's table entries is least when packing, and greatest when spreading. */
  lemma AnswerIsBest(groups: Groups, weights: Weights, required: seq<int>, newSize: int, spread: bool,
                     free: seq<Device>, requiredIds: seq<string>, out: seq<string>) returns (p: seq<nat>, picks: seq<Device>)
    requires Answer(groups, weights, required, newSize, spread, free, requiredIds, out)
    ensures AnswerAt(groups, weights, required, newSize, spread, free, requiredIds, out, p, picks)
    ensures forall whole: seq<nat>, f: nat :: Member(groups, newSize, whole, f) ==>
      var other := TableSum(weights, Whole(groups, whole) + groups[f][..newSize - |Whole(groups, whole)|] + required);
      var chosen := TableSum(weights, ChosenIds(groups, newSize, p) + required);
      if spread then other <= chosen else chosen <= other
  {
    hide PairSum, TableSum, FirstOfScore, PicksFor, Whole, InRange, Increasing, IsCompletion, ChosenIds;
    p, picks :| AnswerAt(groups, weights, required, newSize, spread, free, requiredIds, out, p, picks);
    ScoreOnTable(weights, ChosenIds(groups, newSize, p) + required);
    forall whole: seq<nat>, f: nat | Member(groups, newSize, whole, f)
      ensures var other := TableSum(weights, Whole(groups, whole) + groups[f][..newSize - |Whole(groups, whole)|] + required);
        var chosen := TableSum(weights, ChosenIds(groups, newSize, p) + required);
        if spread then other <= chosen else chosen <= other
    {
      ScoreOnTable(weights, Whole(groups, whole) + groups[f][..newSize - |Whole(groups, whole)|] + required);
      assert !Better(spread, Score(groups, weights, required, newSize, whole, f), CompletionScore(groups, weights, required, newSize, p));
    }
  }

  lemma TwoIds(weights: Weights, ids: seq<int>, a: int, b: int)
    requires multiset(ids) == multiset{a, b} && a < b && (a, b) in weights
    ensures PairSum(weights, ids + []) == weights[(a, b)]
  {
    hide PairSum;
    assert ids + [] == ids;
    PairScore(weights, a, b);
    PairSumPermute(weights, ids, [a, b]);
  }

  /** Of two devices on different nodes, packing picks the pair of least weight in the table, spreading that of the greatest. */
  lemma ClosestPair(groups: Groups, weights: Weights, spread: bool, free: seq<Device>, requiredIds: seq<string>, out: seq<string>,
                    p: seq<nat>, picks: seq<Device>, a: int, b: int, whole: seq<nat>, f: nat, x: int, y: int)
    requires AnswerAt(groups, weights, [], 2, spread, free, requiredIds, out, p, picks)
    requires a < b && (a, b) in weights && multiset(ChosenIds(groups, 2, p)) == multiset{a, b}
    requires Member(groups, 2, whole, f)
    requires x < y && (x, y) in weights && MemberIds(groups, 2, whole, f) == multiset{x, y}
    ensures if spread then weights[(a, b)] >= weights[(x, y)] else weights[(a, b)] <= weights[(x, y)]
  {
    hide PairSum, FirstOfScore, PicksFor, Whole, InRange, Increasing, IsCompletion, ChosenIds;
    TwoIds(weights, ChosenIds(groups, 2, p), a, b);
    var ids := Whole(groups, whole) + groups[f][..2 - |Whole(groups, whole)|];
    assert multiset(ids) == multiset{x, y};
    TwoIds(weights, ids, x, y);
    assert !Better(spread, Score(groups, weights, [], 2, whole, f), CompletionScore(groups, weights, [], 2, p));
  }

  lemma {:induction false} WholeHolds(groups: Groups, q: seq<nat>, x: int) returns (i: nat)
    requires InRange(groups, q) && x in Whole(groups, q)
    ensures i in q && x in groups[i]
  {
    var front, last := q[..|q| - 1], q[|q| - 1];
    if x in groups[last] {
      i := last;
    } else {
      i := WholeHolds(groups, front, x);
    }
  }

  lemma {:induction false} WholeTakesAll(groups: Groups, q: seq<nat>, i: nat)
    requires InRange(groups, q) && i in q
    ensures multiset(groups[i]) <= multiset(Whole(groups, q))
  {
    var front, last := q[..|q| - 1], q[|q| - 1];
    assert q == front + [last];
    if i != last { WholeTakesAll(groups, front, i); }
  }

  lemma InOneGroup(groups: Groups, i: nat, j: nat, x: int)
    requires DisjointGroups(groups) && i < |groups| && j < |groups| && x in groups[i] && x in groups[j]
    ensures i == j
  {
  }

  lemma CountInParts(ids: seq<int>, n: nat, x: int)
    requires n <= |ids| && x !in ids[n..]
    ensures multiset(ids[..n])[x] == multiset(ids)[x]
  {
    assert ids == ids[..n] + ids[n..];
    assert multiset(ids[n..])[x] == 0;
  }

  /** Of every GPU the candidates take the lowest free nodes: one is taken only with all devices of the lower ones. */
  lemma LowestFirst(devs: seq<Device>, gpus: set<string>, groups: seq<DevicePartitions>, newSize: int, p: seq<nat>, k: nat, x: int, y: int)
    requires DisjointNodes(devs) && GroupEntries(devs, gpus, groups) && IsCompletion(IdsOf(groups), newSize, p)
    requires k < |groups| && x in groups[k].ids && y in groups[k].ids && x < y
    requires y in ChosenIds(IdsOf(groups), newSize, p)
    ensures multiset(ChosenIds(IdsOf(groups), newSize, p))[x] >= multiset(groups[k].ids)[x]
  {
    hide GroupEntries, DisjointNodes, Whole, DisjointGroups;
    var all := IdsOf(groups);
    FilteredDisjoint(devs, gpus, groups);
    var whole := Whole(all, Front(p));
    var last, n := Last(p), newSize - |whole|;
    if y in whole {
      var i := WholeHolds(all, Front(p), y);
      InOneGroup(all, i, k, y);
      WholeTakesAll(all, Front(p), k);
    } else {
      assert y in all[last][..n];
      InOneGroup(all, last, k, y);
      if x in groups[k].ids[n..] { PrefixIsLowest(devs, gpus, groups, k, n, y, x); }
      CountInParts(groups[k].ids, n, x);
    }
  }

  lemma NeedIsMember(ids: multiset<int>, member: multiset<int>, required: multiset<int>, need: map<int, int>,
                     free: seq<Device>, picks: seq<Device>, left: map<int, int>)
    requires ids == member + required && Needed(ids, required, need) && Picked(free, need, picks, left)
    ensures PicksFor(free, member, picks)
  {
    hide Nodes;
    forall x ensures Nodes(picks)[x] == Min(Nodes(free)[x], member[x]) {
      assert Left(need, x) == Surplus(ids, required, x);
      assert PickedAt(free, need, picks, left, x);
    }
  }

  // ---------- the family fits into what is left ----------

  lemma WholeUp(groups: Groups, n: nat)
    requires 0 < n <= |groups|
    ensures InRange(groups, UpTo(n - 1)) && InRange(groups, UpTo(n))
    ensures Whole(groups, UpTo(n)) == Whole(groups, UpTo(n - 1)) + groups[n - 1]
  {
    hide Whole, InRange;
    UpToIncreases(groups, n - 1);
    WholeAppend(groups, UpTo(n - 1), n - 1);
  }

  lemma WholeLast(groups: Groups, p: seq<nat>)
    requires Increasing(p) && InRange(groups, p) && p != []
    ensures Increasing(Front(p)) && InRange(groups, Front(p)) && Last(p) < |groups|
    ensures Front(p) != [] ==> Last(Front(p)) < Last(p)
    ensures Whole(groups, p) == Whole(groups, Front(p)) + groups[Last(p)]
  {
    hide Whole, Increasing;
    IncreasingFront(p);
    WholeAppend(groups, Front(p), Last(p));
  }

  lemma {:induction false} WholeBelow(groups: Groups, p: seq<nat>, n: nat)
    requires n <= |groups| && Increasing(p) && InRange(groups, p) && InRange(groups, UpTo(n))
    requires p != [] ==> Last(p) < n
    ensures multiset(Whole(groups, p)) <= multiset(Whole(groups, UpTo(n)))
    decreases n
  {
    hide Whole, Increasing, InRange, UpTo, Front, Last;
    if p == [] {
      WholeNothing(groups);
    } else {
      WholeUp(groups, n);
      WholeLast(groups, p);
      if Last(p) < n - 1 {
        WholeBelow(groups, p, n - 1);
      } else {
        WholeBelow(groups, Front(p), n - 1);
      }
    }
  }

  lemma WholeNothing(groups: Groups)
    ensures InRange(groups, []) && Whole(groups, []) == []
  {
  }

  lemma PrefixMultiset(ids: seq<int>, n: nat)
    requires n <= |ids|
    ensures multiset(ids[..n]) <= multiset(ids)
  {
    assert ids == ids[..n] + ids[n..];
  }

  /** The groups of a member, in index order. */
  lemma MemberGroups(groups: Groups, newSize: int, whole: seq<nat>, f: nat) returns (p: seq<nat>)
    requires Member(groups, newSize, whole, f)
    ensures p != [] && Increasing(p) && InRange(groups, p) && Last(p) < |groups|
    ensures multiset(Whole(groups, p)) == multiset(Whole(groups, whole)) + multiset(groups[f])
  {
    hide Whole, Increasing, InRange, Insert;
    p := Insert(whole, f);
    InsertSorts(whole, f);
    InsertAdds(groups, whole, f);
    LastBelow(groups, p);
  }

  lemma MemberSize(groups: Groups, newSize: int, whole: seq<nat>, f: nat)
    requires Member(groups, newSize, whole, f)
    ensures MemberIds(groups, newSize, whole, f) <= multiset(Whole(groups, whole)) + multiset(groups[f])
    ensures |MemberIds(groups, newSize, whole, f)| == newSize
  {
    hide Whole, Increasing, InRange;
    PrefixMultiset(groups[f], newSize - |Whole(groups, whole)|);
  }

  /** A member takes no more of any node than the groups hold. */
  lemma MemberFits(groups: Groups, newSize: int, whole: seq<nat>, f: nat)
    requires Member(groups, newSize, whole, f)
    ensures InRange(groups, UpTo(|groups|))
    ensures MemberIds(groups, newSize, whole, f) <= multiset(Whole(groups, UpTo(|groups|)))
    ensures |MemberIds(groups, newSize, whole, f)| == newSize
  {
    hide Whole, Increasing, InRange, MemberIds, UpTo, Last;
    var p := MemberGroups(groups, newSize, whole, f);
    MemberSize(groups, newSize, whole, f);
    UpToIncreases(groups, |groups|);
    WholeBelow(groups, p, |groups|);
  }

  lemma LastBelow(groups: Groups, p: seq<nat>)
    requires InRange(groups, p) && p != []
    ensures Last(p) < |groups|
  {
  }

  /** A request kubelet may make: distinct ids, the must-include ones among the available ones. */
  ghost predicate KubeletRequest(m: DeviceMap, availableIds: seq<string>, requiredIds: seq<string>) {
    && ById(m) && NoDuplicates(availableIds) && NoDuplicates(requiredIds)
    && (forall id :: id in requiredIds ==> id in availableIds)
  }

  /** The filter keeps no more of any node than the free devices have, stale table entries or not. */
  lemma KeptFits(devs: seq<Device>, m: DeviceMap, available: seq<Device>, availableIds: seq<string>, requiredIds: seq<string>,
                 groups: seq<DevicePartitions>)
    requires KubeletRequest(m, availableIds, requiredIds) && multiset(available) == multiset(Registered(m, availableIds))
    requires Filtered(devs, available, Registered(m, requiredIds), groups)
    ensures AllIds(groups) <= Nodes(Free(available, requiredIds))
  {
    hide Nodes, NoDuplicates, ById, Registered, Free, AllIds, GroupEntries, Ordered;
    FreeAndRequired(m, available, availableIds, requiredIds);
    forall x ensures AllIds(groups)[x] <= Nodes(Free(available, requiredIds))[x] {
      assert FilteredAt(devs, available, Registered(m, requiredIds), AllIds(groups), x);
    }
  }

  /** Without stale entries on offer it keeps exactly the nodes of the free devices. */
  lemma KeptIsFree(devs: seq<Device>, m: DeviceMap, available: seq<Device>, availableIds: seq<string>, requiredIds: seq<string>,
                   groups: seq<DevicePartitions>)
    requires KubeletRequest(m, availableIds, requiredIds) && multiset(available) == multiset(Registered(m, availableIds))
    requires Present(devs, m, availableIds) && Filtered(devs, available, Registered(m, requiredIds), groups)
    ensures |AllIds(groups)| == |available| - |Registered(m, requiredIds)|
  {
    hide Nodes, NoDuplicates, ById, Registered, Free, Filtered, AllIds;
    var required := Registered(m, requiredIds);
    FreeAndRequired(m, available, availableIds, requiredIds);
    AllRegistered(devs, m, availableIds);
    NodesMonotone(available, devs);
    assert Nodes(required) <= Nodes(available);
    Conserved(devs, available, required, groups);
  }

  lemma IdsHeld(groups: seq<DevicePartitions>)
    ensures InRange(IdsOf(groups), UpTo(|groups|))
    ensures multiset(Whole(IdsOf(groups), UpTo(|groups|))) == AllIds(groups)
    ensures |Whole(IdsOf(groups), UpTo(|groups|))| == |AllIds(groups)|
  {
    hide AllIds, Whole, InRange;
    WholeUpTo(groups, |groups|);
    WholeSize(groups);
    assert groups[..|groups|] == groups;
  }

  /** With size registered ids on offer and fewer must-include ones, the family is not empty. */
  lemma FamilyNotEmpty(devs: seq<Device>, m: DeviceMap, available: seq<Device>, availableIds: seq<string>, requiredIds: seq<string>,
                       groups: seq<DevicePartitions>, newSize: int) returns (whole: seq<nat>, f: nat)
    requires KubeletRequest(m, availableIds, requiredIds) && multiset(available) == multiset(Registered(m, availableIds))
    requires Present(devs, m, availableIds) && Filtered(devs, available, Registered(m, requiredIds), groups)
    requires 0 < newSize <= |available| - |Registered(m, requiredIds)|
    ensures Member(IdsOf(groups), newSize, whole, f)
  {
    hide Nodes, NoDuplicates, ById, Registered, KubeletRequest, AllIds, Whole, InRange, Member, IsCompletion, MemberIds, ChosenIds, IdsOf, GroupEntries, Ordered, Free;
    KeptIsFree(devs, m, available, availableIds, requiredIds, groups);
    IdsHeld(groups);
    FilteredNonEmpty(devs, Gpus(devs), groups);
    SizeOfIds(groups);
    var p := SomeCompletion(IdsOf(groups), newSize, |groups|);
    CompletionIsMember(IdsOf(groups), newSize, p);
    whole, f := Front(p), Last(p);
  }

  lemma SizeOfIds(groups: seq<DevicePartitions>)
    ensures |IdsOf(groups)| == |groups|
  {
  }

  // ---------- the score bound ----------

  /** Scores are sums of size*(size-1)/2 pair weights of at most 90. */
  lemma ScoreBound(groups: Groups, weights: Weights, required: seq<int>, newSize: int, whole: seq<nat>, f: nat)
    requires InBounds(weights) && Member(groups, newSize, whole, f)
    ensures 0 <= 2 * Score(groups, weights, required, newSize, whole, f) <= MAX_WEIGHT * ((newSize + |required|) * (newSize + |required| - 1))
  {
    hide PairSum, Whole, Increasing, InRange, InBounds;
    PairSumBound(weights, Whole(groups, whole) + groups[f][..newSize - |Whole(groups, whole)|] + required);
  }

  /** The spread policy always finds a candidate; the packing one unless the scores can exceed the starting score. */
  lemma SomeoneBetter(groups: Groups, weights: Weights, required: seq<int>, newSize: int, spread: bool, whole: seq<nat>, f: nat)
    requires InBounds(weights) && Member(groups, newSize, whole, f)
    requires spread || MAX_WEIGHT * ((newSize + |required|) * (newSize + |required| - 1)) < 2 * MAX_INT32
    ensures !NoneBetter(groups, weights, required, newSize, spread, StartScore(spread))
  {
    hide Member, Score, InBounds;
    ScoreBound(groups, weights, required, newSize, whole, f);
  }

  // ---------- the answer is well formed ----------

  lemma PicksExact(free: seq<Device>, ids: multiset<int>, picks: seq<Device>)
    requires PicksFor(free, ids, picks) && ids <= Nodes(free)
    ensures Nodes(picks) == ids && |picks| == |ids|
  {
    hide Nodes;
    forall x ensures Nodes(picks)[x] == ids[x] {
      assert ids[x] <= Nodes(free)[x];
    }
    NodesSize(picks);
  }

  lemma SubDistinct(picks: seq<Device>, free: seq<Device>)
    requires multiset(picks) <= multiset(free) && NoDuplicates(free)
    ensures NoDuplicates(picks)
  {
    forall i, j | 0 <= i < j < |picks| ensures picks[i] != picks[j] {
      if picks[i] == picks[j] {
        CountTwice(picks, i, j);
        NoDuplicatesCount(free, picks[j]);
      }
    }
  }

  /** A picked device is registered under its own id, available and not must-include. */
  lemma PickIsFree(m: DeviceMap, available: seq<Device>, availableIds: seq<string>, requiredIds: seq<string>,
                   picks: seq<Device>, k: nat)
    requires ById(m) && multiset(available) == multiset(Registered(m, availableIds)) && k < |picks|
    requires multiset(picks) <= multiset(Free(available, requiredIds))
    ensures var id := picks[k].id; id in availableIds && id !in requiredIds && id in m && m[id] == picks[k]
  {
    hide Registered, Free, ById;
    var d := picks[k];
    assert d in multiset(picks);
    assert d in multiset(Free(available, requiredIds));
    FreeMembers(available, requiredIds, d);
    SameContents(available, Registered(m, availableIds));
    RegisteredMembers(m, availableIds, d);
  }

  lemma PickedIds(m: DeviceMap, available: seq<Device>, availableIds: seq<string>, requiredIds: seq<string>,
                  picks: seq<Device>)
    requires ById(m) && multiset(available) == multiset(Registered(m, availableIds))
    requires multiset(picks) <= multiset(Free(available, requiredIds)) && NoDuplicates(picks)
    ensures NoDuplicates(DeviceIds(picks))
    ensures forall id :: id in DeviceIds(picks) ==> id in availableIds && id !in requiredIds
  {
    hide Registered, Free, ById;
    forall k | 0 <= k < |picks| ensures var id := picks[k].id; id in availableIds && id !in requiredIds && id in m && m[id] == picks[k] {
      PickIsFree(m, available, availableIds, requiredIds, picks, k);
    }
  }

  /** size distinct available ids with every must-include id. */
  ghost predicate WellFormed(availableIds: seq<string>, requiredIds: seq<string>, size: int, out: seq<string>) {
    && |out| == size && NoDuplicates(out)
    && (forall id :: id in out ==> id in availableIds)
    && (forall id :: id in requiredIds ==> id in out)
  }

  /**
   * The answer is well formed, except that must-include ids which are not registered are counted neither by the
   * candidate nor by the pick: they make the answer longer than size.
   */
  lemma AnswerWellFormed(devs: seq<Device>, m: DeviceMap, available: seq<Device>, availableIds: seq<string>, requiredIds: seq<string>,
                         groups: seq<DevicePartitions>, weights: Weights, newSize: int, spread: bool, out: seq<string>)
    requires KubeletRequest(m, availableIds, requiredIds) && multiset(available) == multiset(Registered(m, availableIds))
    requires Filtered(devs, available, Registered(m, requiredIds), groups)
    requires Answer(IdsOf(groups), weights, NodeIds(Registered(m, requiredIds)), newSize, spread,
      Free(available, requiredIds), requiredIds, out)
    ensures WellFormed(availableIds, requiredIds, newSize + |requiredIds|, out)
  {
    hide Nodes, ById, Registered, AllIds, Whole, InRange, Member, MemberIds, IdsOf, Filtered, Free, NodeIds, NoneBetter, PicksFor, DeviceIds, NoDuplicates, IsCompletion, ChosenIds, FirstOfScore, CompletionScore;
    var ids, required, free := IdsOf(groups), NodeIds(Registered(m, requiredIds)), Free(available, requiredIds);
    var p, picks :| AnswerAt(ids, weights, required, newSize, spread, free, requiredIds, out, p, picks);
    CompletionIsMember(ids, newSize, p);
    var chosen := multiset(ChosenIds(ids, newSize, p));
    KeptFits(devs, m, available, availableIds, requiredIds, groups);
    IdsHeld(groups);
    SizeOfIds(groups);
    MemberFits(ids, newSize, Front(p), Last(p));
    PicksExact(free, chosen, picks);
    FreeAndRequired(m, available, availableIds, requiredIds);
    PicksAreFree(free, chosen, picks);
    SubDistinct(picks, free);
    PickedIds(m, available, availableIds, requiredIds, picks);
    JoinIds(availableIds, requiredIds, picks, out);
  }

  lemma PicksAreFree(free: seq<Device>, ids: multiset<int>, picks: seq<Device>)
    requires PicksFor(free, ids, picks)
    ensures multiset(picks) <= multiset(free)
  {
  }

  lemma JoinIds(availableIds: seq<string>, requiredIds: seq<string>, picks: seq<Device>, out: seq<string>)
    requires out == requiredIds + DeviceIds(picks) && NoDuplicates(requiredIds) && NoDuplicates(DeviceIds(picks))
    requires forall id :: id in requiredIds ==> id in availableIds
    requires forall id :: id in DeviceIds(picks) ==> id in availableIds && id !in requiredIds
    ensures WellFormed(availableIds, requiredIds, |picks| + |requiredIds|, out)
  {
    assert |DeviceIds(picks)| == |picks|;
    hide DeviceIds;
    forall i, j | 0 <= i < j < |out| ensures out[i] != out[j] {
      if i < |requiredIds| <= j {
        assert out[i] in requiredIds;
        assert out[j] in DeviceIds(picks);
      }
    }
  }
}
