/**
 * What the enumeration returns, stated without its index-order rule: every way to take some GPUs whole and complete
 * the set with the lowest free ids of one more appears exactly once.
 */
module CandidateFamily {
  import opened Arith
  import opened Candidates
  import opened PairWeights
  import opened Permutation
  import opened SubsetScore
  import Sorting

  /** The groups in whole do not suffice, and group f, not one of them, completes the set. */
  predicate Member(groups: Groups, newSize: int, whole: seq<nat>, f: nat) {
    && InRange(groups, whole) && Increasing(whole) && f < |groups| && f !in whole
    && |Whole(groups, whole)| < newSize <= |Whole(groups, whole)| + |groups[f]|
  }

  function MemberIds(groups: Groups, newSize: int, whole: seq<nat>, f: nat): (ids: multiset<int>)
    requires Member(groups, newSize, whole, f)
  {
    multiset(Whole(groups, whole)) + multiset(groups[f][..newSize - |Whole(groups, whole)|])
  }

  /** No node id is in two groups. */
  ghost predicate DisjointGroups(groups: Groups) {
    forall i, j, x :: 0 <= i < j < |groups| && x in groups[i] ==> x !in groups[j]
  }

  // ---------- every member is built ----------

  function Insert(p: seq<nat>, f: nat): seq<nat> {
    if p == [] || Last(p) < f then p + [f] else Insert(Front(p), f) + [Last(p)]
  }

  lemma IncreasingAppend(p: seq<nat>, x: nat)
    requires Increasing(p) && (p != [] ==> Last(p) < x)
    ensures Increasing(p + [x]) && x !in p
  {
    forall k | 0 <= k < |p| ensures p[k] < x { assert p[k] <= Last(p); }
  }

  lemma IncreasingFront(p: seq<nat>)
    requires p != [] && Increasing(p)
    ensures Increasing(Front(p)) && p == Front(p) + [Last(p)]
    ensures Last(p) !in Front(p) && (Front(p) != [] ==> Last(Front(p)) < Last(p))
  {
  }

  lemma InFront(p: seq<nat>, x: nat)
    requires p != [] && Increasing(p)
    ensures x in Front(p) <==> x in p && x != Last(p)
  {
    IncreasingFront(p);
    hide Increasing, Front, Last;
  }

  lemma {:induction false} InsertSorts(p: seq<nat>, f: nat)
    requires Increasing(p) && f !in p
    ensures Insert(p, f) != [] && Increasing(Insert(p, f))
    ensures Last(Insert(p, f)) == if p == [] || Last(p) < f then f else Last(p)
  {
    hide Increasing;
    if p == [] || Last(p) < f {
      IncreasingAppend(p, f);
    } else {
      IncreasingFront(p);
      assert Last(p) in p;
      InFront(p, f);
      InsertSorts(Front(p), f);
      IncreasingAppend(Insert(Front(p), f), Last(p));
    }
  }

  lemma {:induction false} InsertAdds(groups: Groups, p: seq<nat>, f: nat)
    requires InRange(groups, p) && f < |groups|
    ensures InRange(groups, Insert(p, f))
    ensures multiset(Whole(groups, Insert(p, f))) == multiset(Whole(groups, p)) + multiset(groups[f])
  {
    hide Whole, InRange;
    if p == [] || Last(p) < f {
      WholeAppend(groups, p, f);
    } else {
      InRangeFront(groups, p);
      InsertAdds(groups, Front(p), f);
      WholeAppend(groups, Insert(Front(p), f), Last(p));
      WholeAppend(groups, Front(p), Last(p));
      assert p == Front(p) + [Last(p)];
    }
  }

  /** The completion with the same ids as a member: the member itself, or its groups in index order if all are used up. */
  lemma MemberIsBuilt(groups: Groups, newSize: int, whole: seq<nat>, f: nat) returns (p: seq<nat>)
    requires NonEmpty(groups) && Member(groups, newSize, whole, f)
    ensures IsCompletion(groups, newSize, p)
    ensures multiset(ChosenIds(groups, newSize, p)) == MemberIds(groups, newSize, whole, f)
  {
    if whole != [] && f < Last(whole) && |groups[f]| <= newSize - |Whole(groups, whole)| {
      p := Insert(whole, f);
      ExactMember(groups, newSize, whole, f);
    } else {
      p := whole + [f];
      assert Front(p) == whole && Last(p) == f;
      hide Whole, Increasing;
      assert InRange(groups, p);
    }
  }

  /** Groups that are used up entirely are built in index order, the last one completing the set. */
  lemma FullCompletion(groups: Groups, newSize: int, p: seq<nat>)
    requires NonEmpty(groups) && p != [] && InRange(groups, p) && Increasing(p) && |Whole(groups, p)| == newSize
    ensures IsCompletion(groups, newSize, p) && ChosenIds(groups, newSize, p) == Whole(groups, p)
  {
    hide Increasing, Whole;
    IncreasingFront(p);
    InRangeFront(groups, p);
    assert groups[Last(p)] != [];
    hide InRange, NonEmpty;
    WholeAppend(groups, Front(p), Last(p));
    hide Front, Last;
    TakeAll(groups[Last(p)]);
  }

  lemma TakeAll(ids: seq<int>)
    ensures ids[..|ids|] == ids
  {
  }

  lemma InRangeFront(groups: Groups, p: seq<nat>)
    requires p != [] && InRange(groups, p)
    ensures InRange(groups, Front(p)) && Last(p) < |groups|
  {
  }

  predicate UsedUp(groups: Groups, newSize: int, whole: seq<nat>, f: nat) {
    Member(groups, newSize, whole, f) && |groups[f]| <= newSize - |Whole(groups, whole)|
  }

  lemma UsedUpIds(groups: Groups, newSize: int, whole: seq<nat>, f: nat)
    requires UsedUp(groups, newSize, whole, f)
    ensures MemberIds(groups, newSize, whole, f) == multiset(Whole(groups, whole) + groups[f])
    ensures |Whole(groups, whole) + groups[f]| == newSize
  {
    TakeAll(groups[f]);
    hide Whole;
  }

  lemma ExactSize(groups: Groups, newSize: int, whole: seq<nat>, f: nat)
    requires UsedUp(groups, newSize, whole, f)
    ensures InRange(groups, Insert(whole, f)) && |Whole(groups, Insert(whole, f))| == newSize
    ensures multiset(Whole(groups, Insert(whole, f))) == MemberIds(groups, newSize, whole, f)
  {
    UsedUpIds(groups, newSize, whole, f);
    InsertAdds(groups, whole, f);
    hide Whole, Insert, InRange, MemberIds;
    SameSize(Whole(groups, Insert(whole, f)), Whole(groups, whole) + groups[f]);
  }

  lemma ExactMember(groups: Groups, newSize: int, whole: seq<nat>, f: nat)
    requires NonEmpty(groups) && UsedUp(groups, newSize, whole, f)
    ensures IsCompletion(groups, newSize, Insert(whole, f))
    ensures multiset(ChosenIds(groups, newSize, Insert(whole, f))) == MemberIds(groups, newSize, whole, f)
  {
    InsertSorts(whole, f);
    ExactSize(groups, newSize, whole, f);
    hide UsedUp, Insert, IsCompletion, ChosenIds, MemberIds, Whole, Increasing, InRange, NonEmpty;
    FullCompletion(groups, newSize, Insert(whole, f));
  }

  lemma SameSize(a: seq<int>, b: seq<int>)
    requires multiset(a) == multiset(b)
    ensures |a| == |b|
  {
    SameLength(a, b);
  }

  // ---------- no two completions choose the same ids ----------

  /** How many entries of ids belong to g. */
  function CountIn(ids: seq<int>, g: seq<int>): nat {
    if ids == [] then 0 else CountIn(ids[..|ids| - 1], g) + if ids[|ids| - 1] in g then 1 else 0
  }

  lemma CountAppend(ids: seq<int>, x: int, g: seq<int>)
    ensures CountIn(ids + [x], g) == CountIn(ids, g) + if x in g then 1 else 0
  {
    assert (ids + [x])[..|ids|] == ids;
  }

  lemma {:induction false} CountConcat(a: seq<int>, b: seq<int>, g: seq<int>)
    ensures CountIn(a + b, g) == CountIn(a, g) + CountIn(b, g)
  {
    if b == [] {
      assert a + b == a;
    } else {
      var front := b[..|b| - 1];
      CountConcat(a, front, g);
      assert a + b == (a + front) + [b[|b| - 1]];
      CountAppend(a + front, b[|b| - 1], g);
    }
  }

  lemma {:induction false} CountRemove(ids: seq<int>, k: nat, g: seq<int>)
    requires k < |ids|
    ensures CountIn(ids, g) == CountIn(Without(ids, k), g) + if ids[k] in g then 1 else 0
  {
    var front, last := ids[..|ids| - 1], ids[|ids| - 1];
    if k < |front| {
      CountRemove(front, k, g);
      WithoutFront(ids, k);
      CountAppend(Without(front, k), last, g);
    } else {
      WithoutLast(ids);
    }
  }

  lemma {:induction false} CountPermute(a: seq<int>, b: seq<int>, g: seq<int>)
    requires multiset(a) == multiset(b)
    ensures CountIn(a, g) == CountIn(b, g)
  {
    SameLength(a, b);
    if a != [] {
      var k := LastOccurs(a, b);
      CountPermute(a[..|a| - 1], Without(b, k), g);
      CountRemove(b, k, g);
    }
  }

  lemma {:induction false} CountAll(ids: seq<int>, g: seq<int>)
    requires forall x :: x in ids ==> x in g
    ensures CountIn(ids, g) == |ids|
  {
    if ids != [] {
      var front, last := ids[..|ids| - 1], ids[|ids| - 1];
      assert last in ids;
      assert forall x :: x in front ==> x in ids;
      CountAll(front, g);
      assert CountIn(ids, g) == CountIn(front, g) + if last in g then 1 else 0;
    }
  }

  lemma {:induction false} CountNone(ids: seq<int>, g: seq<int>)
    requires forall x :: x in ids ==> x !in g
    ensures CountIn(ids, g) == 0
  {
    if ids != [] {
      var front, last := ids[..|ids| - 1], ids[|ids| - 1];
      assert last in ids;
      assert forall x :: x in front ==> x in ids;
      CountNone(front, g);
      assert CountIn(ids, g) == CountIn(front, g) + if last in g then 1 else 0;
    }
  }

  /** A group taken whole contributes all its ids, the others nothing. */
  lemma {:induction false} WholeShare(groups: Groups, p: seq<nat>, i: nat)
    requires DisjointGroups(groups) && InRange(groups, p) && Increasing(p) && i < |groups|
    ensures CountIn(Whole(groups, p), groups[i]) == if i in p then |groups[i]| else 0
  {
    if p != [] {
      var front, last := p[..|p| - 1], p[|p| - 1];
      WholeShare(groups, front, i);
      CountConcat(Whole(groups, front), groups[last], groups[i]);
      GroupShare(groups, last, i, groups[last]);
      assert p == front + [last];
      hide CountIn, DisjointGroups;
    }
  }

  lemma GroupShare(groups: Groups, j: nat, i: nat, ids: seq<int>)
    requires DisjointGroups(groups) && i < |groups| && j < |groups| && forall x :: x in ids ==> x in groups[j]
    ensures CountIn(ids, groups[i]) == if i == j then |ids| else 0
  {
    if i == j { CountAll(ids, groups[i]); } else { CountNone(ids, groups[i]); }
  }

  /** How much of group i a completion takes. */
  function Share(groups: Groups, newSize: int, p: seq<nat>, i: nat): int
    requires IsCompletion(groups, newSize, p) && i < |groups|
  {
    if i in Front(p) then |groups[i]| else if i == Last(p) then newSize - |Whole(groups, Front(p))| else 0
  }

  lemma ChosenShare(groups: Groups, newSize: int, p: seq<nat>, i: nat)
    requires DisjointGroups(groups) && IsCompletion(groups, newSize, p) && i < |groups|
    ensures CountIn(ChosenIds(groups, newSize, p), groups[i]) == Share(groups, newSize, p, i)
  {
    var whole, f := Whole(groups, Front(p)), Last(p);
    var tail := groups[f][..newSize - |whole|];
    WholeShare(groups, Front(p), i);
    GroupShare(groups, f, i, tail);
    CountConcat(whole, tail, groups[i]);
    hide CountIn, Whole, DisjointGroups;
  }

  lemma SharesAgree(groups: Groups, newSize: int, p: seq<nat>, q: seq<nat>)
    requires DisjointGroups(groups) && IsCompletion(groups, newSize, p) && IsCompletion(groups, newSize, q)
    requires multiset(ChosenIds(groups, newSize, p)) == multiset(ChosenIds(groups, newSize, q))
    ensures forall i :: 0 <= i < |groups| ==> Share(groups, newSize, p, i) == Share(groups, newSize, q, i)
  {
    hide CountIn, ChosenIds, IsCompletion, DisjointGroups, Share;
    forall i | 0 <= i < |groups| ensures Share(groups, newSize, p, i) == Share(groups, newSize, q, i) {
      ChosenShare(groups, newSize, p, i);
      ChosenShare(groups, newSize, q, i);
      CountPermute(ChosenIds(groups, newSize, p), ChosenIds(groups, newSize, q), groups[i]);
    }
  }

  ghost predicate SameElements(a: seq<nat>, b: seq<nat>) {
    forall x :: x in a <==> x in b
  }

  lemma LastIsLargest(p: seq<nat>, x: nat)
    requires Increasing(p) && x in p
    ensures p != [] && x <= Last(p)
  {
  }

  lemma SameLast(a: seq<nat>, b: seq<nat>)
    requires Increasing(a) && Increasing(b) && SameElements(a, b) && a != []
    ensures b != [] && Last(a) == Last(b)
  {
    assert Last(a) in a;
    LastIsLargest(b, Last(a));
    assert Last(b) in b;
    LastIsLargest(a, Last(b));
  }

  lemma SameFront(a: seq<nat>, b: seq<nat>)
    requires Increasing(a) && Increasing(b) && SameElements(a, b) && a != [] && b != [] && Last(a) == Last(b)
    ensures SameElements(Front(a), Front(b)) && Increasing(Front(a)) && Increasing(Front(b))
  {
    hide Increasing, Front, Last;
    IncreasingFront(a);
    IncreasingFront(b);
    forall x ensures x in Front(a) <==> x in Front(b) {
      InFront(a, x);
      InFront(b, x);
    }
  }

  lemma {:induction false} IncreasingUnique(a: seq<nat>, b: seq<nat>)
    requires Increasing(a) && Increasing(b) && SameElements(a, b)
    ensures a == b
    decreases |a|
  {
    if a == [] {
      if b != [] { SameLast(b, a); }
    } else {
      hide Increasing, SameElements;
      SameLast(a, b);
      SameFront(a, b);
      IncreasingUnique(Front(a), Front(b));
      assert a == Front(a) + [Last(a)] && b == Front(b) + [Last(b)];
    }
  }

  /** The groups a completion draws from. */
  lemma Involved(groups: Groups, newSize: int, p: seq<nat>, i: nat)
    requires NonEmpty(groups) && IsCompletion(groups, newSize, p) && i < |groups|
    ensures Share(groups, newSize, p, i) > 0 <==> i in p
  {
    assert p == Front(p) + [Last(p)];
    hide Whole, Increasing;
  }

  /** A completing group that another completion takes whole is used up, so it comes after all whole groups. */
  lemma UsedUpIsLargest(groups: Groups, newSize: int, p: seq<nat>, x: nat)
    requires IsCompletion(groups, newSize, p) && newSize - |Whole(groups, Front(p))| == |groups[Last(p)]| && x in p
    ensures x <= Last(p)
  {
    assert p == Front(p) + [Last(p)];
    if x != Last(p) {
      LastIsLargest(Front(p), x);
    }
  }

  lemma SameLastGroup(groups: Groups, newSize: int, p: seq<nat>, q: seq<nat>)
    requires NonEmpty(groups) && IsCompletion(groups, newSize, p) && IsCompletion(groups, newSize, q)
    requires forall i :: 0 <= i < |groups| ==> Share(groups, newSize, p, i) == Share(groups, newSize, q, i)
    ensures Last(p) == Last(q)
  {
    var f, g := Last(p), Last(q);
    assert p == Front(p) + [f] && q == Front(q) + [g];
    Involved(groups, newSize, p, f);
    Involved(groups, newSize, q, f);
    Involved(groups, newSize, p, g);
    Involved(groups, newSize, q, g);
    hide Whole, Increasing;
    if f != g {
      UsedUpIsLargest(groups, newSize, p, g);
      UsedUpIsLargest(groups, newSize, q, f);
    }
  }

  /** Over groups without common ids, completions that choose the same ids are the same completion. */
  lemma CompletionsDiffer(groups: Groups, newSize: int, p: seq<nat>, q: seq<nat>)
    requires NonEmpty(groups) && DisjointGroups(groups)
    requires IsCompletion(groups, newSize, p) && IsCompletion(groups, newSize, q)
    requires multiset(ChosenIds(groups, newSize, p)) == multiset(ChosenIds(groups, newSize, q))
    ensures p == q
  {
    SharesAgree(groups, newSize, p, q);
    SameLastGroup(groups, newSize, p, q);
    forall i ensures i in Front(p) <==> i in Front(q) {
      if 0 <= i < |groups| {
        Involved(groups, newSize, p, i);
        Involved(groups, newSize, q, i);
      }
    }
    IncreasingUnique(Front(p), Front(q));
    assert p == Front(p) + [Last(p)] && q == Front(q) + [Last(q)];
  }

  // ---------- some completion exists ----------

  function UpTo(n: nat): seq<nat> {
    if n == 0 then [] else UpTo(n - 1) + [n - 1]
  }

  lemma {:induction false} UpToIncreases(groups: Groups, n: nat)
    requires n <= |groups|
    ensures |UpTo(n)| == n && Increasing(UpTo(n)) && InRange(groups, UpTo(n)) && (n > 0 ==> Last(UpTo(n)) == n - 1)
  {
    if n > 0 {
      UpToIncreases(groups, n - 1);
      IncreasingAppend(UpTo(n - 1), n - 1);
    }
  }

  lemma PrefixGrowing(groups: Groups, newSize: int, n: nat)
    requires newSize > 0 && n <= |groups| && InRange(groups, UpTo(n)) && |Whole(groups, UpTo(n))| >= newSize
    ensures n > 0 && InRange(groups, UpTo(n - 1)) && UpTo(n) == UpTo(n - 1) + [n - 1]
    ensures Whole(groups, UpTo(n)) == Whole(groups, UpTo(n - 1)) + groups[n - 1]
  {
    assert n > 0;
    UpToIncreases(groups, n - 1);
    WholeAppend(groups, UpTo(n - 1), n - 1);
  }

  /** If all groups together hold enough ids, the first ones in index order complete a set. */
  lemma {:induction false} SomeCompletion(groups: Groups, newSize: int, n: nat) returns (p: seq<nat>)
    requires NonEmpty(groups) && newSize > 0 && n <= |groups|
    requires InRange(groups, UpTo(n)) && |Whole(groups, UpTo(n))| >= newSize
    ensures IsCompletion(groups, newSize, p)
  {
    hide Whole, Increasing, InRange;
    PrefixGrowing(groups, newSize, n);
    UpToIncreases(groups, n);
    UpToIncreases(groups, n - 1);
    if |Whole(groups, UpTo(n - 1))| >= newSize {
      p := SomeCompletion(groups, newSize, n - 1);
    } else {
      p := UpTo(n);
      IncreasingFront(p);
      assert Front(p) == UpTo(n - 1);
    }
  }

  // ---------- the enumeration is exact ----------

  /** finals lists, without repetition, exactly the members of the family, each with the required ids and its pair sum. */
  ghost predicate Exact(groups: Groups, weights: Weights, required: seq<int>, newSize: int, finals: seq<DeviceSet>) {
    && (forall k :: 0 <= k < |finals| ==> InFamily(groups, weights, required, newSize, finals[k]))
    && (forall whole, f :: Member(groups, newSize, whole, f) ==> HasIds(finals, MemberIds(groups, newSize, whole, f) + multiset(required)))
    && (DisjointGroups(groups) ==> forall i, j :: 0 <= i < j < |finals| ==> multiset(finals[i].ids) != multiset(finals[j].ids))
  }

  ghost predicate InFamily(groups: Groups, weights: Weights, required: seq<int>, newSize: int, c: DeviceSet) {
    && c.totalWeight == PairSum(weights, c.ids)
    && exists whole, f :: Member(groups, newSize, whole, f) && multiset(c.ids) == MemberIds(groups, newSize, whole, f) + multiset(required)
  }

  ghost predicate HasIds(finals: seq<DeviceSet>, ids: multiset<int>) {
    exists k :: 0 <= k < |finals| && multiset(finals[k].ids) == ids
  }

  lemma CompletionIsMember(groups: Groups, newSize: int, p: seq<nat>)
    requires IsCompletion(groups, newSize, p)
    ensures p != []
    ensures Member(groups, newSize, Front(p), Last(p))
    ensures multiset(ChosenIds(groups, newSize, p)) == MemberIds(groups, newSize, Front(p), Last(p))
  {
    hide Whole, Increasing, InRange;
    LastInRange(groups, newSize, p);
  }

  lemma LastInRange(groups: Groups, newSize: int, p: seq<nat>)
    requires IsCompletion(groups, newSize, p)
    ensures p != [] && Last(p) < |groups|
  {
    hide Whole, Increasing;
  }

  lemma FinalInFamily(groups: Groups, weights: Weights, required: seq<int>, newSize: int, c: DeviceSet)
    requires IsFinal(groups, weights, required, newSize, c)
    ensures InFamily(groups, weights, required, newSize, c)
  {
    hide PairSum, Whole, ChosenIds, Member, MemberIds, IsCompletion, Front, Last;
    CompletionIsMember(groups, newSize, c.parentIds);
    assert Member(groups, newSize, Front(c.parentIds), Last(c.parentIds));
  }

  /** Whatever the weights, the worklist's result is the family. */
  lemma EnumerationExact(groups: Groups, weights: Weights, required: seq<int>, newSize: int, finals: seq<DeviceSet>)
    requires NonEmpty(groups) && Enumerates(groups, weights, required, newSize, finals)
    ensures Exact(groups, weights, required, newSize, finals)
  {
    hide PairSum, Whole, IsCompletion, ChosenIds, Member, MemberIds, NonEmpty, DisjointGroups, InFamily, Before;
    forall k | 0 <= k < |finals| ensures InFamily(groups, weights, required, newSize, finals[k]) {
      FinalInFamily(groups, weights, required, newSize, finals[k]);
    }
    forall whole, f | Member(groups, newSize, whole, f)
      ensures HasIds(finals, MemberIds(groups, newSize, whole, f) + multiset(required))
    {
      var p := MemberIsBuilt(groups, newSize, whole, f);
      var k :| 0 <= k < |finals| && finals[k].parentIds == p;
      assert multiset(finals[k].ids) == MemberIds(groups, newSize, whole, f) + multiset(required);
    }
    if DisjointGroups(groups) {
      forall i, j | 0 <= i < j < |finals| ensures multiset(finals[i].ids) != multiset(finals[j].ids) {
        assert Before(finals[i].parentIds, finals[j].parentIds);
        FinalsDiffer(groups, weights, required, newSize, finals[i], finals[j]);
      }
    }
  }

  lemma FinalsDiffer(groups: Groups, weights: Weights, required: seq<int>, newSize: int, c: DeviceSet, d: DeviceSet)
    requires NonEmpty(groups) && DisjointGroups(groups)
    requires IsFinal(groups, weights, required, newSize, c) && IsFinal(groups, weights, required, newSize, d)
    requires Before(c.parentIds, d.parentIds)
    ensures multiset(c.ids) != multiset(d.ids)
  {
    LexIrreflexive(c.parentIds);
    hide PairSum, Whole, IsCompletion, ChosenIds, NonEmpty, DisjointGroups;
    var a, b := ChosenIds(groups, newSize, c.parentIds), ChosenIds(groups, newSize, d.parentIds);
    if multiset(c.ids) == multiset(d.ids) {
      assert multiset(a) == multiset(c.ids) - multiset(required);
      assert multiset(b) == multiset(d.ids) - multiset(required);
      CompletionsDiffer(groups, newSize, c.parentIds, d.parentIds);
    }
  }

  // ---------- the enumeration has one result ----------

  lemma {:induction false} LexTotal(a: seq<nat>, b: seq<nat>)
    requires |a| == |b|
    ensures a == b || Lex(a, b) || Lex(b, a)
    ensures !(Lex(a, b) && Lex(b, a))
  {
    if a != [] && a[0] == b[0] {
      LexTotal(a[1..], b[1..]);
      assert a == [a[0]] + a[1..] && b == [b[0]] + b[1..];
    }
  }

  lemma BeforeTotal(a: seq<nat>, b: seq<nat>)
    ensures a == b || Before(a, b) || Before(b, a)
    ensures !(Before(a, b) && Before(b, a))
  {
    if |a| == |b| { LexTotal(a, b); }
  }

  function Parents(s: seq<DeviceSet>): seq<seq<nat>> {
    seq(|s|, k requires 0 <= k < |s| => s[k].parentIds)
  }

  lemma ParentsOrdered(s: seq<DeviceSet>)
    requires InOrder(s)
    ensures Sorting.NoDuplicates(Parents(s)) && Sorting.Ordered(Parents(s), Before) && Sorting.TotalOn(Parents(s), Before)
  {
    hide Before;
    forall i, j | 0 <= i < j < |s| ensures s[i].parentIds != s[j].parentIds && !Before(s[j].parentIds, s[i].parentIds) {
      BeforeTotal(s[i].parentIds, s[j].parentIds);
    }
    forall i, j | 0 <= i < |s| && 0 <= j < |s|
      ensures s[i].parentIds == s[j].parentIds || Before(s[i].parentIds, s[j].parentIds) || Before(s[j].parentIds, s[i].parentIds)
    {
      BeforeTotal(s[i].parentIds, s[j].parentIds);
    }
  }

  lemma ParentsAreCompletions(groups: Groups, weights: Weights, required: seq<int>, newSize: int, finals: seq<DeviceSet>, q: seq<nat>)
    requires Enumerates(groups, weights, required, newSize, finals)
    ensures q in Parents(finals) <==> IsCompletion(groups, newSize, q)
  {
    hide PairSum, ChosenIds, IsCompletion, InOrder;
    if IsCompletion(groups, newSize, q) {
      var k :| 0 <= k < |finals| && finals[k].parentIds == q;
      assert Parents(finals)[k] == q;
    }
    if q in Parents(finals) {
      var k :| 0 <= k < |Parents(finals)| && Parents(finals)[k] == q;
      assert IsFinal(groups, weights, required, newSize, finals[k]);
    }
  }

  /** The candidates, their order, their ids and their scores are determined by the groups: no run gives another list. */
  lemma EnumerationUnique(groups: Groups, weights: Weights, required: seq<int>, newSize: int, a: seq<DeviceSet>, b: seq<DeviceSet>)
    requires Enumerates(groups, weights, required, newSize, a) && Enumerates(groups, weights, required, newSize, b)
    ensures |a| == |b|
    ensures forall k :: 0 <= k < |a| ==>
      a[k].parentIds == b[k].parentIds && a[k].ids == b[k].ids && a[k].totalWeight == b[k].totalWeight
  {
    hide PairSum, ChosenIds, IsCompletion, Before, InOrder, Parents;
    ParentsOrdered(a);
    ParentsOrdered(b);
    forall q ensures q in Parents(a) <==> q in Parents(b) {
      ParentsAreCompletions(groups, weights, required, newSize, a, q);
      ParentsAreCompletions(groups, weights, required, newSize, b, q);
    }
    Sorting.SameMultiset(Parents(a), Parents(b));
    Sorting.OrderedUnique(Parents(a), Parents(b), Before);
    ParentsAt(a);
    ParentsAt(b);
    forall k | 0 <= k < |a| ensures a[k].parentIds == b[k].parentIds && a[k].ids == b[k].ids && a[k].totalWeight == b[k].totalWeight {
      assert IsFinal(groups, weights, required, newSize, a[k]) && IsFinal(groups, weights, required, newSize, b[k]);
    }
  }

  lemma ParentsAt(s: seq<DeviceSet>)
    ensures |Parents(s)| == |s| && forall k :: 0 <= k < |s| ==> Parents(s)[k] == s[k].parentIds
  {
  }
}
