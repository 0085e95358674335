/** Library sorting: what a sort with a strict comparison guarantees, and when its result is determined. */
module Sorting {

  ghost predicate StrictOrder<T(!new)>(less: (T, T) -> bool) {
    && (forall a :: !less(a, a))
    && (forall a, b, c :: less(a, b) && less(b, c) ==> less(a, c))
  }

  /** No element is smaller than one before it. */
  ghost predicate Ordered<T>(s: seq<T>, less: (T, T) -> bool) {
    forall i, j :: 0 <= i < j < |s| ==> !less(s[j], s[i])
  }

  lemma NotBelow<T(!new)>(less: (T, T) -> bool, y: T, x: T, z: T)
    requires StrictOrder(less) && less(x, z) && (y == z || !less(y, z))
    ensures !less(y, x)
  {
  }

  lemma InsertOrdered<T(!new)>(s: seq<T>, less: (T, T) -> bool, x: T, p: nat)
    requires StrictOrder(less) && Ordered(s, less) && p <= |s|
    requires forall k :: 0 <= k < p ==> !less(x, s[k])
    requires p < |s| ==> less(x, s[p])
    ensures Ordered(s[..p] + [x] + s[p..], less)
  {
    var r := s[..p] + [x] + s[p..];
    forall i, j | 0 <= i < j < |r| ensures !less(r[j], r[i]) {
      if i == p {
        assert r[j] == s[j - 1];
        NotBelow(less, s[j - 1], x, s[p]);
      }
    }
  }

  lemma InsertMultiset<T>(s: seq<T>, x: T, p: nat)
    requires p <= |s|
    ensures multiset(s[..p] + [x] + s[p..]) == multiset(s) + multiset{x}
  {
    assert s == s[..p] + s[p..];
  }

  lemma EmptyOrdered<T>(less: (T, T) -> bool)
    ensures Ordered([], less)
  {
  }

  /** Any order the comparison allows may come out; equal elements may swap places. */
  method Sort<T(!new)>(s: seq<T>, less: (T, T) -> bool) returns (r: seq<T>)
    requires StrictOrder(less)
    ensures multiset(r) == multiset(s) && Ordered(r, less)
  {
    hide StrictOrder, Ordered;
    r := [];
    EmptyOrdered(less);
    for i := 0 to |s|
      invariant multiset(r) == multiset(s[..i]) && Ordered(r, less)
    {
      var p := 0;
      while p < |r| && !less(s[i], r[p])
        invariant p <= |r| && forall k :: 0 <= k < p ==> !less(s[i], r[k])
      {
        p := p + 1;
      }
      InsertOrdered(r, less, s[i], p);
      InsertMultiset(r, s[i], p);
      assert s[..i + 1] == s[..i] + [s[i]];
      r := r[..p] + [s[i]] + r[p..];
    }
    assert s[..|s|] == s;
  }

  /** The comparison tells every two different elements of s apart. */
  ghost predicate TotalOn<T>(s: seq<T>, less: (T, T) -> bool) {
    forall i, j :: 0 <= i < |s| && 0 <= j < |s| ==> s[i] == s[j] || less(s[i], s[j]) || less(s[j], s[i])
  }

  lemma SameLast<T>(a: seq<T>, b: seq<T>, less: (T, T) -> bool)
    requires Ordered(a, less) && Ordered(b, less) && TotalOn(a, less)
    requires a != [] && b != [] && (forall x :: x in a <==> x in b)
    ensures a[|a| - 1] == b[|b| - 1]
  {
    var x, y := a[|a| - 1], b[|b| - 1];
    assert x in a && y in b;
    var i :| 0 <= i < |a| && a[i] == y;
    var j :| 0 <= j < |b| && b[j] == x;
  }

  lemma FrontMultiset<T>(s: seq<T>)
    requires s != []
    ensures multiset(s[..|s| - 1]) == multiset(s) - multiset{s[|s| - 1]}
  {
    assert s == s[..|s| - 1] + [s[|s| - 1]];
  }

  lemma SameContents<T>(a: seq<T>, b: seq<T>)
    requires multiset(a) == multiset(b)
    ensures |a| == |b| && forall x :: x in a <==> x in b
  {
    assert |multiset(a)| == |a| && |multiset(b)| == |b|;
    forall x ensures x in a <==> x in b {
      assert x in multiset(a) <==> x in multiset(b);
    }
  }

  lemma FrontOrdered<T>(s: seq<T>, less: (T, T) -> bool)
    requires s != []
    ensures Ordered(s, less) ==> Ordered(s[..|s| - 1], less)
    ensures TotalOn(s, less) ==> TotalOn(s[..|s| - 1], less)
  {
  }

  /** When the comparison is total on the elements, sorting has one result. */
  lemma {:induction false} OrderedUnique<T>(a: seq<T>, b: seq<T>, less: (T, T) -> bool)
    requires multiset(a) == multiset(b) && Ordered(a, less) && Ordered(b, less) && TotalOn(a, less)
    ensures a == b
  {
    hide Ordered, TotalOn;
    SameContents(a, b);
    if a != [] {
      SameLast(a, b, less);
      FrontMultiset(a);
      FrontMultiset(b);
      FrontOrdered(a, less);
      FrontOrdered(b, less);
      OrderedUnique(a[..|a| - 1], b[..|b| - 1], less);
      assert a == a[..|a| - 1] + [a[|a| - 1]] && b == b[..|b| - 1] + [b[|b| - 1]];
    }
  }

  ghost predicate NoDuplicates<T>(s: seq<T>) {
    forall i, j :: 0 <= i < j < |s| ==> s[i] != s[j]
  }

  lemma {:induction false} NoDuplicatesCount<T>(s: seq<T>, x: T)
    requires NoDuplicates(s)
    ensures multiset(s)[x] == if x in s then 1 else 0
  {
    if s != [] {
      var front, last := s[..|s| - 1], s[|s| - 1];
      NoDuplicatesCount(front, x);
      assert s == front + [last];
    }
  }

  lemma SameMultiset<T>(a: seq<T>, b: seq<T>)
    requires NoDuplicates(a) && NoDuplicates(b) && forall x :: x in a <==> x in b
    ensures multiset(a) == multiset(b)
  {
    forall x ensures multiset(a)[x] == multiset(b)[x] {
      NoDuplicatesCount(a, x);
      NoDuplicatesCount(b, x);
    }
  }

  lemma CountTwice<T>(s: seq<T>, i: nat, j: nat)
    requires i < j < |s| && s[i] == s[j]
    ensures multiset(s)[s[j]] >= 2
  {
    assert s == s[..j] + [s[j]] + s[j + 1..];
    assert s[i] in s[..j];
  }

  lemma NoDuplicatesPermute<T>(a: seq<T>, b: seq<T>)
    requires multiset(a) == multiset(b) && NoDuplicates(a)
    ensures NoDuplicates(b)
  {
    forall i, j | 0 <= i < j < |b| ensures b[i] != b[j] {
      if b[i] == b[j] {
        CountTwice(b, i, j);
        NoDuplicatesCount(a, b[j]);
      }
    }
  }

  // ---------- strings ----------

  /** The order of strings by their first difference. */
  predicate StringLess(a: string, b: string) {
    b != [] && (a == [] || a[0] < b[0] || (a[0] == b[0] && StringLess(a[1..], b[1..])))
  }

  /** The strings first differ at k, and a has the smaller character there. */
  predicate SmallerAt(a: string, b: string, k: nat) {
    k < |a| && k < |b| && a[..k] == b[..k] && a[k] < b[k]
  }

  lemma SmallerNext(a: string, b: string, k: nat)
    requires a != [] && b != [] && a[0] == b[0]
    ensures SmallerAt(a, b, k + 1) <==> SmallerAt(a[1..], b[1..], k)
    ensures !SmallerAt(a, b, 0)
  {
    if k + 1 < |a| && k + 1 < |b| {
      assert a[..k + 1] == [a[0]] + a[1..][..k] && b[..k + 1] == [b[0]] + b[1..][..k];
      assert a[1..][..k] == a[..k + 1][1..] && b[1..][..k] == b[..k + 1][1..];
    }
  }

  lemma SmallerLater(a: string, b: string, k: nat)
    requires SmallerAt(a, b, k)
    ensures k > 0 ==> a[0] == b[0]
  {
    if k > 0 { assert a[0] == a[..k][0]; }
  }

  /** a is smaller than b if it is a proper prefix of b, or has the smaller character where the two first differ. */
  lemma {:induction false} StringLessExact(a: string, b: string)
    ensures StringLess(a, b) <==> a < b || exists k :: SmallerAt(a, b, k)
  {
    if a == [] || b == [] {
    } else if a[0] != b[0] {
      assert a[..0] == b[..0];
      assert SmallerAt(a, b, 0) <==> a[0] < b[0];
      if k :| SmallerAt(a, b, k) { SmallerLater(a, b, k); }
    } else {
      StringLessExact(a[1..], b[1..]);
      assert a == [a[0]] + a[1..] && b == [b[0]] + b[1..];
      hide SmallerAt;
      if k :| SmallerAt(a[1..], b[1..], k) { SmallerNext(a, b, k); }
      if k: nat :| SmallerAt(a, b, k) {
        SmallerNext(a, b, 0);
        SmallerNext(a, b, k - 1);
      }
    }
  }

  lemma {:induction false} StringIrreflexive(a: string)
    ensures !StringLess(a, a)
  {
    if a != [] { StringIrreflexive(a[1..]); }
  }

  lemma {:induction false} StringTransitive(a: string, b: string, c: string)
    requires StringLess(a, b) && StringLess(b, c)
    ensures StringLess(a, c)
  {
    if a != [] && a[0] == b[0] == c[0] { StringTransitive(a[1..], b[1..], c[1..]); }
  }

  lemma {:induction false} StringTotal(a: string, b: string)
    ensures a == b || StringLess(a, b) || StringLess(b, a)
  {
    if a != [] && b != [] && a[0] == b[0] {
      StringTotal(a[1..], b[1..]);
      assert a == [a[0]] + a[1..] && b == [b[0]] + b[1..];
    }
  }

  lemma StringOrder()
    ensures StrictOrder(StringLess)
  {
    forall a ensures !StringLess(a, a) { StringIrreflexive(a); }
    forall a, b, c | StringLess(a, b) && StringLess(b, c) ensures StringLess(a, c) { StringTransitive(a, b, c); }
  }
}
