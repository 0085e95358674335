/**
 * Multiples and rounding, by recursion: the allocator proofs count whole units, and these definitions keep the
 * counting linear. MultipleIsMod, TimesIsMul and UnitsForIsCeil tie them to %, * and / .
 */
module Arith {

  predicate Multiple(x: nat, d: nat)
    requires d > 0
  {
    x == 0 || (x >= d && Multiple(x - d, d))
  }

  function Times(d: nat, k: nat): nat {
    if k == 0 then 0 else Times(d, k - 1) + d
  }

  /** How many units of d cover n. */
  function UnitsFor(n: nat, d: nat): (u: nat)
    requires d > 0
    ensures n > 0 ==> u > 0
  {
    if n == 0 then 0 else if n <= d then 1 else 1 + UnitsFor(n - d, d)
  }

  lemma {:induction false} TimesIsMul(d: nat, k: nat)
    ensures Times(d, k) == d * k
  {
    if k > 0 { TimesIsMul(d, k - 1); }
  }

  /** Quotient and remainder are unique. */
  lemma UniqueQuotient(x: nat, d: nat, q: nat, r: nat)
    requires d > 0 && r < d && x == d * q + r
    ensures x / d == q && x % d == r
  {
    var q' := x / d;
    assert x == d * q' + x % d;
    if q < q' { MulLe(d, q, q'); } else if q' < q { MulLe(d, q', q); }
  }

  lemma {:induction false} MulLe(d: nat, a: nat, b: nat)
    requires a < b
    ensures d * a + d <= d * b
  {
    if a + 1 < b { MulLe(d, a, b - 1); }
  }

  lemma {:induction false} MultipleIsMod(x: nat, d: nat)
    requires d > 0
    ensures Multiple(x, d) <==> x % d == 0
  {
    if x >= d {
      MultipleIsMod(x - d, d);
      var q, r := (x - d) / d, (x - d) % d;
      assert x == d * (q + 1) + r;
      UniqueQuotient(x, d, q + 1, r);
    } else {
      UniqueQuotient(x, d, 0, x);
    }
  }

  lemma {:induction false} UnitsForIsCeil(n: nat, d: nat)
    requires d > 0
    ensures UnitsFor(n, d) == (n + d - 1) / d
  {
    if n == 0 {
      UniqueQuotient(d - 1, d, 0, d - 1);
    } else if n <= d {
      UniqueQuotient(n + d - 1, d, 1, n - 1);
    } else {
      UnitsForIsCeil(n - d, d);
      var q, r := (n - 1) / d, (n - 1) % d;
      assert n + d - 1 == d * (q + 1) + r;
      UniqueQuotient(n + d - 1, d, q + 1, r);
    }
  }

  lemma RoundUpFormula(n: nat, d: nat)
    requires d > 0
    ensures Times(d, UnitsFor(n, d)) == (n + d - 1) / d * d
  {
    UnitsForIsCeil(n, d);
    TimesIsMul(d, UnitsFor(n, d));
    var q := UnitsFor(n, d);
    assert d * q == q * d;
  }

  lemma {:induction false} UnitsForRoundsUp(n: nat, d: nat)
    requires d > 0
    ensures n <= Times(d, UnitsFor(n, d)) < n + d
  {
    if n > d { UnitsForRoundsUp(n - d, d); }
  }

  lemma {:induction false} TimesLe(d: nat, a: nat, b: nat)
    requires a < b
    ensures Times(d, a) + d <= Times(d, b)
  {
    if a + 1 < b { TimesLe(d, a, b - 1); }
  }

  lemma {:induction false} MultipleOfTimes(d: nat, k: nat)
    requires d > 0
    ensures Multiple(Times(d, k), d)
  {
    if k > 0 { MultipleOfTimes(d, k - 1); }
  }

  lemma {:induction false} MultipleStep(a: nat, d: nat)
    requires d > 0 && Multiple(a, d)
    ensures Multiple(a + d, d)
  {
  }

  lemma {:induction false} NoMultipleBetween(a: nat, s: nat, d: nat)
    requires d > 0 && Multiple(a, d) && Multiple(s, d) && a <= s < a + d
    ensures s == a
  {
    if a > 0 { NoMultipleBetween(a - d, s - d, d); }
  }

  // ---------- ascending lists ----------

  predicate Increasing(s: seq<nat>) {
    forall i, j :: 0 <= i < j < |s| ==> s[i] < s[j]
  }

  lemma IncreasingPrepend(x: nat, rest: seq<nat>)
    requires Increasing(rest) && forall y :: y in rest ==> x < y
    ensures Increasing([x] + rest)
  {
    var f := [x] + rest;
    forall i, j | 0 <= i < j < |f| ensures f[i] < f[j] {
      assert f[j] == rest[j - 1] && rest[j - 1] in rest;
      if i > 0 { assert f[i] == rest[i - 1]; }
    }
  }

  lemma NothingIncreases()
    ensures Increasing([])
  {
  }
}
