/** The segmented bitmap of compute units (CUs) of one device, and its first-fit allocator. */
module CuAllocation {
  import opened Arith
  import opened Words
  import opened Wrappers

  /** A bitmap: CU i is bit i % 64 of word i / 64. */
  type Bitmap = seq<Word>

  predicate IsSet(a: Bitmap, i: nat) {
    i < WORD_BITS * |a| && Bit(a[i / WORD_BITS], i % WORD_BITS)
  }

  /** The CUs a bitmap holds. */
  function Cus(a: Bitmap): set<nat> {
    set i: nat | i < WORD_BITS * |a| && IsSet(a, i)
  }

  predicate Within(lo: nat, i: nat, hi: nat) {
    lo <= i < hi
  }

  function Interval(lo: nat, hi: nat): set<nat> {
    set i: nat | i < hi && Within(lo, i, hi)
  }

  function WordsFor(totalCUs: int): nat {
    if totalCUs <= 0 then 0 else (totalCUs + WORD_BITS - 1) / WORD_BITS
  }

  lemma {:induction false} IntervalSize(lo: nat, hi: nat)
    requires lo <= hi
    ensures |Interval(lo, hi)| == hi - lo
  {
    if lo < hi {
      IntervalSize(lo, hi - 1);
      assert Interval(lo, hi) == Interval(lo, hi - 1) + {hi - 1};
    } else {
      assert Interval(lo, hi) == {};
    }
  }

  // ---------- single words inside a bitmap ----------

  /** a[i / 64] |= 1 << (i % 64) adds CU i and nothing else. */
  lemma SetBitAddsOne(a: Bitmap, i: nat)
    requires i < WORD_BITS * |a|
    ensures Or(a[i / WORD_BITS], Pow2(i % WORD_BITS)) < Pow2(WORD_BITS)
    ensures Cus(a[i / WORD_BITS := Or(a[i / WORD_BITS], Pow2(i % WORD_BITS))]) == Cus(a) + {i}
  {
    hide Or, Pow2, Bit;
    var w, k := i / WORD_BITS, i % WORD_BITS;
    Pow2Less(k, WORD_BITS);
    OrBelow(a[w], Pow2(k), WORD_BITS);
    var b := a[w := Or(a[w], Pow2(k))];
    forall j: nat | j < WORD_BITS * |a| ensures IsSet(b, j) <==> IsSet(a, j) || j == i {
      OrBit(a[w], Pow2(k), j % WORD_BITS);
      MaskBit(k, j % WORD_BITS);
    }
  }

  lemma OrWordAddsWord(a: Bitmap, d: Bitmap, n: nat)
    requires n < |a| && n < |d|
    ensures Or(a[n], d[n]) < Pow2(WORD_BITS)
    ensures Cus(a[n := Or(a[n], d[n])]) == Cus(a) + Cus(d) * Interval(WORD_BITS * n, WORD_BITS * (n + 1))
  {
    OrBelow(a[n], d[n], WORD_BITS);
    var b := a[n := Or(a[n], d[n])];
    forall j: nat | j < WORD_BITS * |a|
      ensures IsSet(b, j) <==> IsSet(a, j) || (IsSet(d, j) && j in Interval(WORD_BITS * n, WORD_BITS * (n + 1)))
    {
      OrBit(a[n], d[n], j % WORD_BITS);
    }
  }

  lemma EmptyBitmap(a: Bitmap)
    requires forall k :: 0 <= k < |a| ==> a[k] == 0
    ensures Cus(a) == {}
  {
    forall i: nat | i < WORD_BITS * |a| ensures !IsSet(a, i) { ZeroHasNoBit(i % WORD_BITS); }
  }

  lemma CusInRange(a: Bitmap)
    ensures Cus(a) * Interval(0, WORD_BITS * |a|) == Cus(a)
  {
  }

  /** The bitmap of a CU set is unique. */
  lemma SameCusSameBitmap(a: Bitmap, b: Bitmap)
    requires |a| == |b| && Cus(a) == Cus(b)
    ensures a == b
  {
    forall w | 0 <= w < |a| ensures a[w] == b[w] {
      forall k: nat | k < WORD_BITS ensures Bit(a[w], k) <==> Bit(b[w], k) {
        var i := WORD_BITS * w + k;
        assert i / WORD_BITS == w && i % WORD_BITS == k;
        assert i in Cus(a) <==> i in Cus(b);
      }
      SameBitsSameWord(a[w], b[w], WORD_BITS);
    }
  }

  // ---------- NewAllocation, CountAllocated, AddAllocation ----------

  method NewAllocation(totalCUs: int) returns (r: Result<array<Word>>)
    ensures r.Failure? <==> totalCUs <= 0
    ensures r.Success? ==> fresh(r.value) && r.value.Length == WordsFor(totalCUs) == (totalCUs + 63) / 64
    ensures r.Success? ==> Cus(r.value[..]) == {}
  {
    if totalCUs <= 0 { return Failure("totalCUs must be > 0"); }
    var a := new Word[WordsFor(totalCUs)](_ => 0);
    EmptyBitmap(a[..]);
    return Success(a);
  }

  method CountAllocated(allocation: array<Word>) returns (count: nat)
    ensures count == |Cus(allocation[..])|
  {
    count := 0;
    EmptyBitmap(allocation[..0]);
    for w := 0 to allocation.Length
      invariant count == |Cus(allocation[..w])|
    {
      CusOfPrefix(allocation[..], w);
      OnesCountIsBits(allocation[w], WORD_BITS * w, WORD_BITS);
      count := count + OnesCount(allocation[w]);
    }
    assert allocation[..allocation.Length] == allocation[..];
  }

  lemma CusOfPrefix(a: Bitmap, w: nat)
    requires w < |a|
    ensures Cus(a[..w + 1]) == Cus(a[..w]) + BitsFrom(a[w], WORD_BITS * w, WORD_BITS)
    ensures Cus(a[..w]) !! BitsFrom(a[w], WORD_BITS * w, WORD_BITS)
  {
    forall i: nat ensures i in Cus(a[..w + 1]) <==> i in Cus(a[..w]) || i in BitsFrom(a[w], WORD_BITS * w, WORD_BITS) {
      if i in Cus(a[..w + 1]) && i !in Cus(a[..w]) {
        assert i / WORD_BITS == w && i == WORD_BITS * w + i % WORD_BITS;
      }
      if i in BitsFrom(a[w], WORD_BITS * w, WORD_BITS) {
        assert i / WORD_BITS == w;
      }
    }
  }

  /** allocation[w] |= delta[w] for the first need words. */
  method OrInto(allocation: array<Word>, delta: array<Word>, need: nat)
    requires need <= allocation.Length && need <= delta.Length
    modifies allocation
    ensures Cus(allocation[..]) == old(Cus(allocation[..])) + old(Cus(delta[..])) * Interval(0, WORD_BITS * need)
  {
    hide Cus, Or, Pow2;
    ghost var a, d := allocation[..], delta[..];
    assert Interval(0, 0) == {};
    for w := 0 to need
      invariant forall k :: w <= k < allocation.Length ==> allocation[k] == a[k]
      invariant forall k :: w <= k < delta.Length ==> delta[k] == d[k]
      invariant Cus(allocation[..]) == Cus(a) + Cus(d) * Interval(0, WORD_BITS * w)
    {
      ghost var s := allocation[..];
      OrWordAddsWord(s, d, w);
      allocation[w] := Or(allocation[w], delta[w]);
      assert allocation[..] == s[w := Or(s[w], d[w])];
    }
  }

  /** All-or-nothing union; a delta that meets the bitmap is refused. */
  method AddAllocation(allocation: array<Word>, totalCUs: int, addDelta: array<Word>) returns (r: Outcome)
    modifies allocation
    ensures var need := if totalCUs <= 0 then 0 else (totalCUs + 63) / 64;
      var before, delta := old(Cus(allocation[..])), old(Cus(addDelta[..])) * Interval(0, WORD_BITS * need);
      && (r.Fail? <==> allocation.Length < need || addDelta.Length < need || before * delta != {})
      && (r.Fail? ==> allocation[..] == old(allocation[..]))
      && (r.Pass? ==> Cus(allocation[..]) == before + delta)
  {
    var needWords := WordsFor(totalCUs);
    if allocation.Length < needWords { return Fail("allocation bitmap is too short"); }
    if addDelta.Length < needWords { return Fail("add delta bitmap is too short"); }
    hide Cus, Or, And, Pow2;
    ghost var a, d := allocation[..], addDelta[..];
    for i := 0 to needWords
      invariant forall k :: 0 <= k < i ==> And(d[k], a[k]) == 0
    {
      if And(addDelta[i], allocation[i]) != 0 {
        SharedWordMeets(a, d, i);
        ghost var c: nat :| c in Cus(a) && c in Cus(d) && c < WORD_BITS * (i + 1);
        assert c in Cus(a) * (Cus(d) * Interval(0, WORD_BITS * needWords));
        return Fail("add delta contains allocated bits");
      }
    }
    DisjointWordsMiss(a, d, needWords);
    OrInto(allocation, addDelta, needWords);
    return Pass;
  }

  lemma SharedWordMeets(a: Bitmap, d: Bitmap, w: nat)
    requires w < |a| && w < |d| && And(d[w], a[w]) != 0
    ensures exists i: nat :: i in Cus(a) && i in Cus(d) && i < WORD_BITS * (w + 1)
  {
    AndZero(d[w], a[w], WORD_BITS);
    var k: nat :| k < WORD_BITS && Bit(d[w], k) && Bit(a[w], k);
    var i := WORD_BITS * w + k;
    assert i / WORD_BITS == w && i % WORD_BITS == k;
    assert i in Cus(a) && i in Cus(d);
  }

  lemma DisjointWordsMiss(a: Bitmap, d: Bitmap, need: nat)
    requires need <= |a| && need <= |d|
    requires forall w :: 0 <= w < need ==> And(d[w], a[w]) == 0
    ensures Cus(a) * (Cus(d) * Interval(0, WORD_BITS * need)) == {}
  {
    forall i: nat | i in Cus(a) && i in Cus(d) && i < WORD_BITS * need ensures false {
      AndZero(d[i / WORD_BITS], a[i / WORD_BITS], WORD_BITS);
    }
  }

  // ---------- first fit on sets ----------

  /** The unit CUs from start on. */
  function Block(start: nat, unit: nat): set<nat> {
    Interval(start, start + unit)
  }

  predicate FreeBlock(used: set<nat>, start: nat, unit: nat) {
    Block(start, unit) !! used
  }

  /** The starts, in ascending order, of the whole free blocks of unit CUs from start on below totalCUs. */
  function FreeStarts(used: set<nat>, totalCUs: int, unit: nat, start: nat): seq<nat>
    requires unit > 0
    decreases totalCUs - start
  {
    if start + unit > totalCUs then []
    else var rest := FreeStarts(used, totalCUs, unit, start + unit);
      if FreeBlock(used, start, unit) then [start] + rest else rest
  }

  lemma FreeStartsStep(used: set<nat>, totalCUs: int, unit: nat, start: nat)
    requires unit > 0 && start + unit <= totalCUs
    ensures var rest := FreeStarts(used, totalCUs, unit, start + unit);
      FreeStarts(used, totalCUs, unit, start) == if FreeBlock(used, start, unit) then [start] + rest else rest
  {
  }

  /** The CUs of the blocks that begin at starts. */
  function Blocks(starts: seq<nat>, unit: nat): set<nat> {
    set s: nat, c: nat | s in starts && c in Block(s, unit) :: c
  }

  /** A unit of zero or less means single CUs. */
  function UnitSize(unit: int): nat {
    if unit <= 0 then 1 else unit
  }

  /** What AllocateN takes from a device where used is taken: the first UnitsFor(n) free blocks, or nothing. */
  function TakeCus(used: set<nat>, totalCUs: int, n: int, unit: int): Option<set<nat>> {
    if n <= 0 then None else
    var starts := FreeStarts(used, totalCUs, UnitSize(unit), 0);
    var units := UnitsFor(n, UnitSize(unit));
    if |starts| < units then None else Some(Blocks(starts[..units], UnitSize(unit)))
  }

  /** s begins a whole free block of unit CUs at or after start. */
  predicate FreeStart(used: set<nat>, totalCUs: int, unit: nat, start: nat, s: nat)
    requires unit > 0
  {
    start <= s && Multiple(s, unit) && s + unit <= totalCUs && FreeBlock(used, s, unit)
  }

  lemma FirstStart(used: set<nat>, totalCUs: int, unit: nat, start: nat, s: nat)
    requires unit > 0 && Multiple(start, unit) && start + unit <= totalCUs
    ensures FreeStart(used, totalCUs, unit, start, s) <==>
      (s == start && FreeBlock(used, start, unit)) || FreeStart(used, totalCUs, unit, start + unit, s)
  {
    hide FreeBlock;
    if start <= s < start + unit && Multiple(s, unit) { NoMultipleBetween(start, s, unit); }
  }

  /** FreeStarts is exactly the ascending list of the free aligned blocks below totalCUs. */
  lemma {:induction false} FreeStartsExact(used: set<nat>, totalCUs: int, unit: nat, start: nat)
    requires unit > 0 && Multiple(start, unit)
    ensures Increasing(FreeStarts(used, totalCUs, unit, start))
    ensures forall s: nat :: s in FreeStarts(used, totalCUs, unit, start) <==> FreeStart(used, totalCUs, unit, start, s)
    decreases totalCUs - start
  {
    hide FreeBlock, Increasing, Multiple;
    if start + unit <= totalCUs {
      MultipleStep(start, unit);
      FreeStartsExact(used, totalCUs, unit, start + unit);
      var rest := FreeStarts(used, totalCUs, unit, start + unit);
      FreeStartsStep(used, totalCUs, unit, start);
      forall s: nat ensures s in FreeStarts(used, totalCUs, unit, start) <==> FreeStart(used, totalCUs, unit, start, s) {
        FirstStart(used, totalCUs, unit, start, s);
      }
      if FreeBlock(used, start, unit) { IncreasingPrepend(start, rest); }
    } else {
      NothingIncreases();
    }
  }

  lemma EmptyBlocks(unit: nat)
    ensures Blocks([], unit) == {}
  {
  }

  lemma BlocksAppend(starts: seq<nat>, last: nat, unit: nat)
    ensures forall c: nat :: c in Blocks(starts + [last], unit) <==> c in Blocks(starts, unit) || last <= c < last + unit
  {
    var all := starts + [last];
    assert forall s: nat :: s in all <==> s in starts || s == last;
    forall c: nat ensures c in Blocks(all, unit) <==> c in Blocks(starts, unit) || last <= c < last + unit {
      if s: nat :| s in all && c in Block(s, unit) { assert s in starts || s == last; }
      if last <= c < last + unit { assert last in all && c in Block(last, unit); }
      if s: nat :| s in starts && c in Block(s, unit) { assert s in all; }
    }
  }

  /** Every start is at least one unit after the one before it. */
  predicate Spaced(starts: seq<nat>, unit: nat) {
    |starts| > 1 ==>
      var front := starts[..|starts| - 1];
      Spaced(front, unit) && front[|front| - 1] + unit <= starts[|starts| - 1]
  }

  lemma {:induction false} BlocksBelow(starts: seq<nat>, unit: nat)
    requires starts != [] && Spaced(starts, unit)
    ensures forall i :: 0 <= i < |starts| ==> starts[i] <= starts[|starts| - 1]
  {
    var front := starts[..|starts| - 1];
    if front != [] { BlocksBelow(front, unit); }
  }

  lemma {:induction false} BlocksSize(starts: seq<nat>, unit: nat)
    requires Spaced(starts, unit)
    ensures |Blocks(starts, unit)| == Times(unit, |starts|)
  {
    if starts == [] {
      assert Blocks(starts, unit) == {};
    } else {
      var front, last := starts[..|starts| - 1], starts[|starts| - 1];
      BlocksSize(front, unit);
      if front != [] { BlocksBelow(front, unit); }
      assert starts == front + [last];
      BlocksAppend(front, last, unit);
      AppendInterval(Blocks(front, unit), Blocks(starts, unit), last, last + unit);
    }
  }

  lemma AppendInterval(a: set<nat>, b: set<nat>, lo: nat, hi: nat)
    requires lo <= hi && forall c: nat :: c in a ==> c < lo
    requires forall c: nat :: c in b <==> c in a || lo <= c < hi
    ensures |b| == |a| + hi - lo
  {
    assert b == a + Interval(lo, hi);
    IntervalSize(lo, hi);
    DisjointUnionSize(a, Interval(lo, hi));
  }

  lemma DisjointUnionSize(a: set<nat>, b: set<nat>)
    requires a !! b
    ensures |a + b| == |a| + |b|
  {
  }

  /** Increasing multiples of unit are at least unit apart. */
  lemma {:induction false} AlignedSpaced(starts: seq<nat>, unit: nat)
    requires unit > 0
    requires forall i, j :: 0 <= i < j < |starts| ==> starts[i] < starts[j]
    requires forall i :: 0 <= i < |starts| ==> Multiple(starts[i], unit)
    ensures Spaced(starts, unit)
  {
    if |starts| > 1 {
      AlignedSpaced(starts[..|starts| - 1], unit);
      var a, b := starts[|starts| - 2], starts[|starts| - 1];
      if b < a + unit { NoMultipleBetween(a, b, unit); }
    }
  }

  /** What is taken is the first UnitsFor(n) entries of the list of free blocks. */
  lemma TakenBlocks(used: set<nat>, totalCUs: int, n: int, unit: int)
    returns (starts: seq<nat>, taken: seq<nat>)
    requires TakeCus(used, totalCUs, n, unit).Some?
    ensures starts == FreeStarts(used, totalCUs, UnitSize(unit), 0)
    ensures |taken| == UnitsFor(n, UnitSize(unit)) && taken <= starts
    ensures TakeCus(used, totalCUs, n, unit).value == Blocks(taken, UnitSize(unit))
    ensures forall i, j :: 0 <= i < j < |starts| ==> starts[i] < starts[j]
    ensures Spaced(taken, UnitSize(unit))
    ensures forall s: nat :: s in starts <==>
      Multiple(s, UnitSize(unit)) && s + UnitSize(unit) <= totalCUs && FreeBlock(used, s, UnitSize(unit))
    ensures forall s: nat :: s in taken ==> s in starts
  {
    var u := UnitSize(unit);
    starts := FreeStarts(used, totalCUs, u, 0);
    taken := starts[..UnitsFor(n, u)];
    FreeStartsExact(used, totalCUs, u, 0);
    forall s: nat | s in taken ensures s in starts {}
    forall i | 0 <= i < |taken| ensures Multiple(taken[i], u) { assert taken[i] in starts; }
    AlignedSpaced(taken, u);
  }

  /** n rounded up to whole units; a unit of zero or less means single CUs. */
  function RoundUp(n: nat, unit: int): nat {
    if unit <= 0 then n else (n + unit - 1) / unit * unit
  }

  lemma RoundUpIsUnits(n: nat, unit: int)
    ensures Times(UnitSize(unit), UnitsFor(n, UnitSize(unit))) == RoundUp(n, unit)
  {
    RoundUpFormula(n, UnitSize(unit));
  }

  /** What first fit takes is free, in range, and exactly n rounded up to whole units. */
  lemma TakeCusSound(used: set<nat>, totalCUs: int, n: int, unit: int)
    requires TakeCus(used, totalCUs, n, unit).Some?
    ensures var d := TakeCus(used, totalCUs, n, unit).value;
      && n > 0
      && d !! used
      && d != {}
      && (forall c: nat :: c in d ==> c < totalCUs)
      && |d| == RoundUp(n, unit)
  {
    hide RoundUp;
    var u := UnitSize(unit);
    var starts, taken := TakenBlocks(used, totalCUs, n, unit);
    BlocksSize(taken, u);
    UnitsForRoundsUp(n, u);
    RoundUpIsUnits(n, unit);
    var d := Blocks(taken, u);
    forall c: nat | c in d ensures c !in used && c < totalCUs {
      var s: nat :| s in taken && c in Block(s, u);
      assert s in starts;
    }
  }

  /** The number of taken CUs grows by n rounded up to whole units. */
  lemma TakeCusCount(used: set<nat>, totalCUs: int, n: int, unit: int)
    requires TakeCus(used, totalCUs, n, unit).Some?
    ensures var after := used + TakeCus(used, totalCUs, n, unit).value;
      && (unit > 0 ==> |after| == |used| + (n + unit - 1) / unit * unit)
      && (unit <= 0 ==> |after| == |used| + n)
  {
    hide TakeCus;
    TakeCusSound(used, totalCUs, n, unit);
    DisjointUnionSize(used, TakeCus(used, totalCUs, n, unit).value);
  }

  /** s begins a unit that lies on the device and is free; a unit of zero or less is a single CU. */
  predicate FreeUnit(used: set<nat>, totalCUs: int, unit: int, s: nat) {
    if unit <= 0 then s < totalCUs && s !in used
    else s % unit == 0 && s + unit <= totalCUs && forall c: nat :: s <= c < s + unit ==> c !in used
  }

  lemma FreeUnitIsBlock(used: set<nat>, totalCUs: int, unit: int, s: nat)
    ensures var u := UnitSize(unit);
      FreeUnit(used, totalCUs, unit, s) <==> Multiple(s, u) && s + u <= totalCUs && FreeBlock(used, s, u)
  {
    var u := UnitSize(unit);
    hide Multiple;
    MultipleIsMod(s, u);
    assert forall c: nat :: c in Block(s, u) <==> s <= c < s + u;
  }

  /** First fit takes a unit whole or not at all: every taken CU lies in an aligned unit that was free and is taken. */
  lemma TakeCusAligned(used: set<nat>, totalCUs: int, n: int, unit: int, c: nat) returns (s: nat)
    requires TakeCus(used, totalCUs, n, unit).Some? && c in TakeCus(used, totalCUs, n, unit).value
    ensures unit > 0 ==> s % unit == 0 && s <= c < s + unit <= totalCUs
    ensures unit > 0 ==> forall k: nat :: s <= k < s + unit ==> k !in used && k in TakeCus(used, totalCUs, n, unit).value
  {
    var u := UnitSize(unit);
    var starts, taken := TakenBlocks(used, totalCUs, n, unit);
    s :| s in taken && c in Block(s, u);
    assert s in starts;
    FreeUnitIsBlock(used, totalCUs, unit, s);
    WholeBlock(taken, u, s);
    assert forall k: nat :: s <= k < s + u ==> k in Block(s, u);
  }

  /** First fit takes every free unit that begins at or before a taken CU. */
  lemma TakeCusFirstFit(used: set<nat>, totalCUs: int, n: int, unit: int, c: nat, s: nat)
    requires TakeCus(used, totalCUs, n, unit).Some? && c in TakeCus(used, totalCUs, n, unit).value
    requires FreeUnit(used, totalCUs, unit, s) && s <= c
    ensures s in TakeCus(used, totalCUs, n, unit).value
    ensures unit > 0 ==> forall k: nat :: s <= k < s + unit ==> k in TakeCus(used, totalCUs, n, unit).value
  {
    hide TakeCus, FreeUnit, FreeBlock, Multiple;
    FreeUnitIsBlock(used, totalCUs, unit, s);
    EarlierBlockTaken(used, totalCUs, n, unit, c, s);
    assert forall k: nat :: s <= k < s + UnitSize(unit) ==> k in Block(s, UnitSize(unit));
  }

  lemma EarlierBlockTaken(used: set<nat>, totalCUs: int, n: int, unit: int, c: nat, s: nat)
    requires TakeCus(used, totalCUs, n, unit).Some? && c in TakeCus(used, totalCUs, n, unit).value
    requires Multiple(s, UnitSize(unit)) && s <= c && s + UnitSize(unit) <= totalCUs && FreeBlock(used, s, UnitSize(unit))
    ensures Block(s, UnitSize(unit)) <= TakeCus(used, totalCUs, n, unit).value
  {
    var starts, taken := TakenBlocks(used, totalCUs, n, unit);
    var t: nat :| t in taken && c in Block(t, UnitSize(unit));
    assert t in starts && s in starts;
    if t < s { NoMultipleBetween(t, s, UnitSize(unit)); }
    EarlierIsTaken(starts, |taken|, t, s);
    WholeBlock(taken, UnitSize(unit), s);
  }

  lemma EarlierIsTaken(starts: seq<nat>, k: nat, t: nat, s: nat)
    requires k <= |starts| && t in starts[..k] && s in starts && s <= t
    requires forall i, j :: 0 <= i < j < |starts| ==> starts[i] < starts[j]
    ensures s in starts[..k]
  {
    var i :| 0 <= i < k && starts[i] == t;
    var j :| 0 <= j < |starts| && starts[j] == s;
    assert j <= i;
    assert starts[..k][j] == s;
  }

  lemma WholeBlock(starts: seq<nat>, unit: nat, s: nat)
    requires s in starts
    ensures Block(s, unit) <= Blocks(starts, unit)
  {
  }

  /** Where the free units of a device begin. */
  function FreeUnits(used: set<nat>, totalCUs: int, unit: int): set<nat> {
    set s: nat | s < totalCUs && FreeUnit(used, totalCUs, unit, s)
  }

  lemma FreeUnitsCount(used: set<nat>, totalCUs: int, unit: int)
    ensures |FreeUnits(used, totalCUs, unit)| == |FreeStarts(used, totalCUs, UnitSize(unit), 0)|
  {
    hide FreeUnit, FreeStarts, FreeBlock, Multiple;
    var u := UnitSize(unit);
    var starts := FreeStarts(used, totalCUs, u, 0);
    assert Multiple(0, u) by { MultipleIsMod(0, u); }
    FreeStartsExact(used, totalCUs, u, 0);
    forall s: nat ensures s in FreeUnits(used, totalCUs, unit) <==> s in starts { FreeUnitIsBlock(used, totalCUs, unit, s); }
    SetOfIncreasing(starts, FreeUnits(used, totalCUs, unit));
  }

  lemma LastIsNew(a: seq<nat>)
    requires Increasing(a) && a != []
    ensures var front, last := a[..|a| - 1], a[|a| - 1];
      Increasing(front) && last !in front && a == front + [last]
  {
  }

  lemma {:induction false} SetOfIncreasing(a: seq<nat>, s: set<nat>)
    requires Increasing(a) && forall x: nat :: x in s <==> x in a
    ensures |s| == |a|
  {
    hide Increasing;
    if a == [] {
      assert s == {};
    } else {
      var front, last := a[..|a| - 1], a[|a| - 1];
      LastIsNew(a);
      var rest := s - {last};
      forall x: nat ensures x in rest <==> x in front { assert x in a <==> x in front || x == last; }
      SetOfIncreasing(front, rest);
    }
  }

  /** First fit fails exactly for a request that is not positive, or when the free units hold fewer CUs than n. */
  lemma TakeCusFails(used: set<nat>, totalCUs: int, n: int, unit: int)
    ensures TakeCus(used, totalCUs, n, unit).None? <==>
      n <= 0 || |FreeUnits(used, totalCUs, unit)| * (if unit <= 0 then 1 else unit) < n
  {
    hide FreeUnits, FreeStarts, Blocks, UnitsFor;
    FreeUnitsCount(used, totalCUs, unit);
    if n > 0 { EnoughUnits(|FreeUnits(used, totalCUs, unit)|, n, UnitSize(unit)); }
  }

  /** f units hold n CUs exactly if they are as many as n takes. */
  lemma EnoughUnits(f: nat, n: nat, u: nat)
    requires u > 0
    ensures f < UnitsFor(n, u) <==> f * u < n
  {
    hide UnitsFor, Times;
    var k := UnitsFor(n, u);
    UnitsForRoundsUp(n, u);
    TimesCommutes(u, f);
    if f > k { TimesLe(u, k, f); } else if f < k { TimesLe(u, f, k); }
  }

  lemma TimesCommutes(d: nat, k: nat)
    ensures Times(d, k) == k * d
  {
    TimesIsMul(d, k);
  }

  /** A whole device is granted exactly when nothing on it is taken and its CUs are whole units. */
  lemma WholeDevice(used: set<nat>, totalCUs: int, unit: int)
    requires totalCUs > 0 && forall c: nat :: c in used ==> c < totalCUs
    ensures TakeCus(used, totalCUs, totalCUs, unit).Some? <==> used == {} && (unit <= 0 || totalCUs % unit == 0)
    ensures TakeCus(used, totalCUs, totalCUs, unit).Some? ==> TakeCus(used, totalCUs, totalCUs, unit).value == Interval(0, totalCUs)
  {
    hide RoundUp;
    var u := UnitSize(unit);
    UnitsForRoundsUp(totalCUs, u);
    RoundUpIsUnits(totalCUs, unit);
    MultipleIsMod(totalCUs, u);
    IntervalSize(0, totalCUs);
    if TakeCus(used, totalCUs, totalCUs, unit).Some? {
      TakeCusSound(used, totalCUs, totalCUs, unit);
      var d := TakeCus(used, totalCUs, totalCUs, unit).value;
      assert d <= Interval(0, totalCUs);
      SubsetSize(d, Interval(0, totalCUs));
      assert used <= d;
      assert used == {};
      MultipleOfTimes(u, UnitsFor(totalCUs, u));
    }
    if used == {} && Multiple(totalCUs, u) { AllFree(totalCUs, u, 0); }
  }

  lemma {:induction false} AllFree(totalCUs: int, u: nat, start: nat)
    requires u > 0 && start <= totalCUs && Multiple(totalCUs - start, u)
    ensures |FreeStarts({}, totalCUs, u, start)| == UnitsFor(totalCUs - start, u)
    decreases totalCUs - start
  {
    if start + u <= totalCUs { AllFree(totalCUs, u, start + u); }
  }

  lemma {:induction false} SubsetSize(a: set<nat>, b: set<nat>)
    requires a <= b
    ensures |a| <= |b|
    ensures |a| == |b| ==> a == b
  {
    if a != {} {
      var x :| x in a;
      SubsetSize(a - {x}, b - {x});
    }
  }

  /** The unit-wide scan of isSet. */
  method BlockIsFree(allocation: array<Word>, start: nat, unit: nat) returns (free: bool)
    requires start + unit <= WORD_BITS * allocation.Length
    ensures free <==> FreeBlock(Cus(allocation[..]), start, unit)
  {
    free := true;
    for i := start to start + unit
      invariant free <==> Interval(start, i) !! Cus(allocation[..])
    {
      MaskTestsBit(allocation[i / WORD_BITS], i % WORD_BITS);
      assert Interval(start, i + 1) == Interval(start, i) + {i};
      free := free && And(allocation[i / WORD_BITS], Pow2(i % WORD_BITS)) == 0;
    }
  }

  method SetBlock(delta: array<Word>, start: nat, unit: nat)
    requires start + unit <= WORD_BITS * delta.Length
    modifies delta
    ensures Cus(delta[..]) == old(Cus(delta[..])) + Interval(start, start + unit)
  {
    hide Cus, IsSet, Or, Pow2;
    assert Interval(start, start) == {};
    for i := start to start + unit
      invariant Cus(delta[..]) == old(Cus(delta[..])) + Interval(start, i)
    {
      SetBitAddsOne(delta[..], i);
      ghost var s := delta[..];
      delta[i / WORD_BITS] := Or(delta[i / WORD_BITS], Pow2(i % WORD_BITS));
      assert delta[..] == s[i / WORD_BITS := Or(s[i / WORD_BITS], Pow2(i % WORD_BITS))];
      assert Interval(start, i + 1) == Interval(start, i) + {i};
    }
  }

  lemma ShiftHead<T>(a: seq<T>, x: T, b: seq<T>)
    ensures a + ([x] + b) == a + [x] + b
  {
  }

  /** The scan of AllocateN: collects free blocks in delta until want CUs are taken or the device is exhausted. */
  method TakeBlocks(allocation: array<Word>, delta: array<Word>, totalCUs: int, want: nat, unit: nat, ghost units: nat)
    returns (count: nat)
    requires allocation != delta && allocation.Length == delta.Length && WordsFor(totalCUs) <= allocation.Length
    requires unit > 0 && want == Times(unit, units) && Cus(delta[..]) == {}
    modifies delta
    ensures var starts := FreeStarts(Cus(allocation[..]), totalCUs, unit, 0);
      && (count == want <==> units <= |starts|)
      && (count == want ==> Cus(delta[..]) == Blocks(starts[..units], unit))
  {
    hide Cus, Blocks, IsSet;
    EmptyBlocks(unit);
    ghost var used := Cus(allocation[..]);
    ghost var all := FreeStarts(used, totalCUs, unit, 0);
    ghost var taken: seq<nat>, rest: seq<nat> := [], all;
    count := 0;
    var start: nat := 0;
    while start + unit <= totalCUs && count < want
      invariant rest == FreeStarts(used, totalCUs, unit, start)
      invariant all == taken + rest
      invariant |taken| <= units && count == Times(unit, |taken|)
      invariant Cus(delta[..]) == Blocks(taken, unit)
      decreases totalCUs - start
    {
      var free := BlockIsFree(allocation, start, unit);
      FreeStartsStep(used, totalCUs, unit, start);
      rest := FreeStarts(used, totalCUs, unit, start + unit);
      if free {
        SetBlock(delta, start, unit);
        BlocksAppend(taken, start, unit);
        ShiftHead(taken, start, rest);
        taken := taken + [start];
        count := count + unit;
      }
      start := start + unit;
    }
    if |taken| < units {
      TimesLe(unit, |taken|, units);
      assert rest == [];
    } else {
      assert all[..units] == taken;
    }
  }

  /**
   * Takes n free CUs first-fit in whole units. On success the bitmap is updated in place and the delta holds
   * what this call took; on failure the bitmap is untouched.
   */
  method AllocateN(allocation: array<Word>, totalCUs: int, n: int, unit: int) returns (r: Result<array<Word>>)
    modifies allocation
    ensures var used := old(Cus(allocation[..]));
      && (r.Failure? <==> allocation.Length < WordsFor(totalCUs) || TakeCus(used, totalCUs, n, unit).None?)
      && (r.Failure? ==> allocation[..] == old(allocation[..]))
      && (r.Success? ==>
            && fresh(r.value) && r.value.Length == allocation.Length
            && Cus(r.value[..]) == TakeCus(used, totalCUs, n, unit).value
            && Cus(allocation[..]) == used + Cus(r.value[..]))
  {
    hide Cus, FreeStarts, Blocks, Times, UnitsFor;
    if n <= 0 { return Failure("n must be > 0"); }
    var u := if unit <= 0 then 1 else unit;
    if allocation.Length < WordsFor(totalCUs) { return Failure("allocation bitmap is too short"); }
    var want := (n + u - 1) / u * u;
    UnitsForIsCeil(n, u);
    TimesIsMul(u, UnitsFor(n, u));

    var delta := new Word[allocation.Length](_ => 0);
    EmptyBitmap(delta[..]);
    var count := TakeBlocks(allocation, delta, totalCUs, want, u, UnitsFor(n, u));
    if count != want { return Failure("insufficient free CUs"); }
    OrInto(allocation, delta, allocation.Length);
    CusInRange(delta[..]);
    return Success(delta);
  }
}
