/** The 64-bit words of a bitmap: bitwise operators on naturals below 2^64, and what each does to the single bits. */
module Words {

  const WORD_BITS: nat := 64

  function Pow2(n: nat): (p: nat)
    ensures p > 0
  {
    if n == 0 then 1 else 2 * Pow2(n - 1)
  }

  /** Go's uint64. */
  type Word = w: nat | w < Pow2(64) witness ZeroWord()

  function ZeroWord(): (w: nat)
    ensures w < Pow2(64)
  {
    0
  }

  /** Bit k of w. */
  predicate Bit(w: nat, k: nat) {
    if k == 0 then w % 2 == 1 else Bit(w / 2, k - 1)
  }

  function Or(a: nat, b: nat): nat
    decreases a + b
  {
    if a == 0 then b else if b == 0 then a
    else 2 * Or(a / 2, b / 2) + (if a % 2 == 1 || b % 2 == 1 then 1 else 0)
  }

  function And(a: nat, b: nat): nat
    decreases a + b
  {
    if a == 0 || b == 0 then 0
    else 2 * And(a / 2, b / 2) + (if a % 2 == 1 && b % 2 == 1 then 1 else 0)
  }

  /** math/bits.OnesCount64. */
  function OnesCount(w: nat): nat {
    if w == 0 then 0 else w % 2 + OnesCount(w / 2)
  }

  lemma {:induction false} ZeroHasNoBit(k: nat)
    ensures !Bit(0, k)
  {
    if k > 0 { ZeroHasNoBit(k - 1); }
  }

  lemma {:induction false} OrBit(a: nat, b: nat, k: nat)
    ensures Bit(Or(a, b), k) <==> Bit(a, k) || Bit(b, k)
  {
    if a == 0 || b == 0 {
      ZeroHasNoBit(k);
    } else if k > 0 {
      OrBit(a / 2, b / 2, k - 1);
    }
  }

  lemma {:induction false} AndBit(a: nat, b: nat, k: nat)
    ensures Bit(And(a, b), k) <==> Bit(a, k) && Bit(b, k)
  {
    if a == 0 || b == 0 {
      ZeroHasNoBit(k);
    } else if k > 0 {
      AndBit(a / 2, b / 2, k - 1);
    }
  }

  /** 1 << k has exactly bit k. */
  lemma {:induction false} MaskBit(k: nat, j: nat)
    ensures Bit(Pow2(k), j) <==> j == k
  {
    if k == 0 {
      if j > 0 { ZeroHasNoBit(j - 1); }
    } else if j > 0 {
      MaskBit(k - 1, j - 1);
    }
  }

  lemma {:induction false} OrBelow(a: nat, b: nat, n: nat)
    requires a < Pow2(n) && b < Pow2(n)
    ensures Or(a, b) < Pow2(n)
  {
    if a != 0 && b != 0 { OrBelow(a / 2, b / 2, n - 1); }
  }

  lemma {:induction false} Pow2Less(k: nat, n: nat)
    requires k < n
    ensures Pow2(k) < Pow2(n)
  {
    if k + 1 < n { Pow2Less(k, n - 1); }
  }

  /** A word of n bits with no bit set is zero. */
  lemma {:induction false} NoBitIsZero(w: nat, n: nat)
    requires w < Pow2(n)
    requires forall k: nat :: k < n ==> !Bit(w, k)
    ensures w == 0
  {
    if n > 0 {
      assert !Bit(w, 0);
      forall k: nat | k < n - 1 ensures !Bit(w / 2, k) { assert !Bit(w, k + 1); }
      NoBitIsZero(w / 2, n - 1);
    }
  }

  /** Two words of n bits with the same bits are equal. */
  lemma {:induction false} SameBitsSameWord(v: nat, w: nat, n: nat)
    requires v < Pow2(n) && w < Pow2(n)
    requires forall k: nat :: k < n ==> (Bit(v, k) <==> Bit(w, k))
    ensures v == w
  {
    if n > 0 {
      assert Bit(v, 0) <==> Bit(w, 0);
      forall k: nat | k < n - 1 ensures Bit(v / 2, k) <==> Bit(w / 2, k) {
        assert Bit(v, k + 1) <==> Bit(w, k + 1);
      }
      SameBitsSameWord(v / 2, w / 2, n - 1);
    }
  }

  /** v & w == 0 exactly when the words share no bit. */
  lemma AndZero(v: nat, w: nat, n: nat)
    requires v < Pow2(n)
    ensures And(v, w) == 0 ==> forall k: nat :: !(Bit(v, k) && Bit(w, k))
    ensures And(v, w) != 0 ==> exists k: nat :: k < n && Bit(v, k) && Bit(w, k)
  {
    AndBelow(v, w, n);
    forall k: nat ensures Bit(And(v, w), k) <==> Bit(v, k) && Bit(w, k) { AndBit(v, w, k); }
    if And(v, w) == 0 {
      forall k: nat ensures !Bit(And(v, w), k) { ZeroHasNoBit(k); }
    } else {
      if forall k: nat :: k < n ==> !Bit(And(v, w), k) { NoBitIsZero(And(v, w), n); }
      var k: nat :| k < n && Bit(And(v, w), k);
      assert Bit(v, k) && Bit(w, k);
    }
  }

  lemma {:induction false} AndBelow(a: nat, b: nat, n: nat)
    requires a < Pow2(n)
    ensures And(a, b) < Pow2(n)
  {
    if a != 0 && b != 0 { AndBelow(a / 2, b / 2, n - 1); }
  }

  /** w & (1 << k) tests bit k. */
  lemma MaskTestsBit(w: nat, k: nat)
    ensures And(w, Pow2(k)) != 0 <==> Bit(w, k)
  {
    Pow2Less(k, k + 1);
    AndCommutes(w, Pow2(k));
    AndZero(Pow2(k), w, k + 1);
    forall j: nat ensures Bit(Pow2(k), j) <==> j == k { MaskBit(k, j); }
  }

  lemma {:induction false} AndCommutes(a: nat, b: nat)
    ensures And(a, b) == And(b, a)
    decreases a + b
  {
    if a != 0 && b != 0 { AndCommutes(a / 2, b / 2); }
  }

  /** The set of bit positions below n, shifted by offset. */
  function BitsFrom(w: nat, offset: nat, n: nat): set<nat> {
    set k: nat | k < n && Bit(w, k) :: offset + k
  }

  /** The lowest bit and the bits of the half word. */
  lemma BitsFromHalf(w: nat, offset: nat, n: nat, x: nat)
    requires n > 0
    ensures x in BitsFrom(w, offset, n) <==> (w % 2 == 1 && x == offset) || x in BitsFrom(w / 2, offset + 1, n - 1)
  {
    if x in BitsFrom(w, offset, n) {
      var k: nat :| k < n && Bit(w, k) && x == offset + k;
      if k > 0 { assert Bit(w / 2, k - 1) && x == offset + 1 + (k - 1); }
    }
    if x in BitsFrom(w / 2, offset + 1, n - 1) {
      var k: nat :| k < n - 1 && Bit(w / 2, k) && x == offset + 1 + k;
      assert Bit(w, k + 1);
    }
    if w % 2 == 1 { assert Bit(w, 0); }
  }

  lemma NoBitsFrom(offset: nat, n: nat)
    ensures BitsFrom(0, offset, n) == {}
  {
    forall k: nat ensures !Bit(0, k) { ZeroHasNoBit(k); }
  }

  lemma OffsetBelow(w: nat, offset: nat, n: nat)
    ensures forall x :: x in BitsFrom(w, offset, n) ==> x >= offset
  {
  }

  /** OnesCount counts the bits of a word. */
  lemma {:induction false} OnesCountIsBits(w: nat, offset: nat, n: nat)
    requires w < Pow2(n)
    ensures OnesCount(w) == |BitsFrom(w, offset, n)|
  {
    hide BitsFrom, Bit;
    if w == 0 {
      NoBitsFrom(offset, n);
    } else {
      OnesCountIsBits(w / 2, offset + 1, n - 1);
      OffsetBelow(w / 2, offset + 1, n - 1);
      var high: set<nat> := BitsFrom(w / 2, offset + 1, n - 1);
      var low: set<nat> := if w % 2 == 1 then {offset} else {};
      forall x: nat ensures x in BitsFrom(w, offset, n) <==> x in low + high { BitsFromHalf(w, offset, n, x); }
      assert BitsFrom(w, offset, n) == low + high;
    }
  }
}
