/** Bitwise operations of Python's integers, on numbers that are not negative. */
module Bits {

  /** Is bit k of n set: (n >> k) & 1. */
  predicate Bit(n: nat, k: nat) { if k == 0 then n % 2 == 1 else Bit(n / 2, k - 1) }

  /** a ^ b */
  function BitXor(a: nat, b: nat): nat {
    if a == 0 && b == 0 then 0 else 2 * BitXor(a / 2, b / 2) + (a + b) % 2
  }

  lemma BitXorHalves(a: nat, b: nat)
    ensures BitXor(a, b) / 2 == BitXor(a / 2, b / 2) && BitXor(a, b) % 2 == (a + b) % 2
  {
  }

  /** Bit by bit. */
  lemma {:induction false} BitXorBits(a: nat, b: nat, k: nat)
    ensures Bit(BitXor(a, b), k) <==> Bit(a, k) != Bit(b, k)
  {
    hide BitXor;
    BitXorHalves(a, b);
    if k > 0 { BitXorBits(a / 2, b / 2, k - 1); }
  }

  lemma {:induction false} BitXorCommutes(a: nat, b: nat)
    ensures BitXor(a, b) == BitXor(b, a)
  {
    if a != 0 || b != 0 { BitXorCommutes(a / 2, b / 2); }
  }

  lemma {:induction false} BitXorAssociates(a: nat, b: nat, c: nat)
    ensures BitXor(BitXor(a, b), c) == BitXor(a, BitXor(b, c))
    decreases a + b + c
  {
    hide BitXor;
    if a == 0 && b == 0 && c == 0 {
      BitXorSelf(0);
    } else {
      BitXorAssociates(a / 2, b / 2, c / 2);
      BitXorHalves(a, b);
      BitXorHalves(b, c);
      BitXorHalves(BitXor(a, b), c);
      BitXorHalves(a, BitXor(b, c));
      SameHalves(BitXor(BitXor(a, b), c), BitXor(a, BitXor(b, c)));
    }
  }

  lemma SameHalves(a: nat, b: nat)
    requires a / 2 == b / 2 && a % 2 == b % 2
    ensures a == b
  {
  }

  lemma {:induction false} BitXorSelf(a: nat)
    ensures BitXor(a, a) == 0 && BitXor(a, 0) == a
  {
    if a != 0 { BitXorSelf(a / 2); }
  }

  /** What was combined can be told apart again. */
  lemma {:induction false} BitXorCancels(a: nat, b: nat, c: nat)
    requires BitXor(a, b) == BitXor(a, c)
    ensures b == c
  {
    hide BitXor;
    BitXorAssociates(a, a, b);
    BitXorAssociates(a, a, c);
    BitXorSelf(a);
    BitXorCommutes(0, b);
    BitXorCommutes(0, c);
    BitXorSelf(b);
    BitXorSelf(c);
  }

  /** a | b */
  function BitOr(a: nat, b: nat): nat {
    if a == 0 && b == 0 then 0 else 2 * BitOr(a / 2, b / 2) + (if a % 2 == 1 || b % 2 == 1 then 1 else 0)
  }

  lemma BitOrHalves(a: nat, b: nat)
    ensures BitOr(a, b) / 2 == BitOr(a / 2, b / 2)
    ensures BitOr(a, b) % 2 == if a % 2 == 1 || b % 2 == 1 then 1 else 0
  {
  }

  lemma {:induction false} BitOrBits(a: nat, b: nat, k: nat)
    ensures Bit(BitOr(a, b), k) <==> Bit(a, k) || Bit(b, k)
  {
    hide BitOr;
    BitOrHalves(a, b);
    if k > 0 { BitOrBits(a / 2, b / 2, k - 1); }
  }

  /** v << k */
  function Shift(v: nat, k: nat): nat { if k == 0 then v else 2 * Shift(v, k - 1) }

  /** The bits of 1 << k and of 0 << k. */
  lemma {:induction false} ShiftBits(v: nat, k: nat, j: nat)
    requires v <= 1
    ensures Bit(Shift(v, k), j) <==> v == 1 && j == k
  {
    if k > 0 && j > 0 {
      ShiftBits(v, k - 1, j - 1);
    } else if j > 0 {
      NoBits(v / 2, j - 1);
    }
  }

  lemma {:induction false} NoBits(n: nat, j: nat)
    requires n == 0
    ensures !Bit(n, j)
  {
    if j > 0 { NoBits(n / 2, j - 1); }
  }

  lemma {:induction false} BitOrBound(a: nat, b: nat, k: nat)
    requires a < Shift(1, k) && b < Shift(1, k)
    ensures BitOr(a, b) < Shift(1, k)
  {
    if k > 0 {
      BitOrHalves(a, b);
      BitOrBound(a / 2, b / 2, k - 1);
    }
  }

  lemma {:induction false} ShiftBound(v: nat, k: nat, n: nat)
    requires v <= 1 && k < n
    ensures Shift(v, k) < Shift(1, n)
    decreases n
  {
    if k > 0 { ShiftBound(v, k - 1, n - 1); } else { ShiftPositive(n - 1); }
  }

  lemma {:induction false} ShiftPositive(n: nat)
    ensures Shift(1, n) >= 1
  {
    if n > 0 { ShiftPositive(n - 1); }
  }

  /** Numbers of k bits with the same bits are the same. */
  lemma {:induction false} SameBits(a: nat, b: nat, k: nat)
    requires a < Shift(1, k) && b < Shift(1, k)
    requires forall j :: 0 <= j < k ==> (Bit(a, j) <==> Bit(b, j))
    ensures a == b
  {
    if k > 0 {
      assert Bit(a, 0) <==> Bit(b, 0);
      forall j | 0 <= j < k - 1 ensures Bit(a / 2, j) <==> Bit(b / 2, j) {
        assert Bit(a, j + 1) <==> Bit(b, j + 1);
      }
      SameBits(a / 2, b / 2, k - 1);
    }
  }
}
