/** Bitwise operations on natural numbers, digit by digit, and what they do with the top bit of a
    fixed-width number. */
module Bits {

  function Pow2(k: nat): (r: nat)
    ensures r >= 1
  {
    if k == 0 then 1 else 2 * Pow2(k - 1)
  }

  lemma ThreeDoublings(k: nat)
    ensures Pow2(k + 3) == 8 * Pow2(k)
  {
    assert Pow2(k + 1) == 2 * Pow2(k);
    assert Pow2(k + 2) == 2 * Pow2(k + 1);
  }

  lemma NineDoublings(k: nat)
    ensures Pow2(k + 9) == 512 * Pow2(k)
  {
    ThreeDoublings(k);
    ThreeDoublings(k + 3);
    ThreeDoublings(k + 6);
  }

  /** `x & y` */
  function And(x: nat, y: nat): nat {
    if x == 0 || y == 0 then 0
    else 2 * And(x / 2, y / 2) + (if x % 2 == 1 && y % 2 == 1 then 1 else 0)
  }

  /** `x | y` */
  function Or(x: nat, y: nat): nat {
    if x == 0 then y
    else if y == 0 then x
    else 2 * Or(x / 2, y / 2) + (if x % 2 == 1 || y % 2 == 1 then 1 else 0)
  }

  /** `~x` on numbers of `k` bits: every digit flipped. */
  function Not(x: nat, k: nat): nat {
    if k == 0 then 0 else 2 * Not(x / 2, k - 1) + (if x % 2 == 1 then 0 else 1)
  }

  lemma AndZero(x: nat)
    ensures And(x, 0) == 0 && And(0, x) == 0
  {}

  /** Testing the top bit of a number of `k + 1` bits. */
  lemma {:induction false} TestTopBit(x: nat, k: nat)
    requires x < 2 * Pow2(k)
    ensures And(x, Pow2(k)) == if x < Pow2(k) then 0 else Pow2(k)
  {
    if k > 0 {
      TestTopBit(x / 2, k - 1);
    } else {
      AndZero(x / 2);
    }
  }

  /** Setting the top bit. */
  lemma {:induction false} SetTopBit(x: nat, k: nat)
    requires x < 2 * Pow2(k)
    ensures Or(x, Pow2(k)) == if x < Pow2(k) then x + Pow2(k) else x
  {
    if k > 0 {
      SetTopBit(x / 2, k - 1);
    }
  }

  lemma {:induction false} Complement(x: nat, k: nat)
    requires x < Pow2(k)
    ensures Not(x, k) == Pow2(k) - 1 - x
  {
    if k > 0 {
      Complement(x / 2, k - 1);
    }
  }

  /** The mask of all lower bits cuts a number down to them. */
  lemma {:induction false} KeepLowBits(x: nat, k: nat)
    requires x < 2 * Pow2(k)
    ensures And(x, Pow2(k) - 1) == if x < Pow2(k) then x else x - Pow2(k)
  {
    if k > 0 {
      KeepLowBits(x / 2, k - 1);
    }
  }
}
