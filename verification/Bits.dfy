/** The bitwise or of the codec. The shift n >> k is a division by 2^k, and masking with
    2^k - 1 is the remainder; where the bits do not overlap, the or is a sum. */
module Bits {

  function BitOr(a: nat, b: nat): nat
    decreases a + b
  {
    if a == 0 then b else if b == 0 then a
    else (if a % 2 == 1 || b % 2 == 1 then 1 else 0) + 2 * BitOr(a / 2, b / 2)
  }

  function Pow2(k: nat): (p: nat)
    ensures p > 0
  {
    if k == 0 then 1 else 2 * Pow2(k - 1)
  }

  lemma Halves(q: nat, p: nat)
    ensures q * (2 * p) == 2 * (q * p)
  {
  }

  lemma {:induction false} OrIsSum(q: nat, k: nat, b: nat)
    requires b < Pow2(k)
    ensures BitOr(q * Pow2(k), b) == q * Pow2(k) + b
  {
    if k > 0 && b > 0 && q > 0 {
      Halves(q, Pow2(k - 1));
      OrIsSum(q, k - 1, b / 2);
    }
  }

  lemma {:induction false} OrCommutes(a: nat, b: nat)
    ensures BitOr(a, b) == BitOr(b, a)
    decreases a + b
  {
    if a > 0 && b > 0 {
      OrCommutes(a / 2, b / 2);
    }
  }

  /** (q << k) | b. */
  method ShiftOr(q: nat, k: nat, b: nat) returns (r: nat)
    requires b < Pow2(k)
    ensures r == q * Pow2(k) + b
  {
    r := BitOr(q * Pow2(k), b);
    OrIsSum(q, k, b);
  }

  /** b | m, where m is q << k. */
  method OrMask(b: nat, q: nat, k: nat) returns (r: nat)
    requires b < Pow2(k)
    ensures r == q * Pow2(k) + b
  {
    r := BitOr(b, q * Pow2(k));
    OrCommutes(b, q * Pow2(k));
    OrIsSum(q, k, b);
  }

  /** (q << 2) | 4, where the third bit may already be set. */
  method ShiftOrFour(q: nat) returns (r: nat)
    ensures r == q * 4 + if q % 2 == 0 then 4 else 0
  {
    r := BitOr(q * 4, 4);
    if q > 0 {
      assert BitOr(q * 4, 4) == 2 * BitOr(q * 2, 2);
      assert BitOr(q * 2, 2) == 2 * BitOr(q, 1);
    }
  }

  lemma Powers()
    ensures Pow2(2) == 4 && Pow2(4) == 16 && Pow2(5) == 32 && Pow2(6) == 64 && Pow2(12) == 4096
  {
    assert Pow2(3) == 8 && Pow2(4) == 16;
  }
}
