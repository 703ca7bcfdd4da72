/**
 * Integer powers of two and their logarithm. The viewer computes
 * `Math.log(x) / Math.LN2` and `Math.pow(2, k)` on texture sizes; the model
 * restricts those sizes to powers of two, where both are exact integers.
 */
module PowerOfTwo {

  function Pow2(k: nat): (r: nat)
    ensures r >= 1
  {
    if k == 0 then 1 else 2 * Pow2(k - 1)
  }

  function Pow4(k: nat): (r: nat)
    ensures r >= 1
  {
    if k == 0 then 1 else 4 * Pow4(k - 1)
  }

  /** The floor of the base-2 logarithm of a positive number (0 for 0). */
  function Log2(x: nat): nat {
    if x <= 1 then 0 else 1 + Log2(x / 2)
  }

  predicate IsPow2(x: nat) {
    x == Pow2(Log2(x))
  }

  /** Log2 inverts Pow2: `Math.log(2^k) / Math.LN2` is `k`. */
  lemma {:induction false} Log2Pow2(k: nat)
    ensures Log2(Pow2(k)) == k && IsPow2(Pow2(k))
  {
    if k > 0 {
      Log2Pow2(k - 1);
      assert Pow2(k) / 2 == Pow2(k - 1);
    }
  }

  /** Squaring a power of two gives the power of four. */
  lemma {:induction false} Pow2Squared(k: nat)
    ensures Pow2(k) * Pow2(k) == Pow4(k)
  {
    if k > 0 {
      Pow2Squared(k - 1);
      calc {
        Pow2(k) * Pow2(k);
        (2 * Pow2(k - 1)) * (2 * Pow2(k - 1));
        4 * (Pow2(k - 1) * Pow2(k - 1));
      }
    }
  }

  /** Exponents add: 2^(a+b) = 2^a · 2^b. */
  lemma {:induction false} Pow2Add(a: nat, b: nat)
    ensures Pow2(a + b) == Pow2(a) * Pow2(b)
  {
    if a > 0 {
      Pow2Add(a - 1, b);
    }
  }

  /** Powers of two grow strictly with the exponent. */
  lemma {:induction false} Pow2Increasing(a: nat, b: nat)
    requires a < b
    ensures Pow2(a) < Pow2(b)
  {
    if a < b - 1 {
      Pow2Increasing(a, b - 1);
    }
  }

  /** Halving 2^(k+1) gives 2^k exactly. */
  lemma Pow2Half(k: nat)
    ensures Pow2(k + 1) / 2 == Pow2(k)
  {
  }
}
