/**
 * Go's uint64 arithmetic on bv64: wrapping addition and subtraction, xor, and
 * shifts whose count may reach or pass the width (Go then yields 0). Every
 * operation is a named function, so the mixing function and the methods that
 * compute it in place are written over the same terms.
 */
module Word64 {

  /** x + y on uint64, wrapping modulo 2^64. */
  function Add(x: bv64, y: bv64): bv64
  {
    x + y
  }

  /** x - y on uint64, wrapping modulo 2^64. */
  function Sub(x: bv64, y: bv64): bv64
  {
    x - y
  }

  /** x ^ y. */
  function Xor(x: bv64, y: bv64): bv64
  {
    x ^ y
  }

  /** x << k for an unsigned count k: 0 once k reaches 64. */
  function Shl(x: bv64, k: bv64): (r: bv64)
    ensures k >= 64 ==> r == 0
  {
    if k >= 64 then 0 else x << k
  }

  /** x >> k for an unsigned count k: 0 once k reaches 64. */
  function Shr(x: bv64, k: bv64): (r: bv64)
    ensures k >= 64 ==> r == 0
  {
    if k >= 64 then 0 else x >> k
  }

  /** The rotation idiom (x << k) | (x >> (64 - k)), with 64 - k wrapping. */
  function Rotl(x: bv64, k: bv64): bv64
  {
    Shl(x, k) | Shr(x, Sub(64, k))
  }

  /** The mirror idiom (x >> k) | (x << (64 - k)), a right rotation. */
  function Rotr(x: bv64, k: bv64): bv64
  {
    Shr(x, k) | Shl(x, Sub(64, k))
  }

  /** Subtracting y undoes adding y. */
  lemma AddThenSub(x: bv64, y: bv64)
    ensures Sub(Add(x, y), y) == x
  {
    SubOfSum(x, y);
  }

  // Stated on the sum itself, so the solver simplifies the instance directly.
  lemma SubOfSum(x: bv64, y: bv64)
    ensures Sub(x + y, y) == x
  {
  }

  /** Xoring y twice gives back x. */
  lemma XorTwice(x: bv64, y: bv64)
    ensures Xor(Xor(x, y), y) == x
  {
    XorOfXor(x, y);
  }

  lemma XorOfXor(x: bv64, y: bv64)
    ensures Xor(x ^ y, y) == x
  {
  }

  /** Xor is commutative. */
  lemma XorCommutes(x: bv64, y: bv64)
    ensures Xor(x, y) == Xor(y, x)
  {
    XorOfSwapped(x, y);
  }

  lemma XorOfSwapped(x: bv64, y: bv64)
    ensures Xor(x, y) == y ^ x
  {
  }

  /** Xoring the same word into two words keeps them apart. */
  lemma XorCancel(x: bv64, y: bv64, z: bv64)
    ensures Xor(x, y) == Xor(x, z) <==> y == z
  {
    XorCommutes(x, y);
    XorCommutes(x, z);
    XorTwice(y, x);
    XorTwice(z, x);
  }
}
