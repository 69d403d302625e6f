/** Bytes as numbers, and exclusive or on them, bit by bit. */
module Bytes {
  type byte = x: nat | x < 0x100

  function Power2(k: nat): (p: nat)
    ensures p >= 1
  {
    if k == 0 then 1 else 2 * Power2(k - 1)
  }

  /** Exclusive or of the low `k` bits. */
  function XorBits(a: nat, b: nat, k: nat): (x: nat)
    ensures x < Power2(k)
  {
    if k == 0 then 0 else (a + b) % 2 + 2 * XorBits(a / 2, b / 2, k - 1)
  }

  function Xor(a: byte, b: byte): byte {
    EightBits();
    XorBits(a, b, 8)
  }

  lemma EightBits()
    ensures Power2(8) == 0x100
  {
  }

  lemma BitAndRest(r: nat, x: nat, s: nat, y: nat)
    requires r < 2 && s < 2 && r + 2 * x == s + 2 * y
    ensures r == s && x == y
  {
  }

  lemma SameParity(a: nat, b: nat, c: nat)
    requires (a + b) % 2 == (c + b) % 2
    ensures a % 2 == c % 2
  {
  }

  lemma {:induction false} XorBitsCancels(a: nat, b: nat, c: nat, k: nat)
    requires a < Power2(k) && c < Power2(k)
    requires XorBits(a, b, k) == XorBits(c, b, k)
    ensures a == c
  {
    if k > 0 {
      var x, y := XorBits(a / 2, b / 2, k - 1), XorBits(c / 2, b / 2, k - 1);
      BitAndRest((a + b) % 2, x, (c + b) % 2, y);
      XorBitsCancels(a / 2, b / 2, c / 2, k - 1);
      SameParity(a, b, c);
    }
  }

  lemma {:induction false} XorBitsCommutes(a: nat, b: nat, k: nat)
    ensures XorBits(a, b, k) == XorBits(b, a, k)
  {
    if k > 0 {
      XorBitsCommutes(a / 2, b / 2, k - 1);
    }
  }

  /** Changing either operand changes the result. */
  lemma XorIsInjective(a: byte, b: byte, c: byte)
    ensures Xor(a, b) == Xor(c, b) ==> a == c
    ensures Xor(b, a) == Xor(b, c) ==> a == c
  {
    EightBits();
    XorBitsCommutes(a, b, 8);
    XorBitsCommutes(c, b, 8);
    if Xor(a, b) == Xor(c, b) {
      XorBitsCancels(a, b, c, 8);
    }
  }

  // ---- Bit by bit ----------------------------------------------------------------------------

  /** Whether bit `k` of a number is set, the lowest being bit 0. */
  predicate Bit(x: nat, k: nat) {
    if k == 0 then x % 2 == 1 else Bit(x / 2, k - 1)
  }

  lemma {:induction false} XorBitsAt(a: nat, b: nat, n: nat, k: nat)
    requires k < n
    ensures Bit(XorBits(a, b, n), k) <==> (Bit(a, k) != Bit(b, k))
  {
    var rest := XorBits(a / 2, b / 2, n - 1);
    assert XorBits(a, b, n) / 2 == rest && XorBits(a, b, n) % 2 == (a + b) % 2;
    if k > 0 {
      XorBitsAt(a / 2, b / 2, n - 1, k - 1);
    }
  }

  /** A bit of an exclusive or is set exactly if it is set in one operand and not in the other. */
  lemma XorAt(a: byte, b: byte, k: nat)
    requires k < 8
    ensures Bit(Xor(a, b), k) <==> (Bit(a, k) != Bit(b, k))
  {
    EightBits();
    XorBitsAt(a, b, 8, k);
  }

  lemma {:induction false} SameBitsSame(a: nat, b: nat, n: nat)
    requires a < Power2(n) && b < Power2(n)
    requires forall k | 0 <= k < n :: Bit(a, k) == Bit(b, k)
    ensures a == b
  {
    if n > 0 {
      assert Bit(a, 0) == Bit(b, 0);
      forall k | 0 <= k < n - 1 ensures Bit(a / 2, k) == Bit(b / 2, k) {
        assert Bit(a, k + 1) == Bit(b, k + 1);
      }
      SameBitsSame(a / 2, b / 2, n - 1);
    }
  }
}
