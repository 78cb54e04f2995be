/** Bitwise operations on unsigned integers, bit by bit, and the arithmetic they come down to. */
module Bits {
  import opened Machine

  function And(a: nat, b: nat): (r: nat)
    ensures r <= a && r <= b
  {
    if a == 0 || b == 0 then 0
    else (if a % 2 == 1 && b % 2 == 1 then 1 else 0) + 2 * And(a / 2, b / 2)
  }

  function Or(a: nat, b: nat): (r: nat)
    ensures r <= a + b
  {
    if a == 0 then b
    else if b == 0 then a
    else (if a % 2 == 1 || b % 2 == 1 then 1 else 0) + 2 * Or(a / 2, b / 2)
  }

  function Xor(a: nat, b: nat): (r: nat)
    ensures r <= a + b
  {
    if a == 0 then b
    else if b == 0 then a
    else (if a % 2 != b % 2 then 1 else 0) + 2 * Xor(a / 2, b / 2)
  }

  /** `a << k`, without losing bits. */
  function Shl(a: nat, k: nat): nat { if k == 0 then a else 2 * Shl(a, k - 1) }

  /** The low `k` bits. */
  function Low(a: nat, k: nat): (r: nat)
    ensures r <= a
  {
    if k == 0 then 0 else a % 2 + 2 * Low(a / 2, k - 1)
  }

  /** Bits that do not meet add up. */
  lemma {:induction false} OrAdds(q: nat, b: nat, k: nat)
    requires b < Shl(1, k)
    ensures Or(Shl(q, k), b) == Shl(q, k) + b
    ensures Or(b, Shl(q, k)) == Shl(q, k) + b
  {
    if k > 0 {
      OrAdds(q, b / 2, k - 1);
    }
  }

  lemma {:induction false} OrBound(a: nat, b: nat, k: nat)
    requires a < Shl(1, k) && b < Shl(1, k)
    ensures Or(a, b) < Shl(1, k)
  {
    if k > 0 && a > 0 && b > 0 {
      OrBound(a / 2, b / 2, k - 1);
    }
  }

  /** Or on bytes. */
  function Or8(a: u8, b: u8): (r: u8)
    ensures r == Or(a, b)
  {
    Powers();
    OrBound(a, b, 8);
    Or(a, b)
  }

  /** A mask of ones keeps the low bits. */
  lemma {:induction false} AndKeepsLow(a: nat, k: nat)
    ensures Shl(1, k) >= 1
    ensures And(a, Shl(1, k) - 1) == Low(a, k)
    ensures And(Shl(1, k) - 1, a) == Low(a, k)
  {
    if k > 0 {
      AndKeepsLow(a / 2, k - 1);
      if a == 0 {
        LowOfZero(k);
      }
    }
  }

  lemma {:induction false} LowOfZero(k: nat)
    ensures Low(0, k) == 0
  {
    if k > 0 {
      LowOfZero(k - 1);
    }
  }

  /** A mask above `k` low bits passes over them. */
  lemma {:induction false} AndAbove(q: nat, b: nat, m: nat, k: nat)
    requires b < Shl(1, k)
    ensures And(Shl(q, k) + b, Shl(m, k)) == Shl(And(q, m), k)
  {
    if k > 0 {
      AndAbove(q, b / 2, m, k - 1);
      assert (Shl(q, k) + b) / 2 == Shl(q, k - 1) + b / 2;
      if Shl(m, k) == 0 {
        assert Shl(m, k - 1) == 0;
      }
      if Shl(q, k) + b == 0 {
        assert Shl(q, k - 1) + b / 2 == 0;
      }
    }
  }

  /** Exclusive or is zero on equal numbers only, and stays in range. */
  lemma {:induction false} XorFacts(a: nat, b: nat, k: nat)
    requires a < Shl(1, k) && b < Shl(1, k)
    ensures Xor(a, b) == 0 <==> a == b
    ensures Xor(a, b) < Shl(1, k)
  {
    if k > 0 {
      XorFacts(a / 2, b / 2, k - 1);
      if a == 0 || b == 0 {
      } else {
        assert Xor(a, b) == (if a % 2 != b % 2 then 1 else 0) + 2 * Xor(a / 2, b / 2);
      }
    }
  }

  lemma {:induction false} Split(a: nat, k: nat) returns (q: nat)
    ensures a == Shl(q, k) + Low(a, k)
    ensures Low(a, k) < Shl(1, k)
  {
    if k == 0 {
      q := a;
    } else {
      q := Split(a / 2, k - 1);
    }
  }

  /** The shifts and masks of bytes and sextets. */
  lemma ShlIs(q: nat)
    ensures Shl(q, 2) == 4 * q && Shl(q, 4) == 16 * q && Shl(q, 6) == 64 * q && Shl(q, 8) == 256 * q
  {
    assert Shl(q, 1) == 2 * q;
    assert Shl(q, 2) == 4 * q;
    assert Shl(q, 3) == 8 * q;
    assert Shl(q, 4) == 16 * q;
    assert Shl(q, 5) == 32 * q;
    assert Shl(q, 6) == 64 * q;
    assert Shl(q, 7) == 128 * q;
  }

  lemma Powers()
    ensures Shl(1, 2) == 4 && Shl(1, 4) == 16 && Shl(1, 6) == 64 && Shl(1, 8) == 256
  {
    ShlIs(1);
  }

  lemma LowIs2(a: nat)
    ensures Low(a, 2) == a % 4
  {
    hide Shl, Low;
    Powers();
    var q := Split(a, 2);
    ShlIs(q);
  }

  lemma LowIs4(a: nat)
    ensures Low(a, 4) == a % 16
  {
    hide Shl, Low;
    Powers();
    var q := Split(a, 4);
    ShlIs(q);
  }

  lemma LowIs6(a: nat)
    ensures Low(a, 6) == a % 64
  {
    hide Shl, Low;
    Powers();
    var q := Split(a, 6);
    ShlIs(q);
  }

  lemma LowIs8(a: nat)
    ensures Low(a, 8) == a % 256
  {
    hide Shl, Low;
    Powers();
    var q := Split(a, 8);
    ShlIs(q);
  }

  lemma AndWithZero(a: nat)
    ensures And(a, 0) == 0 && And(0, a) == 0
  {
  }

  /** `x & 0x3f` and `x & 0xff`. */
  lemma Masks(a: nat)
    ensures And(a, 0x3F) == And(0x3F, a) == a % 64
    ensures And(a, 0xFF) == And(0xFF, a) == a % 256
    ensures And(a, 3) == a % 4 && And(a, 15) == a % 16 && And(a, 0) == And(0, a) == 0
  {
    hide Shl, Low, And;
    Powers();
    LowIs2(a);
    LowIs4(a);
    LowIs6(a);
    LowIs8(a);
    AndWithZero(a);
    AndKeepsLow(a, 2);
    AndKeepsLow(a, 4);
    AndKeepsLow(a, 6);
    AndKeepsLow(a, 8);
  }

  /** Or of a multiple of a power of two and a smaller number. */
  lemma OrIs(q: nat, b: nat)
    ensures b < 4 ==> Or(4 * q, b) == Or(b, 4 * q) == 4 * q + b
    ensures b < 16 ==> Or(16 * q, b) == Or(b, 16 * q) == 16 * q + b
    ensures b < 64 ==> Or(64 * q, b) == Or(b, 64 * q) == 64 * q + b
    ensures b < 256 ==> Or(256 * q, b) == Or(b, 256 * q) == 256 * q + b
  {
    hide Shl, Or;
    Powers();
    ShlIs(q);
    if b < 4 {
      OrAdds(q, b, 2);
    }
    if b < 16 {
      OrAdds(q, b, 4);
    }
    if b < 64 {
      OrAdds(q, b, 6);
    }
    if b < 256 {
      OrAdds(q, b, 8);
    }
  }
}
