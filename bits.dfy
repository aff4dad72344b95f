/** Python's bitwise `&` on non-negative integers, used for the
    `supported_features` bitmasks of entity states. */
module Bits {

  /** `a & b` for non-negative Python integers, bit by bit from the least
      significant end. */
  function And(a: nat, b: nat): (r: nat)
    decreases a
  {
    if a == 0 || b == 0 then 0
    else 2 * And(a / 2, b / 2) + (if a % 2 == 1 && b % 2 == 1 then 1 else 0)
  }

  /** 2 to the power k: the value of a bitmask with only bit k set. */
  function Pow2(k: nat): (r: nat)
    ensures r >= 1
  {
    if k == 0 then 1 else 2 * Pow2(k - 1)
  }

  /** Bit k of `a`, read off its binary expansion. */
  predicate BitSet(a: nat, k: nat) {
    (a / Pow2(k)) % 2 == 1
  }

  /** Testing a single-bit mask with `&` is testing that bit: the reading of
      `supported_features & SUPPORT_X` used by intents and device triggers. */
  lemma {:induction false} AndSingleBit(a: nat, k: nat)
    ensures And(a, Pow2(k)) != 0 <==> BitSet(a, k)
  {
    if k == 0 {
      assert Pow2(0) == 1;
      if a != 0 {
        assert And(a / 2, 0) == 0;
      }
    } else {
      if a == 0 {
        assert BitSet(a, k) == false by {
          assert 0 / Pow2(k) == 0;
        }
      } else {
        calc {
          And(a, Pow2(k));
          2 * And(a / 2, Pow2(k) / 2) + (if a % 2 == 1 && Pow2(k) % 2 == 1 then 1 else 0);
          { assert Pow2(k) == 2 * Pow2(k - 1); }
          2 * And(a / 2, Pow2(k - 1));
        }
        AndSingleBit(a / 2, k - 1);
        DivDiv(a, k);
      }
    }
  }

  /** Shifting right by k is halving and then shifting by k - 1. */
  lemma DivDiv(a: nat, k: nat)
    requires k >= 1
    ensures a / Pow2(k) == (a / 2) / Pow2(k - 1)
  {
    var p := Pow2(k - 1);
    assert Pow2(k) == 2 * p;
    var q := (a / 2) / p;
    var r := 2 * ((a / 2) % p) + a % 2;
    assert a / 2 == p * q + (a / 2) % p;
    assert a == 2 * (a / 2) + a % 2;
    assert a == (2 * p) * q + r;
    DivUnique(a, 2 * p, q, r);
  }

  /** Euclidean division has a unique quotient. */
  lemma DivUnique(a: int, d: int, q: int, r: int)
    requires d > 0 && 0 <= r < d && a == d * q + r
    ensures a / d == q
  {
    var q', r' := a / d, a % d;
    assert a == d * q' + r';
    assert d * (q - q') == r' - r;
    if q - q' >= 1 {
      assert false;
    } else if q - q' <= -1 {
      assert false;
    }
  }

  /** A state with no `supported_features` attribute reads as 0, which
      supports nothing. */
  lemma {:induction false} AndZero(b: nat)
    ensures And(0, b) == 0 && And(b, 0) == 0
  {
  }
}
