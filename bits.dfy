/** Python's bitwise OR on non-negative integers, and the single-bit facts
    the driver relies on when it sets the measure bit. */
module Bits {

  /** 2^k, which is also `1 << k`. */
  function Pow2(k: nat): (r: nat)
    ensures r >= 1
  {
    if k == 0 then 1 else 2 * Pow2(k - 1)
  }

  lemma {:induction false} Pow2Add(a: nat, b: nat)
    ensures Pow2(a + b) == Pow2(a) * Pow2(b)
    decreases b
  {
    if b > 0 {
      Pow2Add(a, b - 1);
      calc {
        Pow2(a + b);
        2 * Pow2(a + b - 1);
        2 * (Pow2(a) * Pow2(b - 1));
        Pow2(a) * (2 * Pow2(b - 1));
        Pow2(a) * Pow2(b);
      }
    }
  }

  /** Bit i of a, bit 0 being the least significant one. */
  predicate Bit(a: nat, i: nat) {
    if i == 0 then a % 2 == 1 else Bit(a / 2, i - 1)
  }

  /** `a | b` for non-negative Python integers, one bit at a time from the bottom. */
  function Or(a: nat, b: nat): (r: nat)
    ensures a <= r && b <= r
    ensures r <= a + b
    decreases a + b
  {
    if a == 0 then b
    else if b == 0 then a
    else 2 * Or(a / 2, b / 2) + (if a % 2 == 1 || b % 2 == 1 then 1 else 0)
  }

  lemma {:induction false} ZeroHasNoBits(i: nat)
    ensures !Bit(0, i)
  {
    if i > 0 {
      ZeroHasNoBits(i - 1);
    }
  }

  /** Or is bitwise: each bit of the result is set exactly when it is set in either operand. */
  lemma {:induction false} OrBit(a: nat, b: nat, i: nat)
    ensures Bit(Or(a, b), i) <==> Bit(a, i) || Bit(b, i)
    decreases i
  {
    if a == 0 || b == 0 {
      ZeroHasNoBits(i);
    } else if i > 0 {
      var q := Or(a / 2, b / 2);
      var c := if a % 2 == 1 || b % 2 == 1 then 1 else 0;
      assert Or(a, b) == 2 * q + c;
      assert (2 * q + c) / 2 == q;
      assert Bit(Or(a, b), i) == Bit(q, i - 1);
      assert Bit(a, i) == Bit(a / 2, i - 1) && Bit(b, i) == Bit(b / 2, i - 1);
      OrBit(a / 2, b / 2, i - 1);
    }
  }

  /** Or never leaves an n-bit range that both operands lie in. */
  lemma {:induction false} OrBound(a: nat, b: nat, n: nat)
    requires a < Pow2(n) && b < Pow2(n)
    ensures Or(a, b) < Pow2(n)
    decreases n
  {
    if a != 0 && b != 0 {
      OrBound(a / 2, b / 2, n - 1);
    }
  }

  /** `1 << k` has bit k set and no other. */
  lemma {:induction false} BitOfPow2(k: nat, i: nat)
    ensures Bit(Pow2(k), i) <==> i == k
    decreases k
  {
    if k == 0 {
      if i > 0 {
        ZeroHasNoBits(i - 1);
      }
    } else if i > 0 {
      BitOfPow2(k - 1, i - 1);
    }
  }

  /** Setting bit k adds 2^k when the bit was clear and changes nothing when it was set. */
  lemma {:induction false} OrPow2(a: nat, k: nat)
    ensures Or(a, Pow2(k)) == if Bit(a, k) then a else a + Pow2(k)
    decreases k
  {
    if a == 0 {
      ZeroHasNoBits(k);
    } else if k > 0 {
      OrPow2(a / 2, k - 1);
    }
  }

  lemma {:induction false} Pow2Monotone(k: nat, n: nat)
    requires k < n
    ensures Pow2(k) < Pow2(n)
    decreases n
  {
    if k < n - 1 {
      Pow2Monotone(k, n - 1);
    }
  }

  /** Bits other than k are those of a once bit k is set. */
  lemma SetBitKeepsOthers(a: nat, k: nat, i: nat)
    requires i != k
    ensures Bit(Or(a, Pow2(k)), i) <==> Bit(a, i)
  {
    OrBit(a, Pow2(k), i);
    BitOfPow2(k, i);
  }

  /** Everything `a | (1 << k)` promises: bit k is set, every other bit is that of a,
      the value stays within any n-bit range holding a and 2^k, and a second OR changes nothing. */
  lemma SetBit(a: nat, k: nat, n: nat)
    requires a < Pow2(n) && k < n
    ensures Bit(Or(a, Pow2(k)), k)
    ensures forall i: nat :: i != k ==> (Bit(Or(a, Pow2(k)), i) <==> Bit(a, i))
    ensures Or(a, Pow2(k)) < Pow2(n)
    ensures Or(Or(a, Pow2(k)), Pow2(k)) == Or(a, Pow2(k))
  {
    var p := Pow2(k);
    var r := Or(a, p);
    OrBit(a, p, k);
    BitOfPow2(k, k);
    assert Bit(r, k);
    forall i: nat | i != k
      ensures Bit(r, i) <==> Bit(a, i)
    {
      SetBitKeepsOthers(a, k, i);
    }
    Pow2Monotone(k, n);
    OrBound(a, p, n);
    OrPow2(r, k);
  }
}
