/**
 * Bitwise operators on unbounded naturals (what BigInt computes on non-negative
 * operands, and Go's int on small ones), and the JavaScript Number operators, which
 * go through signed 32-bit words. Each operator is defined bit by bit; the lemmas turn
 * the uses the repository makes of them into ordinary arithmetic.
 */
module Bits {
  function Pow2(k: nat): (r: nat)
    ensures r > 0
  {
    if k == 0 then 1 else 2 * Pow2(k - 1)
  }

  function And(a: nat, b: nat): (r: nat)
    ensures r <= a && r <= b
  {
    if a == 0 || b == 0 then 0
    else 2 * And(a / 2, b / 2) + (if a % 2 == 1 && b % 2 == 1 then 1 else 0)
  }

  function Or(a: nat, b: nat): nat
    decreases a + b
  {
    if a == 0 then b
    else if b == 0 then a
    else 2 * Or(a / 2, b / 2) + (if a % 2 == 1 || b % 2 == 1 then 1 else 0)
  }

  function ShiftLeft(a: nat, k: nat): (r: nat)
    ensures r >= a
  {
    if k == 0 then a else 2 * ShiftLeft(a, k - 1)
  }

  function ShiftRight(a: nat, k: nat): nat {
    if k == 0 then a else ShiftRight(a / 2, k - 1)
  }

  /** Shifting left by k moves consecutive numbers 2^k apart. */
  lemma {:induction false} ShiftLeftSteps(a: nat, k: nat)
    ensures ShiftLeft(a + 1, k) == ShiftLeft(a, k) + Pow2(k)
  {
    if k > 0 {
      ShiftLeftSteps(a, k - 1);
    }
  }

  lemma {:induction false} ShiftLeftGrows(a: nat, b: nat, k: nat)
    requires a < b
    ensures ShiftLeft(a, k) + Pow2(k) <= ShiftLeft(b, k)
  {
    if k > 0 {
      ShiftLeftGrows(a, b, k - 1);
    }
  }

  lemma {:induction false} ShiftLeftAdds(a: nat, b: nat, k: nat)
    ensures ShiftLeft(a + b, k) == ShiftLeft(a, k) + ShiftLeft(b, k)
  {
    if k > 0 {
      ShiftLeftAdds(a, b, k - 1);
    }
  }

  lemma {:induction false} ShiftOfShift(a: nat, j: nat, k: nat)
    ensures ShiftLeft(ShiftLeft(a, j), k) == ShiftLeft(a, j + k)
  {
    if k > 0 {
      ShiftOfShift(a, j, k - 1);
    }
  }

  // ---- shifts by constants ----

  lemma ShiftByEight(a: nat)
    ensures ShiftLeft(a, 8) == 0x100 * a
  {
    Quadruples(a);
    ShiftOfShift(a, 2, 2);
    Quadruples(4 * a);
    ShiftOfShift(a, 4, 2);
    Quadruples(16 * a);
    ShiftOfShift(a, 6, 2);
    Quadruples(64 * a);
  }

  lemma Quadruples(a: nat)
    ensures ShiftLeft(a, 2) == 4 * a
  {
    assert ShiftLeft(a, 1) == 2 * a;
  }

  lemma ShiftBySixteen(a: nat)
    ensures ShiftLeft(a, 16) == 0x1_0000 * a
  {
    ShiftByEight(a);
    ShiftByEight(0x100 * a);
    ShiftOfShift(a, 8, 8);
  }

  lemma {:induction false} Pow2IsShift(k: nat)
    ensures Pow2(k) == ShiftLeft(1, k)
  {
    if k > 0 {
      Pow2IsShift(k - 1);
    }
  }

  /** Shifting right then left by k rounds down to a multiple of 2^k. */
  lemma {:induction false} ShiftRightRoundsDown(x: nat, k: nat)
    ensures ShiftLeft(ShiftRight(x, k), k) <= x < ShiftLeft(ShiftRight(x, k), k) + Pow2(k)
    decreases k
  {
    if k > 0 {
      ShiftRightRoundsDown(x / 2, k - 1);
    }
  }

  lemma {:induction false} ShiftRightOfShift(x: nat, j: nat, k: nat)
    ensures ShiftRight(ShiftRight(x, j), k) == ShiftRight(x, j + k)
    decreases j
  {
    if j > 0 {
      ShiftRightOfShift(x / 2, j - 1, k);
    }
  }

  /** The quotient and remainder by 2^k are determined by the number they rebuild. */
  lemma ShiftRightIs(x: nat, q: nat, r: nat, k: nat)
    requires x == ShiftLeft(q, k) + r && r < Pow2(k)
    ensures ShiftRight(x, k) == q
  {
    ShiftRightRoundsDown(x, k);
    if q < ShiftRight(x, k) {
      ShiftLeftGrows(q, ShiftRight(x, k), k);
    } else if ShiftRight(x, k) < q {
      ShiftLeftGrows(ShiftRight(x, k), q, k);
    }
  }

  /** Or-ing low bits into a number whose low bits are clear adds them. */
  lemma {:induction false} OrIsSum(q: nat, b: nat, k: nat)
    requires b < Pow2(k)
    ensures Or(ShiftLeft(q, k), b) == ShiftLeft(q, k) + b
    decreases k
  {
    if k > 0 {
      OrIsSum(q, b / 2, k - 1);
    }
  }

  /** A mask of k ones keeps what lies above the last multiple of 2^k. */
  lemma {:induction false} AndLowMask(x: nat, k: nat)
    ensures And(x, Pow2(k) - 1) == x - ShiftLeft(ShiftRight(x, k), k)
    decreases k
  {
    if k == 0 {
    } else if x == 0 {
      AndLowMask(0, k - 1);
    } else {
      AndLowMask(x / 2, k - 1);
      if k > 1 {
        assert (Pow2(k) - 1) / 2 == Pow2(k - 1) - 1;
      }
    }
  }

  /** Trailing zero bits of the mask clear the operand's low bits. */
  lemma {:induction false} AndShifted(x: nat, m: nat, k: nat)
    ensures And(x, ShiftLeft(m, k)) == ShiftLeft(And(ShiftRight(x, k), m), k)
    decreases k
  {
    if k > 0 {
      AndShifted(x / 2, m, k - 1);
      var low := ShiftLeft(m, k - 1);
      assert ShiftLeft(m, k) / 2 == low && ShiftLeft(m, k) % 2 == 0;
      assert And(x, 2 * low) == 2 * And(x / 2, low);
    }
  }

  /** `high` ones above `low` zeros: And with it rounds a (high+low)-bit number down. */
  lemma AndHighMask(x: nat, high: nat, low: nat)
    requires x < Pow2(high + low)
    ensures And(x, ShiftLeft(Pow2(high) - 1, low)) == ShiftLeft(ShiftRight(x, low), low)
  {
    var q := ShiftRight(x, low);
    AndShifted(x, Pow2(high) - 1, low);
    ShiftRightRoundsDown(x, low);
    assert q < Pow2(high) by {
      Pow2IsShift(high);
      ShiftOfShift(1, high, low);
      Pow2IsShift(high + low);
      if q > Pow2(high) {
        ShiftLeftGrows(Pow2(high), q, low);
      }
    }
    AndLowMask(q, high);
    ShiftRightIs(q, 0, q, high) by { ShiftZero(high); }
    ShiftZero(high);
  }

  lemma {:induction false} ShiftZero(k: nat)
    ensures ShiftLeft(0, k) == 0
  {
    if k > 0 {
      ShiftZero(k - 1);
    }
  }

  /** Rounding down to a multiple of 2^k gives n * 2^k exactly on one aligned block. */
  lemma RoundsDownToExactlyItsBlock(x: nat, n: nat, k: nat)
    ensures ShiftLeft(ShiftRight(x, k), k) == ShiftLeft(n, k)
       <==> ShiftLeft(n, k) <= x < ShiftLeft(n, k) + Pow2(k)
  {
    ShiftRightRoundsDown(x, k);
    if ShiftLeft(n, k) <= x < ShiftLeft(n, k) + Pow2(k) {
      ShiftRightIs(x, n, x - ShiftLeft(n, k), k);
    }
  }

  // ---- JavaScript Number operators ----

  function ToUint32(x: int): (u: nat)
    ensures u < 0x1_0000_0000
  {
    x % 0x1_0000_0000
  }

  function ToInt32(x: int): (i: int)
    ensures -0x8000_0000 <= i < 0x8000_0000
  {
    var u := x % 0x1_0000_0000;
    if u < 0x8000_0000 then u else u - 0x1_0000_0000
  }

  function ShiftCount(b: nat): nat {
    if b < 32 then b else b % 32
  }

  /** `a << b`: the count is taken modulo 32, the result is a signed word. */
  function NumberShiftLeft(a: int, b: nat): int {
    ToInt32(ShiftLeft(ToUint32(a), ShiftCount(b)))
  }

  /** `a >>> b` */
  function NumberShiftRight(a: int, b: nat): nat {
    ShiftRight(ToUint32(a), ShiftCount(b))
  }

  /** `a | b` */
  function NumberOr(a: int, b: int): int {
    ToInt32(Or(ToUint32(a), ToUint32(b)))
  }

  /** `a & b` */
  function NumberAnd(a: int, b: int): (r: int)
    ensures 0 <= b < 0x8000_0000 ==> 0 <= r <= b
  {
    ToInt32(And(ToUint32(a), ToUint32(b)))
  }

  /** A signed result read back as an unsigned word is the result modulo 2^32. */
  lemma UnsignedOfSigned(x: int)
    ensures ToUint32(ToInt32(x)) == ToUint32(x)
  {
    var u := x % 0x1_0000_0000;
    assert u >= 0x8000_0000 ==> (u - 0x1_0000_0000) % 0x1_0000_0000 == u;
  }

  lemma {:induction false} ShiftedWordOfOnes(k: nat)
    ensures ShiftLeft(0xffff_ffff, k) == 0x1_0000_0000 * Pow2(k) - Pow2(k)
  {
    if k > 0 {
      ShiftedWordOfOnes(k - 1);
    }
  }

  lemma WordsLessOne(p: nat)
    requires 1 <= p < 0x1_0000_0000
    ensures ToUint32(0x1_0000_0000 * p - p) == 0x1_0000_0000 - p
  {
    assert 0x1_0000_0000 * p - p == 0x1_0000_0000 * (p - 1) + (0x1_0000_0000 - p);
  }

  /** 2^(high + low) less 2^low is `high` ones above `low` zeros. */
  lemma OnesAboveZeros(high: nat, low: nat)
    ensures ShiftLeft(Pow2(high) - 1, low) + Pow2(low) == Pow2(high + low)
  {
    ShiftLeftSteps(Pow2(high) - 1, low);
    Pow2IsShift(high);
    ShiftOfShift(1, high, low);
    Pow2IsShift(high + low);
  }

  lemma {:induction false} Pow2Grows(j: nat, k: nat)
    requires j < k
    ensures Pow2(j) < Pow2(k)
  {
    if j + 1 < k {
      Pow2Grows(j, k - 1);
    }
  }

  lemma WordIsPow2()
    ensures Pow2(16) == 0x1_0000 && Pow2(32) == 0x1_0000_0000
  {
    assert Pow2(8) == 0x100;
    assert Pow2(16) == 0x1_0000;
    assert Pow2(24) == 0x100_0000;
  }

  /** The 32-bit mask `0xffffffff << (32 - prefix)`, sign and wrap-around included. */
  lemma NumberMask(prefix: nat)
    requires 1 <= prefix <= 32
    ensures ToUint32(NumberShiftLeft(0xffff_ffff, 32 - prefix)) == ShiftLeft(Pow2(prefix) - 1, 32 - prefix)
  {
    ShiftLeftAsUnsigned(0xffff_ffff, 32 - prefix);
    ShiftedOnesWrap(32 - prefix);
    OnesAboveZeros(prefix, 32 - prefix);
    WordIsPow2();
  }

  lemma SmallWord(a: nat)
    requires a < 0x1_0000_0000
    ensures ToUint32(a) == a
  {
  }

  lemma ShiftLeftAsUnsigned(a: nat, k: nat)
    requires a < 0x1_0000_0000 && k < 32
    ensures ToUint32(NumberShiftLeft(a, k)) == ToUint32(ShiftLeft(a, k))
  {
    SmallWord(a);
    var s := ShiftLeft(a, k);
    assert NumberShiftLeft(a, k) == ToInt32(s);
    UnsignedOfSigned(s);
  }

  lemma ShiftedOnesWrap(k: nat)
    requires k < 32
    ensures ToUint32(ShiftLeft(0xffff_ffff, k)) == 0x1_0000_0000 - Pow2(k)
  {
    var p := Pow2(k);
    assert p < 0x1_0000_0000 by {
      Pow2Grows(k, 32);
      WordIsPow2();
    }
    WordsLessOne(p);
    var s := ShiftLeft(0xffff_ffff, k);
    assert s == 0x1_0000_0000 * p - p by { ShiftedWordOfOnes(k); }
  }
}
