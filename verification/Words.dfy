/** 32-bit machine words, kept as signed integers, and the operators the compiler and the
    processor share. Wrap-around is written out: every result goes through `Wrap`. */
module Words {
  const TWO31: int := 0x8000_0000
  const TWO32: int := 0x1_0000_0000

  type word = x: int | -0x8000_0000 <= x < 0x8000_0000

  /** Machine words read without a sign. */
  type u32 = x: nat | x < 0x1_0000_0000

  predicate IsDigit(c: char) {
    '0' <= c <= '9'
  }

  datatype Option<+T> = None | Some(value: T)

  /** The word congruent to `x` modulo 2^32. */
  function Wrap(x: int): (w: word)
    ensures (x - w) % TWO32 == 0
    ensures -TWO31 <= x < TWO31 ==> w == x
  {
    var m := x % TWO32;
    if m < TWO31 then m else m - TWO32
  }

  /** The unsigned reading of a word. */
  function Unsigned(w: word): (n: nat)
    ensures n < TWO32 && Wrap(n) == w
  {
    if w < 0 then w + TWO32 else w
  }

  /** Wrapping forgets multiples of 2^32. */
  lemma WrapShift(x: int, m: int)
    ensures Wrap(x + m * TWO32) == Wrap(x)
  {
  }

  /** Wrapping a part first makes no difference. */
  lemma WrapTwice(x: int, y: int)
    ensures Wrap(x + Wrap(y)) == Wrap(x + y) && Wrap(x - Wrap(y)) == Wrap(x - y)
  {
    var m := (y - Wrap(y)) / TWO32;
    assert y == Wrap(y) + m * TWO32;
    assert x + y == (x + Wrap(y)) + m * TWO32;
    assert x - y == (x - Wrap(y)) + (-m) * TWO32;
    WrapShift(x + Wrap(y), m);
    WrapShift(x - Wrap(y), -m);
  }

  function Pow2(n: nat): (p: nat)
    ensures p >= 1
  {
    if n == 0 then 1 else 2 * Pow2(n - 1)
  }

  lemma {:induction false} Pow2Adds(m: nat, n: nat)
    ensures Pow2(m + n) == Pow2(m) * Pow2(n)
  {
    if m > 0 {
      Pow2Adds(m - 1, n);
      assert Pow2(m + n) == 2 * Pow2((m - 1) + n);
    }
  }

  lemma {:induction false} Pow2Grows(m: nat, n: nat)
    requires m <= n
    ensures Pow2(m) <= Pow2(n)
  {
    if m < n {
      Pow2Grows(m, n - 1);
    }
  }

  // ------------------------------------------------------------------ bitwise operators

  datatype BitOp = And | Or | Xor

  function OneBit(op: BitOp, x: nat, y: nat): (b: nat)
    ensures b < 2
  {
    match op
    case And => if x % 2 == 1 && y % 2 == 1 then 1 else 0
    case Or => if x % 2 == 1 || y % 2 == 1 then 1 else 0
    case Xor => if x % 2 != y % 2 then 1 else 0
  }

  /** The operator applied bit by bit to two naturals, least significant bit first. */
  function Bits(op: BitOp, x: nat, y: nat): nat
  {
    if x == 0 && y == 0 then 0 else OneBit(op, x, y) + 2 * Bits(op, x / 2, y / 2)
  }

  lemma {:induction false} BitsBounded(op: BitOp, x: nat, y: nat, n: nat)
    requires x < Pow2(n) && y < Pow2(n)
    ensures Bits(op, x, y) < Pow2(n)
  {
    if x == 0 && y == 0 {
    } else {
      BitsBounded(op, x / 2, y / 2, n - 1);
    }
  }

  /** A bitwise or is zero exactly when both operands are. */
  lemma {:induction false} OrIsZero(x: nat, y: nat)
    ensures Bits(Or, x, y) == 0 <==> x == 0 && y == 0
  {
    if x == 0 && y == 0 {
    } else {
      OrIsZero(x / 2, y / 2);
    }
  }

  /** Or-ing a value below 2^n into a multiple of 2^n adds it. */
  lemma {:induction false} OrOfDisjoint(hi: nat, lo: nat, n: nat)
    requires lo < Pow2(n)
    ensures Bits(Or, hi * Pow2(n), lo) == hi * Pow2(n) + lo
  {
    if n == 0 {
      OrWithZero(hi);
    } else {
      var x := hi * Pow2(n);
      assert x == 2 * (hi * Pow2(n - 1));
      OrOfDisjoint(hi, lo / 2, n - 1);
    }
  }

  lemma {:induction false} OrWithZero(x: nat)
    ensures Bits(Or, x, 0) == x
  {
    if x > 0 {
      OrWithZero(x / 2);
    }
  }

  function BitsW(op: BitOp, a: word, b: word): word {
    Wrap(Bits(op, Unsigned(a), Unsigned(b)))
  }

  lemma WordPower()
    ensures Pow2(32) == TWO32
  {
    Pow2Adds(16, 16);
    Pow2Adds(8, 8);
  }

  lemma OrWIsZero(a: word, b: word)
    ensures BitsW(Or, a, b) == 0 <==> a == 0 && b == 0
  {
    OrIsZero(Unsigned(a), Unsigned(b));
    WordPower();
    BitsBounded(Or, Unsigned(a), Unsigned(b), 32);
  }

  // ------------------------------------------------------------------ signed division

  function Abs(x: int): (a: nat)
    ensures a == x || a == -x
  {
    if x < 0 then -x else x
  }

  /** Quotient truncated toward zero (section 6.5.5 of ISO C99); 0 when the divisor is 0. */
  function TruncDiv(n: int, d: int): (q: int)
    ensures d == 0 ==> q == 0
  {
    if d == 0 then 0
    else if (n < 0) == (d < 0) then Abs(n) / Abs(d)
    else -(Abs(n) / Abs(d))
  }

  function TruncRem(n: int, d: int): int {
    n - TruncDiv(n, d) * d
  }
}
