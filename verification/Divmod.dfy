/** The software division the generated code calls: align the divisor, then shift and subtract. */
module Divmod {
  import opened Words

  /** How often a divisor has to be doubled to exceed `a`. */
  function Doublings(b: nat, a: nat): (k: nat)
    requires b > 0
    ensures b * Pow2(k) > a
    ensures k > 0 ==> b * Pow2(k) <= 2 * a
    decreases a - b
  {
    if b > a then 0
    else
      var k := Doublings(2 * b, a);
      assert 2 * b * Pow2(k) == b * Pow2(k + 1);
      1 + k
  }

  /** The aligned divisor: the first double of `b` that exceeds `a`. */
  function Aligned(b: nat, a: nat): nat
    requires b > 0
  {
    b * Pow2(Doublings(b, a))
  }

  /** The operands the routine divides correctly: the aligned divisor stays below 2^31, so that
      the signed comparison of the second loop orders it as the unsigned value it is. */
  predicate Divides(n: word, d: word) {
    d == 0 || Aligned(Abs(d), Abs(n)) < TWO31
  }

  /** The operands for which the routine comes to an end: the align loop does not, when the numerator
      is -2^31 and a double of the divisor's magnitude is 2^31. */
  predicate Returns(n: word, d: word) {
    !(d != 0 && n == -TWO31 && Aligned(Abs(d), TWO31) == TWO32)
  }

  /** A small numerator is enough, and so is a divisor of 0. */
  lemma SmallReturns(n: word, d: word)
    requires n != -TWO31 || d == 0
    ensures Returns(n, d)
  {
  }

  /** A sufficient condition on the operands alone. */
  lemma SmallDivides(n: word, d: word)
    requires Abs(n) < 0x4000_0000 && d != -TWO31
    ensures Divides(n, d)
  {
  }

  /** Truncated division (section 6.5.5 of ISO C99): n = q * d + r, the remainder smaller than the
      divisor and never of the sign opposite to n's. */
  lemma DivisionLaw(n: int, d: int)
    requires d != 0
    ensures n == TruncDiv(n, d) * d + TruncRem(n, d)
    ensures Abs(TruncRem(n, d)) < Abs(d)
    ensures (n >= 0 ==> TruncRem(n, d) >= 0) && (n <= 0 ==> TruncRem(n, d) <= 0)
  {
    var (a, b) := (Abs(n), Abs(d));
    var q := a / b;
    assert a == q * b + a % b;
    if (n < 0) == (d < 0) {
      assert q * d == (if d < 0 then -(q * b) else q * b) by {
        SignOut(q, d);
      }
    } else {
      assert (-q) * d == (if d < 0 then q * b else -(q * b)) by {
        SignOut(-q, d);
        assert (-q) * b == -(q * b);
      }
    }
  }

  lemma SignOut(x: int, d: int)
    ensures x * d == if d < 0 then -(x * Abs(d)) else x * Abs(d)
  {
  }

  function Lsl1(w: word): word {
    Wrap(2 * Unsigned(w))
  }

  function Lsr1(w: word): word {
    Wrap(Unsigned(w) / 2)
  }

  lemma LslValue(w: word)
    requires Unsigned(w) <= TWO31
    ensures if Unsigned(w) == TWO31 then Lsl1(w) == 0 else Unsigned(Lsl1(w)) == 2 * Unsigned(w)
  {
  }

  lemma LsrValue(w: word)
    ensures Unsigned(Lsr1(w)) == Unsigned(w) / 2 && Lsr1(w) >= 0
  {
  }

  /** `b` shifted left by `j` places. */
  function Shifted(b: nat, j: nat): nat {
    b * Pow2(j)
  }

  lemma ShiftedOnce(b: nat, j: nat)
    ensures Shifted(b, j + 1) == 2 * Shifted(b, j) && Shifted(b, 0) == b
    ensures b > 0 ==> Shifted(b, j) >= Pow2(j)
  {
  }

  lemma DoublingsStep(b: nat, i: nat, a: nat)
    requires b > 0
    ensures var s := Shifted(b, i);
            s > 0 && Doublings(s, a) == if s > a then 0 else 1 + Doublings(Shifted(b, i + 1), a)
  {
    ShiftedOnce(b, i);
  }

  /** The align loop: r1 and r3 are doubled while r1 <= r0, unsigned. When r1 has been shifted out
      to zero the loop never ends (`ends` is false): zero stays zero and stays below r0. */
  method Align(r0: word, divisor: word) returns (r1: word, r3: word, ends: bool)
    requires divisor != 0 && Unsigned(divisor) <= TWO31 && Unsigned(r0) <= TWO31
    ensures var (a, b) := (Unsigned(r0), Unsigned(divisor));
            var k := Doublings(b, a);
            && (ends <==> Shifted(b, k) < TWO32)
            && (ends ==> Unsigned(r1) == Shifted(b, k) && Unsigned(r3) == Pow2(k) && k < 32)
            && (!ends ==> r1 == Lsl1(r1) == 0 && a == TWO31 && Shifted(b, k) == TWO32)
  {
    r1, r3, ends := divisor, 1, true;
    ghost var i: nat := 0;
    ghost var (a, b) := (Unsigned(r0), Unsigned(divisor));
    ghost var k := Doublings(b, a);
    hide Shifted, Doublings, Pow2, Wrap, Lsl1;
    ShiftedOnce(b, 0);
    DoublingsStep(b, 0, a);
    PowersOfTwo();
    while Unsigned(r1) <= Unsigned(r0)
      invariant Unsigned(r1) == Shifted(b, i) > 0 && Unsigned(r3) == Pow2(i)
      invariant k == i + Doublings(Shifted(b, i), a)
      decreases TWO32 - Unsigned(r1)
    {
      ShiftedOnce(b, i);
      DoublingsStep(b, i, a);
      DoublingsStep(b, i + 1, a);
      PowerStep(i);
      LslValue(r1);
      LslValue(r3);
      r1 := Lsl1(r1);
      r3 := Lsl1(r3);
      i := i + 1;
      if r1 == 0 {
        LslValue(0);
        ends := false;
        return;
      }
    }
    ShiftedOnce(b, i);
    DoublingsStep(b, i, a);
    SmallPower(k);
    LslValue(0);
  }

  lemma PowersOfTwo()
    ensures Pow2(0) == 1 && Pow2(31) == TWO31 && Pow2(32) == TWO32
  {
    Pow2Adds(16, 16);
    Pow2Adds(8, 8);
    Pow2Adds(15, 16);
    Pow2Adds(7, 8);
  }

  lemma PowerStep(j: nat)
    ensures Pow2(j + 1) == 2 * Pow2(j)
  {
  }

  lemma SmallPower(k: nat)
    requires Pow2(k) < TWO32
    ensures k < 32
  {
    hide Pow2;
    PowersOfTwo();
    if k >= 32 {
      Pow2Grows(32, k);
    }
  }

  /** The second loop: compare (signed), subtract, shift right, until the bit position is shifted
      out. With an aligned divisor below 2^31 it divides; with one of 2^31 or more the quotient
      gets the bit of the aligned divisor, or stays 0 when r0 is itself -2^31. */
  method ShiftSubtract(n: word, aligned: word, bit: word, ghost b: nat, ghost k: nat) returns (r2: word)
    requires b > 0 && k < 32 && Unsigned(aligned) == Shifted(b, k) && Unsigned(bit) == Pow2(k)
    ensures 0 <= n < Unsigned(aligned) < TWO31 ==> Unsigned(r2) == n / b
    ensures n >= 0 && Unsigned(aligned) >= TWO31 ==> Pow2(k) <= Unsigned(r2)
    ensures n == -TWO31 && Unsigned(aligned) > TWO31 ==> r2 == 0
  {
    var r0, r1, r3 := n, aligned, bit;
    r2 := 0;
    ghost var j: nat := k;
    LoopStarts(n, aligned, bit, b, k);
    hide AtBit, Good, High, Wrap, Lsr1, Shifted, Pow2;
    while r3 != 0
      invariant AtBit(b, k, j, r1, r3)
      invariant 0 <= n < Unsigned(aligned) < TWO31 ==> Good(n, b, r0, r1, r2, r3)
      invariant n >= 0 && Unsigned(aligned) >= TWO31 ==> High(n, k, j, r0, r2, r3)
      invariant n == -TWO31 && Unsigned(aligned) > TWO31 ==> r0 == n && r2 == 0
      decreases Unsigned(r3)
    {
      StepAtBit(b, k, j, r1, r3);
      if 0 <= n < Unsigned(aligned) < TWO31 {
        StepGood(n, b, k, j, r0, r1, r2, r3);
      }
      if n >= 0 && Unsigned(aligned) >= TWO31 {
        StepHigh(n, b, k, j, r0, r1, r2, r3);
      }
      if n == -TWO31 && Unsigned(aligned) > TWO31 {
        StepLow(b, k, j, aligned, r1, r3);
      }
      if r0 >= r1 {
        r0 := Wrap(r0 as int - r1 as int);
        r2 := Wrap(r2 as int + r3 as int);
      }
      r1 := Lsr1(r1);
      r3 := Lsr1(r3);
      j := if j > 0 then j - 1 else 0;
    }
    LoopEnds(n, aligned, b, k, j, r0, r1, r2);
  }

  /** r3 is the bit of weight 2^j and r1 the divisor shifted by j, until the bit is gone. */
  ghost predicate AtBit(b: nat, k: nat, j: nat, r1: word, r3: word) {
    && k < 32 && b > 0
    && (r3 != 0 ==> j <= k && Unsigned(r3) == Pow2(j) && Unsigned(r1) == Shifted(b, j))
    && (r3 != 0 && j < k ==> 0 <= r1)
  }

  /** The division is on its way: what is left is less than twice the divisor in place. */
  ghost predicate Good(n: word, b: nat, r0: word, r1: word, r2: word, r3: word) {
    && 0 <= r1 && 0 <= r0 && n == Times(Unsigned(r2), b) + r0
    && r0 < if r3 != 0 then 2 * r1 as int else b
  }

  /** The top bit has been set wrongly, and no carry can clear it. */
  ghost predicate High(n: word, k: nat, j: nat, r0: word, r2: word, r3: word) {
    && Unsigned(r2) + (if r3 != 0 then 2 * Pow2(j) else 1) <= 2 * Pow2(k)
    && (if r3 != 0 && j == k then r0 == n && r2 == 0 else Unsigned(r2) >= Pow2(k))
  }

  lemma LoopStarts(n: word, aligned: word, bit: word, b: nat, k: nat)
    requires b > 0 && k < 32 && Unsigned(aligned) == Shifted(b, k) && Unsigned(bit) == Pow2(k)
    ensures AtBit(b, k, k, aligned, bit) && bit != 0
    ensures 0 <= n < Unsigned(aligned) < TWO31 ==> Good(n, b, n, aligned, 0, bit)
    ensures High(n, k, k, n, 0, bit)
  {
  }

  lemma StepAtBit(b: nat, k: nat, j: nat, r1: word, r3: word)
    requires AtBit(b, k, j, r1, r3) && r3 != 0
    ensures AtBit(b, k, if j > 0 then j - 1 else 0, Lsr1(r1), Lsr1(r3))
    ensures Unsigned(Lsr1(r3)) < Unsigned(r3) && (Lsr1(r3) == 0 <==> j == 0)
  {
    LsrValue(r1);
    LsrValue(r3);
    if j > 0 {
      ShiftedOnce(b, j - 1);
      PowerStep(j - 1);
    }
  }

  lemma StepGood(n: word, b: nat, k: nat, j: nat, r0: word, r1: word, r2: word, r3: word)
    requires AtBit(b, k, j, r1, r3) && r3 != 0 && Good(n, b, r0, r1, r2, r3)
    ensures if r0 >= r1 then Good(n, b, Wrap(r0 as int - r1 as int), Lsr1(r1), Wrap(r2 as int + r3 as int), Lsr1(r3))
            else Good(n, b, r0, Lsr1(r1), r2, Lsr1(r3))
  {
    hide Lsr1, Wrap, Shifted, Pow2, Times;
    LsrValue(r1);
    LsrValue(r3);
    HalfInPlace(b, j);
    StepAtBit(b, k, j, r1, r3);
    if r0 >= r1 {
      TimesAdds(Unsigned(r2), b, j);
      TimesBound(Unsigned(r2) + Pow2(j), b);
      UnsignedSum(r2, r3);
    }
  }

  lemma HalfInPlace(b: nat, j: nat)
    ensures Shifted(b, j) == if j > 0 then 2 * Shifted(b, j - 1) else b
  {
    if j > 0 {
      ShiftedOnce(b, j - 1);
    }
  }

  lemma StepHigh(n: word, b: nat, k: nat, j: nat, r0: word, r1: word, r2: word, r3: word)
    requires AtBit(b, k, j, r1, r3) && r3 != 0 && n >= 0 && High(n, k, j, r0, r2, r3)
    requires j == k ==> r1 < 0
    ensures var j' := if j > 0 then j - 1 else 0;
            if r0 >= r1 then High(n, k, j', Wrap(r0 as int - r1 as int), Wrap(r2 as int + r3 as int), Lsr1(r3))
            else High(n, k, j', r0, r2, Lsr1(r3))
  {
    LsrValue(r3);
    PowersOfTwo();
    Pow2Grows(k, 31);
    if j > 0 {
      PowerStep(j - 1);
    }
    UnsignedSum(r2, r3);
  }

  lemma StepLow(b: nat, k: nat, j: nat, aligned: word, r1: word, r3: word)
    requires AtBit(b, k, j, r1, r3) && r3 != 0 && Unsigned(aligned) == Shifted(b, k) > TWO31
    ensures r1 > -TWO31
  {
  }

  lemma UnsignedSum(x: word, y: word)
    requires Unsigned(x) + Unsigned(y) < TWO32
    ensures Unsigned(Wrap(x as int + y as int)) == Unsigned(x) + Unsigned(y)
  {
  }

  lemma LoopEnds(n: word, aligned: word, b: nat, k: nat, j: nat, r0: word, r1: word, r2: word)
    requires AtBit(b, k, j, r1, 0)
    ensures Good(n, b, r0, r1, r2, 0) ==> Unsigned(r2) == n / b
    ensures High(n, k, j, r0, r2, 0) ==> Pow2(k) <= Unsigned(r2)
  {
    if Good(n, b, r0, r1, r2, 0) {
      QuotientUnique(n, b, Unsigned(r2), r0);
    }
  }

  function Times(x: nat, y: nat): nat {
    x * y
  }

  lemma TimesAdds(x: nat, b: nat, j: nat)
    ensures Times(x + Pow2(j), b) == Times(x, b) + Shifted(b, j)
  {
  }

  lemma TimesBound(x: nat, b: nat)
    requires b > 0
    ensures x <= Times(x, b)
  {
  }

  lemma QuotientUnique(n: int, b: nat, q: nat, r: nat)
    requires b > 0 && n == Times(q, b) + r && r < b
    ensures q == n / b
  {
    var d := n / b - q;
    assert d * b == (n / b) * b - Times(q, b);
    assert d > 0 ==> d * b >= b;
    assert d < 0 ==> d * b <= 0 - b as int;
  }

  lemma DivideBelow(a: nat, b: nat, p: nat)
    requires b > 0 && a < b * p
    ensures a / b < p
  {
    var d := a / b - p;
    assert d >= 0 ==> d * b >= 0;
    assert d * b == (a / b) * b - p * b;
  }

  /** The quotient, or None when the routine never returns. It is the truncated quotient exactly
      for the operands it divides. */
  method Idiv(numerator: word, denominator: word) returns (q: Option<word>)
    ensures q == Some(Wrap(TruncDiv(numerator, denominator))) <==> Divides(numerator, denominator)
    ensures q.Some? <==> Returns(numerator, denominator)
  {
    var r0, r1 := numerator, denominator;
    if r1 == 0 {
      return Some(0);
    }
    var sign := BitsW(Xor, r0, r1);
    if r0 < 0 {
      r0 := Wrap(0 - r0 as int);
    }
    if r1 < 0 {
      r1 := Wrap(0 - r1 as int);
    }
    ghost var (a, b) := (Abs(numerator), Abs(denominator));
    ghost var k := Doublings(b, a);
    hide Shifted, Pow2, BitsW, TruncDiv, Doublings, Aligned, Divides, Returns;
    AlignedDecides(numerator, denominator);
    var aligned, bit, ends := Align(r0, r1);
    if !ends {
      return None;
    }
    var r2 := ShiftSubtract(r0, aligned, bit, b, k);
    XorSign(numerator, denominator);
    QuotientDecided(numerator, denominator, k, Unsigned(r2), r2);
    q := Some(if sign < 0 then Wrap(0 - r2 as int) else r2);
  }

  /** The aligned divisor decides whether the routine ends and whether it divides. */
  lemma AlignedDecides(n: word, d: word)
    ensures Divides(n, 0) && Returns(n, 0)
    ensures d != 0 ==>
              var s := Shifted(Abs(d), Doublings(Abs(d), Abs(n)));
              Abs(n) < s && (Divides(n, d) <==> s < TWO31) && (Returns(n, d) <==> s < TWO32)
  {
  }

  /** What the loops leave decides whether the signed result is the truncated quotient. */
  lemma QuotientDecided(n: word, d: word, k: nat, u: nat, r2: word)
    requires d != 0 && k == Doublings(Abs(d), Abs(n)) && k < 32 && u == Unsigned(r2)
    requires Divides(n, d) ==> u == Abs(n) / Abs(d)
    requires !Divides(n, d) ==> if Abs(n) < TWO31 then Pow2(k) <= u else u == 0
    ensures (if (n < 0) != (d < 0) then Wrap(0 - r2 as int) else r2) == Wrap(TruncDiv(n, d)) <==> Divides(n, d)
  {
    var (a, b) := (Abs(n), Abs(d));
    PowersOfTwo();
    Pow2Grows(k, 31);
    DivideBelow(a, b, Pow2(k));
    if !Divides(n, d) {
      WrongQuotient(a, b, k, u);
    }
    var q: int := a / b;
    assert TruncDiv(n, d) == if (n < 0) != (d < 0) then 0 - q else q;
    hide TruncDiv, Divides, Wrap, Pow2, Abs;
    NegationInjective(u, q);
    NegationOfWord(r2);
  }

  lemma NegationOfWord(w: word)
    ensures Wrap(0 - w as int) == Wrap(0 - Unsigned(w))
  {
  }

  /** Operands the routine does not divide leave it with another quotient. */
  lemma WrongQuotient(a: nat, b: nat, k: nat, u: nat)
    requires 0 < b <= TWO31 && a <= TWO31 && a / b < Pow2(k)
    requires if a < TWO31 then Pow2(k) <= u else u == 0
    ensures u != a / b
  {
    assert a == (a / b) * b + a % b;
  }

  lemma NegationInjective(u: nat, v: nat)
    requires u < TWO32 && v < TWO32
    ensures Wrap(u) == Wrap(v) <==> u == v
    ensures Wrap(0 - u) == Wrap(0 - v) <==> u == v
  {
  }

  /** The exclusive or of two words is negative exactly when their signs differ. */
  lemma XorSign(x: word, y: word)
    ensures BitsW(Xor, x, y) < 0 <==> (x < 0) != (y < 0)
  {
    PowersOfTwo();
    TopBit(Unsigned(x), Unsigned(y), 31);
  }

  lemma {:induction false} TopBit(x: nat, y: nat, n: nat)
    requires x < 2 * Pow2(n) && y < 2 * Pow2(n)
    ensures Bits(Xor, x, y) < 2 * Pow2(n)
    ensures Bits(Xor, x, y) >= Pow2(n) <==> (x >= Pow2(n)) != (y >= Pow2(n))
  {
    if n > 0 {
      TopBit(x / 2, y / 2, n - 1);
    } else if x > 0 || y > 0 {
      assert Bits(Xor, x / 2, y / 2) == 0;
    }
  }

  /** Quotient and remainder. For operands the routine divides they are those of section 6.5.5, and
      only then is the quotient right; division by zero gives quotient 0 and the numerator as
      remainder. Whatever the quotient, the remainder makes up for it modulo 2^32. */
  method Idivmod(numerator: word, denominator: word) returns (q: Option<word>, r: word)
    ensures Divides(numerator, denominator) ==>
              q == Some(Wrap(TruncDiv(numerator, denominator))) && r == TruncRem(numerator, denominator)
    ensures q == Some(Wrap(TruncDiv(numerator, denominator))) ==> Divides(numerator, denominator)
    ensures q.Some? <==> Returns(numerator, denominator)
    ensures q.Some? ==> Wrap(q.value * denominator + r) == numerator
  {
    q := Idiv(numerator, denominator);
    r := 0;
    if q.Some? {
      r := Wrap(numerator - Wrap(q.value * denominator));
      MakesUp(numerator, q.value * denominator);
      if Divides(numerator, denominator) {
        QuotientFits(numerator, denominator);
        RemainderFits(numerator, denominator);
        WrapTwice(numerator, q.value * denominator);
      }
    }
  }

  lemma MakesUp(n: word, p: int)
    ensures Wrap(p + Wrap(n - Wrap(p))) == n
  {
    WrapTwice(n, p);
    WrapTwice(p, n - p);
  }

  /** 2^30 divided by 1: the divisor is doubled past 2^30 to 2^31, and the quotient comes out wrong. */
  lemma DivisionFails()
    ensures !Divides(0x4000_0000, 1) && Returns(0x4000_0000, 1)
  {
    OneAligned(30);
    PowersOfTwo();
    PowerStep(30);
  }

  /** -2^31 divided by 1: the divisor is doubled to 2^32, which is 0 in a register, for ever. */
  lemma DivisionHangs()
    ensures !Returns(-TWO31, 1)
  {
    OneAligned(31);
    PowersOfTwo();
  }

  /** The first power of two beyond 2^k. */
  lemma OneAligned(k: nat)
    ensures Aligned(1, Pow2(k)) == 2 * Pow2(k)
  {
    DoublingsOfPower(0, k);
    PowerStep(k);
    PowersOfTwo();
    hide Pow2, Doublings;
    assert Aligned(1, Pow2(k)) == 1 * Pow2(k + 1);
  }

  lemma {:induction false} DoublingsOfPower(i: nat, k: nat)
    requires i <= k
    ensures Doublings(Pow2(i), Pow2(k)) == k - i + 1
    decreases k - i
  {
    Pow2Grows(i, k);
    PowerStep(i);
    if i < k {
      DoublingsOfPower(i + 1, k);
    } else {
      assert Doublings(Pow2(i + 1), Pow2(k)) == 0;
    }
  }

  lemma QuotientFits(n: word, d: word)
    requires Divides(n, d)
    ensures -TWO31 < TruncDiv(n, d) < TWO31
  {
    if d != 0 {
      var (a, b) := (Abs(n), Abs(d));
      assert a < TWO31;
      DivideBelow(a, b, TWO31);
    }
  }

  lemma RemainderFits(n: word, d: word)
    ensures -TWO31 <= TruncRem(n, d) < TWO31
  {
    if d != 0 {
      DivisionLaw(n, d);
    }
  }

}
