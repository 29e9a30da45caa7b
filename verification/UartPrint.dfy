/** The kernel's own division and number printing. */
module UartPrint {
  import opened Words
  import opened Arithmetic

  /** The low bits of n, one more of them. */
  lemma BitStep(n: nat, p: nat)
    requires p >= 1
    ensures n % (2 * p) == (n / p) % 2 * p + n % p
  {
    var (q, r) := (n / p, n % p);
    var (h, b) := (q / 2, q % 2);
    assert n == p * q + r && q == 2 * h + b;
    Spread(p, 2 * h, b);
    Regroup(p, 2, h);
    assert b * p + r < 2 * p;
    Quotient(n, 2 * p, h, b * p + r);
  }

  // ------------------------------------------------------------------ division

  /** What holds before the bits below 2^i = p are used: the quotient so far is a multiple of p,
      and what is not divided yet is the remainder followed by those bits. */
  ghost predicate Partial(n: nat, d: nat, q: nat, r: nat, p: nat) {
    p >= 1 && r < d && q % p == 0 && n == d * q + r * p + n % p
  }

  /** One bit more. No shift leaves 32 bits. */
  lemma DivisionStep(n: u32, d: nat, q: nat, r: nat, p: nat)
    requires p >= 1 && Partial(n, d, q, r, 2 * p)
    ensures var s := 2 * r + (n / p) % 2;
            && s < 0x1_0000_0000
            && (if s >= d then Partial(n, d, q + p, s - d, p) && q + p <= n else Partial(n, d, q, s, p))
  {
    var s := 2 * r + (n / p) % 2;
    ShiftedIn(n, d, q, r, p);
    if s >= d {
      Subtracted(n, d, q, s, p);
    }
  }

  lemma ShiftedIn(n: nat, d: nat, q: nat, r: nat, p: nat)
    requires p >= 1 && Partial(n, d, q, r, 2 * p)
    ensures var s := 2 * r + (n / p) % 2;
            && n == d * q + s * p + n % p && s <= n && s < 2 * d
            && q % p == 0 && (q + p) % p == 0
  {
    var b := (n / p) % 2;
    BitStep(n, p);
    BitIn(r, b, p);
    AtLeast(2 * r + b, p);
    Multiple(q, p);
  }

  /** The bit joins the remainder. */
  lemma BitIn(r: nat, b: nat, p: nat)
    ensures r * (2 * p) + b * p == (2 * r + b) * p
  {
    Regroup(r, 2, p);
    Spread(p, 2 * r, b);
  }

  lemma Subtracted(n: nat, d: nat, q: nat, s: nat, p: nat)
    requires p >= 1 && 1 <= d <= s && n == d * q + s * p + n % p
    ensures n == d * (q + p) + (s - d) * p + n % p && q + p <= n
  {
    Spread(d, q, p);
    Spread(p, s - d, d);
    AtLeast(q + p, d);
  }

  lemma Multiple(q: nat, p: nat)
    requires p >= 1 && q % (2 * p) == 0
    ensures q % p == 0 && (q + p) % p == 0
  {
    var k := q / (2 * p);
    assert q == (2 * p) * k;
    Regroup(p, 2, k);
    Quotient(q, p, 2 * k, 0);
    Spread(p, 2 * k, 1);
    Quotient(q + p, p, 2 * k + 1, 0);
  }

  /** Setting a bit above which the number is zero, or the lowest bit of an even number, adds it. */
  lemma SetBit(q: nat, i: nat)
    requires q % Pow2(i + 1) == 0
    ensures Bits(Or, q, Pow2(i)) == q + Pow2(i)
  {
    var h := q / Pow2(i + 1);
    assert q == h * Pow2(i + 1);
    OrOfDisjoint(h, Pow2(i), i + 1);
  }

  lemma AppendBit(r: nat, b: nat)
    requires b < 2
    ensures Bits(Or, 2 * r, b) == 2 * r + b
  {
    assert Pow2(1) == 2;
    OrOfDisjoint(r, b, 1);
  }

  /** (n >> i) & 1 */
  function Bit(n: nat, i: nat): nat {
    n / Pow2(i) % 2
  }

  /** remainder <<= 1; remainder |= bit, in 32 bits. */
  function ShiftIn(r: nat, b: nat): nat {
    Bits(Or, 2 * r % 0x1_0000_0000, b)
  }

  lemma DivisionTurn(n: u32, d: nat, q: nat, r: nat, i: nat)
    requires Partial(n, d, q, r, Pow2(i + 1))
    ensures var (s, p) := (ShiftIn(r, Bit(n, i)), Pow2(i));
            && s < 0x1_0000_0000 && Bits(Or, q, p) == q + p
            && (if s >= d then Partial(n, d, q + p, s - d, p) && q + p <= n else Partial(n, d, q, s, p))
  {
    hide Bits;
    DivisionStep(n, d, q, r, Pow2(i));
    AppendBit(r, Bit(n, i));
    SetBit(q, i);
    hide Pow2, Partial;
  }

  /** Shifts in a bit of n at a time and subtracts when possible: the true quotient and remainder,
      whatever the divisor. */
  method SimpleUdivmod(n: u32, d: u32) returns (q: u32, r: u32)
    ensures d == 0 ==> q == 0 && r == 0
    ensures d > 0 ==> q == n / d && r == n % d
  {
    if d == 0 {
      return 0, 0;
    }
    hide *;
    var quotient: nat, remainder: nat := 0, 0;
    Begins(n, d);
    for i := 32 downto 0
      invariant Partial(n, d, quotient, remainder, Pow2(i)) && quotient <= n && remainder < 0x1_0000_0000
    {
      DivisionTurn(n, d, quotient, remainder, i);
      remainder := ShiftIn(remainder, Bit(n, i));
      if remainder >= d {
        remainder := remainder - d;
        quotient := Bits(Or, quotient, Pow2(i));
      }
    }
    Divided(n, d, quotient, remainder);
    return quotient, remainder;
  }

  lemma Divided(n: nat, d: nat, q: nat, r: nat)
    requires d > 0 && Partial(n, d, q, r, Pow2(0))
    ensures q == n / d && r == n % d
  {
    Quotient(n, d, q, r);
  }

  lemma Begins(n: u32, d: u32)
    requires d > 0
    ensures Partial(n, d, 0, 0, Pow2(32))
  {
    Pow2Adds(16, 16);
    Pow2Adds(8, 8);
    assert Pow2(32) == 0x1_0000_0000;
  }

  lemma PowerZero()
    ensures Pow2(0) == 1
  {
  }

  // ------------------------------------------------------------------ digits

  const DIGITS: string := "0123456789abcdef"

  function DigitOf(c: char): (v: nat)
    ensures v < 16
  {
    if IsDigit(c) then c as int - '0' as int
    else if 'a' <= c <= 'f' then 10 + (c as int - 'a' as int)
    else 0
  }

  lemma DigitBack(v: nat)
    requires v < 16
    ensures |DIGITS| == 16
    ensures DigitOf(DIGITS[v]) == v && (DIGITS[v] == '0' <==> v == 0)
  {
  }

  /** The value of a numeral, most significant digit first. */
  function Value(s: string, base: nat): nat {
    if s == "" then 0 else Value(s[..|s| - 1], base) * base + DigitOf(s[|s| - 1])
  }

  /** The value of digits stored least significant first. */
  function Reversed(s: string, base: nat): nat {
    if s == "" then 0 else DigitOf(s[0]) + base * Reversed(s[1..], base)
  }

  function Power(base: nat, k: nat): (p: nat)
    ensures base >= 1 ==> p >= 1
  {
    if k == 0 then 1 else base * Power(base, k - 1)
  }

  /** A digit appended at the high end. */
  lemma {:induction false} HighDigit(s: string, c: char, base: nat)
    ensures Reversed(s + [c], base) == Reversed(s, base) + Power(base, |s|) * DigitOf(c)
  {
    if s == "" {
      assert ("" + [c])[1..] == "" && ("" + [c])[0] == c;
      assert Reversed("" + [c], base) == DigitOf(c) + base * Reversed("", base);
    } else {
      assert (s + [c])[1..] == s[1..] + [c] && (s + [c])[0] == s[0];
      HighDigit(s[1..], c, base);
      SpreadTwice(base, Reversed(s[1..], base), Power(base, |s| - 1), DigitOf(c));
    }
  }

  lemma SpreadTwice(a: nat, x: nat, y: nat, z: nat)
    ensures a * (x + y * z) == a * x + (a * y) * z
  {
    Spread(a, x, y * z);
    Regroup(a, y, z);
  }

  /** Written out from the high end, the digits are the number they were stored for. */
  lemma {:induction false} Turned(s: string, t: string, base: nat)
    requires |t| == |s| && forall i :: 0 <= i < |s| ==> t[i] == s[|s| - 1 - i]
    ensures Value(t, base) == Reversed(s, base)
  {
    if s != "" {
      var t1 := t[..|t| - 1];
      assert forall i :: 0 <= i < |s| - 1 ==> t1[i] == s[1..][|s| - 1 - 1 - i];
      Turned(s[1..], t1, base);
      assert t[|t| - 1] == s[0];
      assert Value(t1, base) * base == base * Value(t1, base);
    }
  }

  /** Every digit takes a factor of at least two off the number, so 32 are enough. */
  ghost predicate Counting(num: u32, left: nat, i: nat, base: nat, s: string) {
    && |s| == i && i <= 32 && left < Pow2(32 - i) && num == Reversed(s, base) + Power(base, i) * left
    && (left == 0 && i > 0 ==> s[i - 1] != '0')
  }

  lemma CountingRoom(num: u32, left: nat, i: nat, base: nat, s: string)
    requires Counting(num, left, i, base, s) && left > 0
    ensures |s| == i < 32
  {
    if i == 32 {
      PowerZero();
    }
  }

  lemma NextDigit(num: u32, left: nat, i: nat, base: nat, s: string)
    requires Counting(num, left, i, base, s) && left > 0 && 2 <= base <= 16
    ensures |DIGITS| == 16
    ensures i < 32 && Counting(num, left / base, i + 1, base, s + [DIGITS[left % base]])
  {
    hide *;
    var (q, r) := (left / base, left % base);
    CountingMeans(num, left, i, base, s);
    WidthLeft(i, left);
    Halves(left, base, Pow2(32 - i - 1));
    DigitBack(r);
    HighDigit(s, DIGITS[r], base);
    PowerUp(base, i);
    DigitSum(Reversed(s, base), Power(base, i), left, base, q, r);
    var t := s + [DIGITS[r]];
    LastDigit(left, base);
    CountingIs(num, q, i + 1, base, t);
  }

  lemma CountingMeans(num: u32, left: nat, i: nat, base: nat, s: string)
    requires Counting(num, left, i, base, s)
    ensures |s| == i <= 32 && left < Pow2(32 - i) && num == Reversed(s, base) + Power(base, i) * left
  {
  }

  lemma CountingIs(num: u32, left: nat, i: nat, base: nat, s: string)
    requires |s| == i <= 32 && left < Pow2(32 - i) && num == Reversed(s, base) + Power(base, i) * left
    requires left == 0 && i > 0 ==> s[i - 1] != '0'
    ensures Counting(num, left, i, base, s)
  {
  }

  /** The last digit taken off a number is not zero. */
  lemma LastDigit(left: nat, base: nat)
    requires left > 0 && base >= 1
    ensures left / base == 0 ==> left % base != 0
  {
  }

  lemma DigitSum(v: nat, p: nat, left: nat, base: nat, q: nat, r: nat)
    requires base >= 1 && q == left / base && r == left % base
    ensures v + p * left == (v + p * r) + (p * base) * q
  {
    SpreadTwice(p, r, base, q);
  }

  lemma PowerUp(base: nat, k: nat)
    ensures Power(base, k + 1) == Power(base, k) * base && Power(base, 0) == 1
  {
  }

  lemma WidthLeft(i: nat, left: nat)
    requires i <= 32 && 0 < left < Pow2(32 - i)
    ensures i < 32 && Pow2(32 - i) == 2 * Pow2(32 - i - 1)
  {
    PowerZero();
  }

  lemma Halves(left: nat, base: nat, p: nat)
    requires left < 2 * p && base >= 2
    ensures left / base < p
  {
    var q := left / base;
    Spread(q, 2, base - 2);
  }

  /** The digit written next, and the number left after it. */
  function DigitChar(left: nat, base: nat): char
    requires 2 <= base <= 16
  {
    DIGITS[left % base]
  }

  function LeftOver(left: nat, base: nat): nat
    requires 2 <= base
  {
    left / base
  }

  lemma DigitTurn(num: u32, left: nat, i: nat, base: nat, s: string)
    requires Counting(num, left, i, base, s) && left > 0 && 2 <= base <= 16
    ensures |s| == i < 32 && LeftOver(left, base) < left && DigitChar(left, base) in DIGITS
    ensures Counting(num, LeftOver(left, base), i + 1, base, s + [DigitChar(left, base)])
  {
    CountingRoom(num, left, i, base, s);
    NextDigit(num, left, i, base, s);
    Smaller(left, base);
  }

  /** One turn of the digit loop. */
  method TakeDigit(left: u32, base: u32) returns (c: char, rest: u32)
    requires 2 <= base <= 16
    ensures c == DigitChar(left, base) && rest == LeftOver(left, base)
  {
    var r;
    rest, r := SimpleUdivmod(left, base);
    c := DIGITS[r];
  }

  /** The first loop: digits into the buffer, least significant first. */
  method StoreDigits(num: u32, base: u32, buf: array<char>) returns (n: nat)
    requires 2 <= base <= 16 && num > 0 && buf.Length == 32
    modifies buf
    ensures 0 < n <= 32 && Counting(num, 0, n, base, buf[..n]) && forall k :: 0 <= k < n ==> buf[k] in DIGITS
  {
    hide *;
    n := 0;
    var left: u32 := num;
    Starts(num, base);
    assert buf[..0] == "";
    while left > 0
      invariant 0 <= n <= 32 && Counting(num, left, n, base, buf[..n])
      invariant forall k :: 0 <= k < n ==> buf[k] in DIGITS
      invariant left == 0 ==> n > 0
      decreases left
    {
      ghost var s := buf[..n];
      DigitTurn(num, left, n, base, s);
      buf[n], left := TakeDigit(left, base);
      assert buf[..n + 1] == s + [buf[n]];
      n := n + 1;
    }
  }

  /** The second loop: the buffer from its end. */
  method WriteBack(buf: array<char>, n: nat) returns (text: string)
    requires n <= buf.Length
    ensures |text| == n && forall k :: 0 <= k < n ==> text[k] == buf[n - 1 - k]
  {
    text := "";
    var i := n;
    while i > 0
      invariant 0 <= i <= n && |text| == n - i
      invariant forall k :: 0 <= k < |text| ==> text[k] == buf[n - 1 - k]
    {
      i := i - 1;
      text := text + [buf[i]];
    }
  }

  /** Prints a number in base 2 to 16 (the driver uses 10 and 16): at most 32 digits, no leading
      zero, and reading them back gives the number. */
  method PrintUint(num: u32, base: u32) returns (text: string)
    requires 2 <= base <= 16
    ensures 0 < |text| <= 32 && Value(text, base) == num && (|text| > 1 ==> text[0] != '0')
    ensures forall i :: 0 <= i < |text| ==> text[i] in DIGITS
  {
    if num == 0 {
      text := "0";
      assert text[..0] == "";
      return;
    }
    hide Value, Reversed, Counting;
    var buf := new char[32](_ => ' ');
    var n := StoreDigits(num, base, buf);
    AllCounted(num, n, base, buf[..n]);
    text := WriteBack(buf, n);
    Turned(buf[..n], text, base);
  }

  lemma AllCounted(num: u32, i: nat, base: nat, s: string)
    requires Counting(num, 0, i, base, s) && i > 0
    ensures |s| == i <= 32 && num == Reversed(s, base) && s[i - 1] != '0'
  {
  }

  lemma Starts(num: u32, base: u32)
    ensures Counting(num, num, 0, base, "") || num == 0
  {
    Pow2Adds(16, 16);
    Pow2Adds(8, 8);
    assert Pow2(32) == 0x1_0000_0000;
    assert Power(base, 0) == 1;
  }

  lemma Smaller(left: nat, base: nat)
    requires left > 0 && base >= 2
    ensures left / base < left
  {
    Halves(left, base, left);
  }
}
