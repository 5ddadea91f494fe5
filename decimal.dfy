/**
 * Decimal text of integers: the reference that the runtime's integer
 * printers and the parser's integer literals are proved against.
 */
module Decimal {
  import opened Base

  const ZERO_CHAR: byte := 48
  const MINUS: byte := 45

  predicate IsDigit(c: byte) {
    48 <= c <= 57
  }

  predicate AllDigits(s: seq<byte>) {
    forall k | 0 <= k < |s| :: IsDigit(s[k])
  }

  /** The character of a digit value. */
  function DigitChar(d: int): (c: byte)
    requires 0 <= d < 10
    ensures IsDigit(c) && c as int - 48 == d
  {
    (48 + d) as byte
  }

  function Pow10(k: nat): (p: nat)
    ensures p >= 1
  {
    if k == 0 then 1 else 10 * Pow10(k - 1)
  }

  /** The digits of `n`, most significant first, with no leading zero. */
  function Digits(n: nat): (r: seq<byte>)
    ensures 1 <= |r| && AllDigits(r)
    ensures n > 0 ==> r[0] != ZERO_CHAR
    ensures n == 0 ==> r == [ZERO_CHAR]
  {
    if n < 10 then [DigitChar(n)] else Digits(n / 10) + [DigitChar(n % 10)]
  }

  /** The value a string of decimal digits denotes. */
  function Value(s: seq<byte>): nat
    requires AllDigits(s)
  {
    if s == [] then 0 else 10 * Value(s[..|s| - 1]) + (s[|s| - 1] as int - 48)
  }

  /** Decimal text of a signed integer: a minus sign before the digits of its magnitude. */
  function Text(n: int): (r: seq<byte>)
    ensures |r| >= 1
  {
    if n < 0 then [MINUS] + Digits(-n) else Digits(n)
  }

  /** Reading the digits back gives the number: `Digits` is injective. */
  lemma {:induction false} ValueOfDigits(n: nat)
    ensures Value(Digits(n)) == n
    decreases n
  {
    if n >= 10 {
      ValueOfDigits(n / 10);
      var d := Digits(n);
      assert d[..|d| - 1] == Digits(n / 10);
    }
  }

  /** Canonical digit strings (no leading zero) are exactly the images of `Digits`. */
  lemma {:induction false} DigitsOfValue(s: seq<byte>)
    requires AllDigits(s) && |s| >= 1
    requires |s| > 1 ==> s[0] != ZERO_CHAR
    ensures Digits(Value(s)) == s
    decreases |s|
  {
    if |s| > 1 {
      var init := s[..|s| - 1];
      DigitsOfValue(init);
      ValueAtLeastLeading(init);
      assert Value(s) / 10 == Value(init);
      assert Value(s) % 10 == s[|s| - 1] as int - 48;
    }
  }

  /** A canonical digit string of length `k + 1` denotes at least `10^k`. */
  lemma {:induction false} ValueAtLeastLeading(s: seq<byte>)
    requires AllDigits(s) && |s| >= 1 && s[0] != ZERO_CHAR
    ensures Value(s) >= Pow10(|s| - 1)
    decreases |s|
  {
    if |s| > 1 {
      ValueAtLeastLeading(s[..|s| - 1]);
      assert s[..|s| - 1][0] == s[0];
    }
  }

  /** A number below `10^k` has at most `k` digits. */
  lemma {:induction false} DigitsLength(n: nat, k: nat)
    requires 1 <= k && n < Pow10(k)
    ensures |Digits(n)| <= k
    decreases k
  {
    if n >= 10 {
      assert k >= 2;
      DigitsLength(n / 10, k - 1);
    }
  }

  /** Every integer that fits in 64 bits has a decimal text of at most 20 bytes. */
  lemma TextOfLongFits(n: int)
    requires LLONG_MIN <= n <= LLONG_MAX
    ensures |Text(n)| <= 20
  {
    Pow10Of19();
    if n < 0 {
      DigitsLength(-n, 19);
    } else {
      DigitsLength(n, 19);
    }
  }

  lemma Pow10Of19()
    ensures Pow10(19) == 10_000_000_000_000_000_000
  {
      assert Pow10(1) == 10;
      assert Pow10(2) == 100;
      assert Pow10(3) == 1000;
      assert Pow10(4) == 10000;
      assert Pow10(5) == 100000;
      assert Pow10(6) == 1000000;
      assert Pow10(7) == 10000000;
      assert Pow10(8) == 100000000;
      assert Pow10(9) == 1000000000;
      assert Pow10(10) == 10000000000;
      assert Pow10(11) == 100000000000;
      assert Pow10(12) == 1000000000000;
      assert Pow10(13) == 10000000000000;
      assert Pow10(14) == 100000000000000;
      assert Pow10(15) == 1000000000000000;
      assert Pow10(16) == 10000000000000000;
      assert Pow10(17) == 100000000000000000;
      assert Pow10(18) == 1000000000000000000;
      assert Pow10(19) == 10000000000000000000;
  }

  // ---------------------------------------------------------------------
  // The digit loop of the runtime's integer printers as written, with
  // 64-bit wrapping negation and C's truncating `/` and `%`.

  /** A mathematical integer reduced to a two's-complement `long long`. */
  function Wrap64(x: int): (r: int)
    ensures LLONG_MIN <= r <= LLONG_MAX
    ensures LLONG_MIN <= x <= LLONG_MAX ==> r == x
  {
    (x - LLONG_MIN) % 0x1_0000_0000_0000_0000 + LLONG_MIN
  }

  /**
   * C's `-n` on a `long long`: the negation, except that the smallest
   * value has no positive counterpart and stays as it is.
   */
  function Neg64(n: int): (r: int)
    requires LLONG_MIN <= n <= LLONG_MAX
    ensures LLONG_MIN <= r <= LLONG_MAX
  {
    if n == LLONG_MIN then LLONG_MIN else -n
  }

  /** `Neg64` is the exact negation reduced to 64 bits, wrap included. */
  lemma Neg64Wraps(n: int)
    requires LLONG_MIN <= n <= LLONG_MAX
    ensures Neg64(n) == Wrap64(-n)
    ensures n != LLONG_MIN ==> Neg64(n) == -n
  {
  }

  /** C's `a / 10`, rounding toward zero. */
  function CQuot10(a: int): (q: int)
    ensures a >= 0 ==> q == a / 10
    ensures a < 0 ==> a < q * 10 + 10 && q * 10 >= a && q <= 0
  {
    if a >= 0 then a / 10 else -((-a) / 10)
  }

  /** C's `a % 10`: it takes the sign of `a`. */
  function CRem10(a: int): (r: int)
    ensures -10 < r < 10 && a == 10 * CQuot10(a) + r
    ensures a >= 0 ==> r == a % 10
  {
    a - 10 * CQuot10(a)
  }

  /** The bytes the do-while loop stores, `rem + '0'` each, most significant first. */
  function DoWhileDigits(n: int): (r: seq<byte>)
    ensures |r| >= 1 && r[|r| - 1] as int == CRem10(n) + 48
    ensures n >= 0 ==> IsDigit(r[0])
    decreases if n < 0 then -n else n
  {
    var q := CQuot10(n);
    (if q == 0 then [] else DoWhileDigits(q)) + [(CRem10(n) + 48) as byte]
  }

  /** The text `println_int` and `mkt_int_to_string` produce, wrap included. */
  function AsWrittenText(n: int): (r: seq<byte>)
    requires LLONG_MIN <= n <= LLONG_MAX
    ensures n < 0 <==> (|r| > 1 && r[0] == MINUS)
  {
    if n < 0 then [MINUS] + DoWhileDigits(Neg64(n)) else DoWhileDigits(n)
  }

  /** For a non-negative argument the loop stores exactly the decimal digits. */
  lemma {:induction false} DoWhileDigitsOfNat(m: nat)
    ensures DoWhileDigits(m) == Digits(m)
    decreases m
  {
    if m >= 10 {
      DoWhileDigitsOfNat(m / 10);
    }
  }

  /** For a negative argument the loop stores as many bytes as `-n` has digits. */
  lemma {:induction false} DoWhileDigitsOfNeg(n: int)
    requires n < 0
    ensures |DoWhileDigits(n)| == |Digits(-n)|
    decreases -n
  {
    var q := CQuot10(n);
    if q != 0 {
      DoWhileDigitsOfNeg(q);
      assert -q == (-n) / 10;
    }
  }

  /**
   * The magnitude the code as written takes, wrap included, has at most 19
   * digits, so its text fits the 20 bytes the buffers leave for it.
   */
  lemma AsWrittenTextFits(n: int)
    requires LLONG_MIN <= n <= LLONG_MAX
    ensures |DoWhileDigits(if n < 0 then Neg64(n) else n)| <= 19
    ensures |AsWrittenText(n)| <= 20
  {
    Pow10Of19();
    if n == LLONG_MIN {
      DoWhileDigitsOfNeg(n);
      DigitsLength(-n, 19);
    } else if n < 0 {
      DoWhileDigitsOfNat(-n);
      DigitsLength(-n, 19);
    } else {
      DoWhileDigitsOfNat(n);
      DigitsLength(n, 19);
    }
  }

  /**
   * One turn of the do-while loop: when the bytes for `m` are the first `p`
   * bytes of `full`, the last of them is `'0'` plus `m`'s remainder and the
   * others are the bytes for the quotient (none when it is 0).
   */
  lemma DoWhileSplit(m: int, full: seq<byte>, p: nat)
    requires p <= |full| && DoWhileDigits(m) == full[..p]
    ensures 1 <= p && full[p - 1] as int == CRem10(m) + 48
    ensures CQuot10(m) != 0 ==> DoWhileDigits(CQuot10(m)) == full[..p - 1]
    ensures CQuot10(m) == 0 ==> p == 1
  {
    assert full[..p - 1] == full[..p][..p - 1];
  }

  /** Away from the smallest `long long`, the code as written prints the decimal text. */
  lemma AsWrittenAgrees(n: int)
    requires LLONG_MIN < n <= LLONG_MAX
    ensures AsWrittenText(n) == Text(n)
  {
    if n < 0 {
      DoWhileDigitsOfNat(-n);
    } else {
      DoWhileDigitsOfNat(n);
    }
  }

  /**
   * For the smallest `long long`, `-n` wraps back to `n`, the first
   * remainder is -8, and the last byte printed is `'0' - 8`, which is `(`.
   */
  lemma LongMinMisprinted()
    ensures AsWrittenText(LLONG_MIN)[|AsWrittenText(LLONG_MIN)| - 1] == 40
    ensures AsWrittenText(LLONG_MIN) != Text(LLONG_MIN)
  {
    assert CRem10(LLONG_MIN) == -8;
    var t := Text(LLONG_MIN);
    assert IsDigit(t[|t| - 1]);
  }
}
