/**
 * The standalone runtime `stdlib.c`, linked into programs built without the
 * garbage-collected runtime. Its `println_bool` and `println_char` are the
 * same code as `mkt_bool_println` and `mkt_char_println` and are modelled by
 * `Runtime.BoolPrintln` and `Runtime.CharPrintln`. What differs is
 * `println_int`, which lays the newline out in the same buffer as the
 * digits, and `println_string`, which stores the newline into the caller's
 * buffer.
 *
 * Both integer printers negate a negative argument with a 64-bit `-n`,
 * which wraps for the smallest `long long`: `PrintlnInt` and
 * `Runtime.IntPrintln` follow that code and write `AsWrittenText`, which
 * `Decimal.LongMinMisprinted` shows ending in `(`. `PrintlnIntUnsigned`
 * takes the magnitude in unsigned arithmetic and writes the decimal line
 * for every `long long`.
 */
module Stdlib {
  import opened Base
  import opened Decimal
  import opened Println
  import Runtime

  /** The modulus of `unsigned long long` arithmetic. */
  const ULLONG_MODULUS: int := 0x1_0000_0000_0000_0000

  /**
   * `println_int`: a 23-byte buffer holding, right to left, the newline,
   * the bytes of the do-while loop and the sign; the bytes written are the
   * last `len` of the buffer. The magnitude is a 64-bit `-n`.
   */
  method PrintlnInt(n: int) returns (w: seq<byte>)
    requires LLONG_MIN <= n <= LLONG_MAX
    ensures w == AsWrittenText(n) + [NEWLINE]
    ensures n != LLONG_MIN ==> w == IntLine(n)
  {
    AsWrittenTextFits(n);
    w := PrintLine(n, if n < 0 then Neg64(n) else n);
    if n != LLONG_MIN {
      AsWrittenAgrees(n);
    }
  }

  /**
   * `println_int` with the magnitude of a negative `n` computed as
   * `0 - (unsigned long long)n`, which cannot wrap: the decimal line for
   * every `long long`.
   */
  method PrintlnIntUnsigned(n: int) returns (w: seq<byte>)
    requires LLONG_MIN <= n <= LLONG_MAX
    ensures w == IntLine(n) && ReadInt(w) == Some(n)
  {
    var m := if n < 0 then (0 - n % ULLONG_MODULUS) % ULLONG_MODULUS else n;
    assert n < 0 ==> m == -n;
    DoWhileDigitsOfNat(m);
    TextOfLongFits(n);
    w := PrintLine(n, m);
    IntLineRoundTrip(n);
  }

  /**
   * The body of `println_int` once the magnitude `m` is known: newline in
   * the last byte, the loop's bytes for `m` before it, then the sign.
   */
  method PrintLine(n: int, m: int) returns (w: seq<byte>)
    requires |DoWhileDigits(m)| <= 20
    ensures w == (if n < 0 then [MINUS] else []) + DoWhileDigits(m) + [NEWLINE]
  {
    var s := new byte[23](_ => NUL);
    var len := 0;
    s[22] := NEWLINE;
    len := len + 1;
    var neg := n < 0;
    ghost var before := s[..];
    var d := Runtime.PutDigits(m, s, 22);
    ghost var digitsDone := s[..];
    len := len + d;
    if neg {
      s[22 - len] := MINUS;
      len := len + 1;
    }
    LineLayout(before, digitsDone, d, n, DoWhileDigits(m), s[..]);
    w := s[23 - len..];
  }

  /**
   * The buffer of `println_int` once the loop is done: the digits end just
   * before the newline in the last byte, and the sign, if any, goes just
   * before the digits.
   */
  lemma LineLayout(before: seq<byte>, buf: seq<byte>, d: nat, n: int, digits: seq<byte>, out: seq<byte>)
    requires |before| == |buf| == 23 && 1 <= d <= 21 && |digits| == d
    requires buf == before[..22 - d] + buf[22 - d..22] + before[22..]
    requires buf[22 - d..22] == digits && before[22] == NEWLINE
    requires n < 0 ==> out == buf[21 - d := MINUS]
    requires n >= 0 ==> out == buf
    ensures out[(if n < 0 then 21 - d else 22 - d)..] == (if n < 0 then [MINUS] else []) + digits + [NEWLINE]
  {
    assert before[22..] == [NEWLINE];
    assert buf[22 - d..] == digits + [NEWLINE];
    if n < 0 {
      assert out[21 - d..] == [MINUS] + buf[22 - d..];
    }
  }

  /**
   * `println_string`: the newline is stored at `s[len]`, in the caller's
   * buffer, and the `len + 1` bytes from the start of `s` are written.
   */
  method PrintlnString(s: array<byte>, len: nat) returns (w: seq<byte>)
    requires len < s.Length
    modifies s
    ensures s[..] == old(s[..])[len := NEWLINE]
    ensures w == StringLine(old(s[..len]))
  {
    s[len] := NEWLINE;
    w := s[..len + 1];
    assert w == s[..len] + [NEWLINE];
  }

  /**
   * Both runtimes print the same line for every `long long`, and it reads
   * back as the number exactly when the number is not the smallest one.
   */
  method PrintersAgree(n: int) returns (standalone: seq<byte>, collected: seq<byte>)
    requires LLONG_MIN <= n <= LLONG_MAX
    ensures standalone == collected
    ensures ReadInt(standalone) == Some(n) <==> n != LLONG_MIN
  {
    standalone := PrintlnInt(n);
    collected := Runtime.IntPrintln(n);
    if n == LLONG_MIN {
      LongMinUnreadable();
    } else {
      IntLineRoundTrip(n);
    }
  }

  /** The line printed for the smallest `long long` does not read as a number. */
  lemma LongMinUnreadable()
    ensures ReadInt(AsWrittenText(LLONG_MIN) + [NEWLINE]) == None
  {
    LongMinMisprinted();
    var t := AsWrittenText(LLONG_MIN);
    var line := t + [NEWLINE];
    assert line[..|line| - 1] == t;
    assert !IsDigit(t[|t| - 1]);
    assert |t| > 1 ==> t[1..][|t[1..]| - 1] == t[|t| - 1];
  }
}
