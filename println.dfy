/**
 * The lines the runtime's `println` variants write to standard output, and
 * readers that take each line back to the value it shows. Both runtimes
 * (`stdlib.c` and `mkt_stdlib.c`) are proved to write these bytes, except
 * `IntLine` for the smallest `long long`, where their wrapping `-n` gives
 * `Decimal.AsWrittenText` instead.
 */
module Println {
  import opened Base
  import opened Decimal

  const TRUE_LINE: seq<byte> := Bytes("true\n")
  const FALSE_LINE: seq<byte> := Bytes("false\n")

  /** `true\n` or `false\n`. */
  function BoolLine(b: bool): (r: seq<byte>)
    ensures |r| >= 2 && r[|r| - 1] == NEWLINE
  {
    if b then TRUE_LINE else FALSE_LINE
  }

  /** The character, then a newline. */
  function CharLine(c: byte): (r: seq<byte>)
    ensures |r| == 2 && r[1] == NEWLINE
  {
    [c, NEWLINE]
  }

  /** The decimal text of `n`, then a newline. */
  function IntLine(n: int): (r: seq<byte>)
    ensures |r| >= 2 && r[|r| - 1] == NEWLINE
  {
    Text(n) + [NEWLINE]
  }

  /** A string's bytes, then a newline. */
  function StringLine(s: seq<byte>): (r: seq<byte>)
    ensures |r| == |s| + 1 && r[..|s|] == s && r[|s|] == NEWLINE
  {
    s + [NEWLINE]
  }

  /** What a reader of the output takes a boolean line to mean. */
  function ReadBool(line: seq<byte>): Option<bool> {
    if line == TRUE_LINE then Some(true)
    else if line == FALSE_LINE then Some(false)
    else None
  }

  /** The value shown by a line of the form `-?digits\n`. */
  function ReadInt(line: seq<byte>): Option<int> {
    if |line| < 2 || line[|line| - 1] != NEWLINE then None
    else
      var t := line[..|line| - 1];
      if t[0] == MINUS && |t| > 1 && AllDigits(t[1..]) then Some(0 - Value(t[1..]))
      else if AllDigits(t) then Some(Value(t) as int)
      else None
  }

  lemma BoolLineRoundTrip(b: bool)
    ensures ReadBool(BoolLine(b)) == Some(b)
  {
    assert TRUE_LINE[0] != FALSE_LINE[0];
  }

  /** Reading an integer line back gives the printed number. */
  lemma IntLineRoundTrip(n: int)
    ensures ReadInt(IntLine(n)) == Some(n)
  {
    var line := IntLine(n);
    var t := Text(n);
    assert line[..|line| - 1] == t;
    if n < 0 {
      ValueOfDigits(-n);
      assert t[1..] == Digits(-n);
      assert t[0] == MINUS;
    } else {
      ValueOfDigits(n);
      assert t == Digits(n);
      assert !IsDigit(MINUS);
    }
  }

  /** Different numbers print different lines. */
  lemma IntLineInjective(m: int, n: int)
    requires IntLine(m) == IntLine(n)
    ensures m == n
  {
    IntLineRoundTrip(m);
    IntLineRoundTrip(n);
  }
}
