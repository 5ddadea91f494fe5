/**
 * Shared vocabulary of the model: bytes, optional values, ASCII text and the
 * C string view of a byte buffer.
 */
module Base {

  /** One byte of a buffer (`u8` / `char` in the C sources). */
  newtype byte = x: int | 0 <= x < 256

  datatype Option<T> = None | Some(value: T)

  /** The status codes of `res_t` (`RES_OK`, `RES_ERR`, `RES_NONE`). */
  datatype Res = ResOk | ResErr | ResNone

  /** `usize` is 64 bits wide. */
  const USIZE_MODULUS: int := 0x1_0000_0000_0000_0000
  const LLONG_MAX: int := 0x7fff_ffff_ffff_ffff
  const LLONG_MIN: int := -0x8000_0000_0000_0000

  /** The bytes of an ASCII literal, used for the fixed texts of the sources. */
  function Bytes(s: string): (r: seq<byte>)
    ensures |r| == |s|
    ensures forall i | 0 <= i < |s| :: r[i] as int == s[i] as int % 256
  {
    seq(|s|, i requires 0 <= i < |s| => (s[i] as int % 256) as byte)
  }

  /** `MAXPATHLEN` of `<sys/param.h>` (macOS). */
  const MAXPATHLEN: nat := 1024

  const NUL: byte := 0
  const NEWLINE: byte := 10

  /** `n` zero bytes, as a zero-initialised C buffer holds. */
  function Zeros(n: nat): (r: seq<byte>)
    ensures |r| == n && forall i | 0 <= i < n :: r[i] == NUL
  {
    seq(n, _ => NUL)
  }

  /** Index of the first NUL in `s`, or `|s|`: what `strlen` reports. */
  function StrLen(s: seq<byte>): (n: nat)
    ensures n <= |s|
    ensures forall k | 0 <= k < n :: s[k] != NUL
    ensures n < |s| ==> s[n] == NUL
    decreases |s|
  {
    if s == [] || s[0] == NUL then 0 else 1 + StrLen(s[1..])
  }

  /** The C string held by a buffer: its bytes up to the first NUL. */
  function CString(s: seq<byte>): seq<byte>
  {
    s[..StrLen(s)]
  }

  /** True when `s` holds no NUL byte, so `strlen` sees all of it. */
  predicate NoNul(s: seq<byte>) {
    forall k | 0 <= k < |s| :: s[k] != NUL
  }

  lemma {:induction false} CStringOfPadded(s: seq<byte>, pad: seq<byte>)
    requires NoNul(s) && |pad| > 0 && pad[0] == NUL
    ensures CString(s + pad) == s
  {
    var n := StrLen(s + pad);
    assert forall k | 0 <= k < |s| :: (s + pad)[k] == s[k];
    assert (s + pad)[|s|] == pad[0];
    assert n == |s|;
    assert (s + pad)[..n] == s;
  }
}
