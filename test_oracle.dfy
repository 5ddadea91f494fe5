/**
 * The end-to-end test harness: the `// expect: ` lines it extracts from a
 * test's source text, the executable it runs, and the rule by which the
 * program's output passes or fails the test.
 *
 * C pointers into a buffer are offsets here. `strchr` scans memory that may
 * go on past the buffer it was given, so the searches take `mem`, the
 * buffer followed by whatever bytes come after it, and `len`, the length of
 * the buffer itself.
 */
module TestOracle {
  import opened Base

  /** The marker in front of each expected output line. */
  const NEEDLE: seq<byte> := Bytes("// expect: ")
  const NEEDLE_LEN: nat := 11
  const SLASH: byte := 47
  /** Size of the buffer the program's output is read into. */
  const LENGTH: nat := 2048

  /**
   * `strchr(mem + from, c)` for a byte `c` other than NUL: the first `c`
   * at or after `from`, unless a NUL or the end of `mem` comes first.
   */
  function StrChr(mem: seq<byte>, from: nat, c: byte): (r: Option<nat>)
    requires c != NUL
    ensures r.Some? ==> from <= r.value < |mem| && mem[r.value] == c
    ensures r.Some? ==> forall k | from <= k < r.value :: mem[k] != c && mem[k] != NUL
    decreases |mem| - from
  {
    if from >= |mem| then None
    else if mem[from] == c then Some(from)
    else if mem[from] == NUL then None
    else StrChr(mem, from + 1, c)
  }

  /** `strchr` stops at the first `c` when no NUL comes before it. */
  lemma {:induction false} StrChrFinds(mem: seq<byte>, from: nat, k: nat, c: byte)
    requires c != NUL && from <= k < |mem| && mem[k] == c
    requires forall j | from <= j < k :: mem[j] != c && mem[j] != NUL
    ensures StrChr(mem, from, c) == Some(k)
    decreases k - from
  {
    if from < k {
      StrChrFinds(mem, from + 1, k, c);
    }
  }

  /** `memcmp(mem + p, needle, 11) == 0`, reading only bytes of `mem`. */
  predicate MatchesNeedle(mem: seq<byte>, p: nat) {
    p + NEEDLE_LEN <= |mem| && mem[p..p + NEEDLE_LEN] == NEEDLE
  }

  /** One pushed `str`: an offset into the source and a length. */
  datatype Span = Span(start: nat, length: nat)

  /** The result of `expects_from_string`, or the abort on an empty expectation. */
  datatype Expectations = Found(spans: seq<Span>) | EmptyExpectation

  function Prepend(spans: seq<Span>, r: Expectations): Expectations {
    if r.Found? then Found(spans + r.spans) else EmptyExpectation
  }

  /** Spans that are non-empty and lie within the first `size` bytes. */
  predicate SpansWithin(spans: seq<Span>, size: nat) {
    spans == [] ||
    (0 < spans[0].length && spans[0].start + spans[0].length <= size && SpansWithin(spans[1..], size))
  }

  /** Where the expectation starting at `t` ends: the next newline, or the end of the buffer. */
  function LineEnd(mem: seq<byte>, len: nat, t: nat): (e: nat)
    requires len <= |mem|
    ensures e <= |mem|
  {
    match StrChr(mem, t, NEWLINE)
    case Some(e) => e
    case None => len
  }

  /**
   * The loop of `expects_from_string` from position `src`: jump to the
   * next `/`; on a match of the marker take the text up to the line end
   * and resume after it, otherwise move one byte on.
   */
  function Scan(mem: seq<byte>, len: nat, src: nat): (r: Expectations)
    requires len <= |mem| && src <= |mem| + 1
    decreases |mem| + 1 - src, 1
  {
    if !(src + NEEDLE_LEN < len) then Found([])
    else
      match StrChr(mem, src, SLASH)
      case None => Found([])
      case Some(p) => ScanFrom(mem, len, p)
  }

  /** `Scan` once a `/` is found at `p`. */
  function ScanFrom(mem: seq<byte>, len: nat, p: nat): (r: Expectations)
    requires len <= |mem| && p < |mem|
    decreases |mem| + 1 - p, 0
  {
    if MatchesNeedle(mem, p) then
      var t := p + NEEDLE_LEN;
      var end := LineEnd(mem, len, t);
      if !(t < end) then EmptyExpectation
      else Prepend([Span(t, end - t)], Scan(mem, len, end + 1))
    else Scan(mem, len, p + 1)
  }

  /** `Scan` jumps to the `/` that `strchr` finds. */
  lemma ScanAtSlash(mem: seq<byte>, len: nat, src: nat, p: nat)
    requires len <= |mem| && src <= |mem| + 1 && src + NEEDLE_LEN < len
    requires StrChr(mem, src, SLASH) == Some(p)
    ensures Scan(mem, len, src) == ScanFrom(mem, len, p)
  {
  }

  /** `ScanFrom` when the marker matches at `p` and its text runs to `end`. */
  lemma ScanFromMatch(mem: seq<byte>, len: nat, p: nat, end: nat)
    requires len <= |mem| && p < |mem| && MatchesNeedle(mem, p)
    requires end == LineEnd(mem, len, p + NEEDLE_LEN)
    ensures p + NEEDLE_LEN < end ==>
      ScanFrom(mem, len, p) == Prepend([Span(p + NEEDLE_LEN, end - (p + NEEDLE_LEN))], Scan(mem, len, end + 1))
    ensures !(p + NEEDLE_LEN < end) ==> ScanFrom(mem, len, p) == EmptyExpectation
  {
  }

  /** `ScanFrom` when the marker does not match at `p`. */
  lemma ScanFromMiss(mem: seq<byte>, len: nat, p: nat)
    requires len <= |mem| && p < |mem| && !MatchesNeedle(mem, p)
    ensures ScanFrom(mem, len, p) == Scan(mem, len, p + 1)
  {
  }

  lemma PrependAppend(a: seq<Span>, b: seq<Span>, r: Expectations)
    ensures Prepend(a, Prepend(b, r)) == Prepend(a + b, r)
  {
    if r.Found? {
      assert a + (b + r.spans) == (a + b) + r.spans;
    }
  }

  /** Every span `Scan` finds is non-empty and lies in `mem`. */
  lemma {:induction false} ScanWithin(mem: seq<byte>, len: nat, src: nat)
    requires len <= |mem| && src <= |mem| + 1
    ensures Scan(mem, len, src).Found? ==> SpansWithin(Scan(mem, len, src).spans, |mem|)
    decreases |mem| + 1 - src, 1
  {
    if src + NEEDLE_LEN < len {
      var slash := StrChr(mem, src, SLASH);
      if slash.Some? {
        ScanFromWithin(mem, len, slash.value);
      }
    }
  }

  lemma {:induction false} ScanFromWithin(mem: seq<byte>, len: nat, p: nat)
    requires len <= |mem| && p < |mem|
    ensures ScanFrom(mem, len, p).Found? ==> SpansWithin(ScanFrom(mem, len, p).spans, |mem|)
    decreases |mem| + 1 - p, 0
  {
    if MatchesNeedle(mem, p) {
      var t := p + NEEDLE_LEN;
      var end := LineEnd(mem, len, t);
      if t < end {
        ScanWithin(mem, len, end + 1);
        var rest := Scan(mem, len, end + 1);
        if rest.Found? {
          assert ([Span(t, end - t)] + rest.spans)[1..] == rest.spans;
        }
      }
    } else {
      ScanWithin(mem, len, p + 1);
    }
  }

  /**
   * `expects_from_string(string, len)`, where `mem` starts with the
   * `len` bytes of `string` and goes on with the memory after them.
   */
  method ExpectsFromString(mem: seq<byte>, len: nat) returns (r: Expectations)
    requires 0 < len <= |mem|
    ensures r == Scan(mem, len, 0)
  {
    var expects: seq<Span> := [];
    var src := 0;
    ghost var total := Scan(mem, len, 0);
    assert Prepend([], total) == total;
    while src + NEEDLE_LEN < len
      invariant src <= |mem| + 1
      invariant total == Prepend(expects, Scan(mem, len, src))
      decreases |mem| + 1 - src
    {
      ghost var from := src;
      var stop, abort, found, next := NextExpectation(mem, len, src);
      if stop {
        break;
      }
      if abort {
        return EmptyExpectation;
      }
      PrependAppend(expects, found, Scan(mem, len, next));
      expects := expects + found;
      src := next;
    }
    assert Prepend(expects, Found([])) == Found(expects);
    r := Found(expects);
  }

  /**
   * One round of the loop of `expects_from_string` at `src`: no `/` is
   * left (`stop`), the marker is followed by an empty text (`abort`), or
   * the search goes on at `next` with the spans `found` taken on the way.
   */
  method NextExpectation(mem: seq<byte>, len: nat, src: nat)
    returns (stop: bool, abort: bool, found: seq<Span>, next: nat)
    requires len <= |mem| && src <= |mem| + 1 && src + NEEDLE_LEN < len
    ensures stop ==> Scan(mem, len, src) == Found([])
    ensures !stop && abort ==> Scan(mem, len, src) == EmptyExpectation
    ensures !stop && !abort ==>
      src < next <= |mem| + 1 && Scan(mem, len, src) == Prepend(found, Scan(mem, len, next))
  {
    stop, abort, found, next := false, false, [], src;
    var slash := StrChr(mem, src, SLASH);
    if slash.None? {
      stop := true;
      return;
    }
    ScanAtSlash(mem, len, src, slash.value);
    var p := slash.value;
    if MatchesNeedle(mem, p) {
      var t := p + NEEDLE_LEN;
      var newline := StrChr(mem, t, NEWLINE);
      var end := if newline.None? then len else newline.value;
      ScanFromMatch(mem, len, p, end);
      if !(t < end) {
        abort := true;
        return;
      }
      found, next := [Span(t, end - t)], end + 1;
    } else {
      ScanFromMiss(mem, len, p);
      next := p + 1;
      assert Prepend([], Scan(mem, len, next)) == Scan(mem, len, next);
    }
  }

  /**
   * The expectations of a source buffer when nothing after it is read:
   * every span lies inside the buffer.
   */
  function Expects(s: seq<byte>): (r: Expectations)
    ensures r.Found? ==> SpansWithin(r.spans, |s|)
  {
    ScanWithin(s, |s|, 0);
    Scan(s, |s|, 0)
  }

  /** The texts the spans select from `s`. */
  function Texts(s: seq<byte>, spans: seq<Span>): (r: seq<seq<byte>>)
    requires SpansWithin(spans, |s|)
    ensures |r| == |spans|
  {
    if spans == [] then []
    else [s[spans[0].start..spans[0].start + spans[0].length]] + Texts(s, spans[1..])
  }

  /** A line that is a well-formed expectation: non-empty, with no newline and no NUL. */
  predicate GoodText(e: seq<byte>) {
    |e| > 0 && NoNul(e) && forall k | 0 <= k < |e| :: e[k] != NEWLINE
  }

  /** The source lines `// expect: e` for each `e`, in order. */
  function Render(es: seq<seq<byte>>): seq<byte> {
    if es == [] then [] else NEEDLE + es[0] + [NEWLINE] + Render(es[1..])
  }

  /** Where the spans of `Render(es)` sit when it starts at `src`. */
  function RenderedSpans(src: nat, es: seq<seq<byte>>): seq<Span>
    decreases |es|
  {
    if es == [] then []
    else [Span(src + NEEDLE_LEN, |es[0]|)] + RenderedSpans(src + NEEDLE_LEN + |es[0]| + 1, es[1..])
  }

  /** The parts of one rendered line followed by the rest. */
  lemma RenderedParts(w: seq<byte>, e: seq<byte>, rest: seq<byte>)
    requires w == NEEDLE + e + [NEWLINE] + rest
    ensures |w| == NEEDLE_LEN + |e| + 1 + |rest|
    ensures w[..NEEDLE_LEN] == NEEDLE && w[NEEDLE_LEN..NEEDLE_LEN + |e|] == e
    ensures w[NEEDLE_LEN + |e|] == NEWLINE && w[NEEDLE_LEN + |e| + 1..] == rest
  {
    assert |NEEDLE| == NEEDLE_LEN;
  }

  /** Where the first rendered line at `src` puts its text and what follows it. */
  lemma RenderedLineText(mem: seq<byte>, len: nat, src: nat, es: seq<seq<byte>>)
    requires len <= |mem| && src <= len && mem[src..len] == Render(es) && es != []
    ensures var t := src + NEEDLE_LEN;
            var end := t + |es[0]|;
            end < len && mem[src..t] == NEEDLE && mem[t..end] == es[0] && mem[end] == NEWLINE &&
            mem[end + 1..len] == Render(es[1..])
  {
    var w := mem[src..len];
    var e := es[0];
    RenderedParts(w, e, Render(es[1..]));
    var t := src + NEEDLE_LEN;
    var end := t + |e|;
    SliceOfSlice(mem, src, len, 0, NEEDLE_LEN);
    SliceOfSlice(mem, src, len, NEEDLE_LEN, NEEDLE_LEN + |e|);
    SliceOfSlice(mem, src, len, NEEDLE_LEN + |e| + 1, |w|);
    assert mem[end] == w[NEEDLE_LEN + |e|];
  }

  lemma SliceOfSlice(mem: seq<byte>, lo: nat, hi: nat, a: nat, b: nat)
    requires lo <= hi <= |mem| && a <= b <= hi - lo
    ensures mem[lo..hi][a..b] == mem[lo + a..lo + b]
  {
    assert forall i | 0 <= i < b - a :: mem[lo..hi][a..b][i] == mem[lo + a + i];
  }

  /** `strchr` finds the rendered line's `/` at `src` and its newline just after the text. */
  lemma RenderedLineFound(mem: seq<byte>, len: nat, src: nat, es: seq<seq<byte>>)
    requires len <= |mem| && src <= len && mem[src..len] == Render(es) && es != []
    requires GoodText(es[0])
    ensures var t := src + NEEDLE_LEN;
            var end := t + |es[0]|;
            end < len && MatchesNeedle(mem, src) &&
            StrChr(mem, src, SLASH) == Some(src) && StrChr(mem, t, NEWLINE) == Some(end)
  {
    var e := es[0];
    var t := src + NEEDLE_LEN;
    var end := t + |e|;
    RenderedLineText(mem, len, src, es);
    assert mem[src] == mem[src..t][0] == SLASH;
    StrChrFinds(mem, src, src, SLASH);
    forall j | t <= j < end
      ensures mem[j] != NEWLINE && mem[j] != NUL
    {
      assert mem[j] == mem[t..end][j - t] == e[j - t];
    }
    StrChrFinds(mem, t, end, NEWLINE);
  }

  /** The first rendered line, as `Scan` meets it at `src`. */
  lemma RenderedLine(mem: seq<byte>, len: nat, src: nat, es: seq<seq<byte>>)
    requires len <= |mem| && src <= len && mem[src..len] == Render(es) && es != []
    requires GoodText(es[0])
    ensures var t := src + NEEDLE_LEN;
            var end := t + |es[0]|;
            end < len && mem[end + 1..len] == Render(es[1..]) &&
            Scan(mem, len, src) == Prepend([Span(t, |es[0]|)], Scan(mem, len, end + 1))
  {
    var t := src + NEEDLE_LEN;
    var end := t + |es[0]|;
    RenderedLineText(mem, len, src, es);
    RenderedLineFound(mem, len, src, es);
    ScanAtSlash(mem, len, src, src);
    assert LineEnd(mem, len, t) == end;
    ScanFromMatch(mem, len, src, end);
  }

  /** Rendered expectations are found again, at their own positions. */
  lemma {:induction false} ScanRendered(mem: seq<byte>, len: nat, src: nat, es: seq<seq<byte>>)
    requires len <= |mem| && src <= len && mem[src..len] == Render(es)
    requires forall i | 0 <= i < |es| :: GoodText(es[i])
    ensures Scan(mem, len, src) == Found(RenderedSpans(src, es))
    decreases |es|
  {
    if es != [] {
      assert GoodText(es[0]);
      RenderedLine(mem, len, src, es);
      var next := src + NEEDLE_LEN + |es[0]| + 1;
      ScanRendered(mem, len, next, es[1..]);
    }
  }

  /** The rendered spans lie in the rendered text and select the expectations. */
  lemma {:induction false} RenderedTexts(mem: seq<byte>, len: nat, src: nat, es: seq<seq<byte>>)
    requires len <= |mem| && src <= len && mem[src..len] == Render(es)
    requires forall i | 0 <= i < |es| :: GoodText(es[i])
    ensures SpansWithin(RenderedSpans(src, es), |mem|)
    ensures Texts(mem, RenderedSpans(src, es)) == es
    decreases |es|
  {
    if es != [] {
      RenderedLineText(mem, len, src, es);
      var next := src + NEEDLE_LEN + |es[0]| + 1;
      RenderedTexts(mem, len, next, es[1..]);
      var spans := RenderedSpans(src, es);
      assert spans[1..] == RenderedSpans(next, es[1..]);
    }
  }

  /**
   * Round trip: writing each expectation as a `// expect: ` line and
   * extracting again gives back the same texts, whatever memory follows.
   */
  lemma ExpectsRoundTrip(es: seq<seq<byte>>, after: seq<byte>)
    requires forall i | 0 <= i < |es| :: GoodText(es[i])
    ensures var mem := Render(es) + after;
            var r := Scan(mem, |Render(es)|, 0);
            r.Found? && SpansWithin(r.spans, |mem|) && Texts(mem, r.spans) == es
  {
    var mem := Render(es) + after;
    assert mem[0..|Render(es)|] == Render(es);
    ScanRendered(mem, |Render(es)|, 0, es);
    RenderedTexts(mem, |Render(es)|, 0, es);
  }

  /**
   * As written, the search for the end of the last expectation runs on
   * past the buffer: with `// expect: 12` as the whole file and `3\n` in
   * the memory after it, the expectation read is `123`, a span that ends
   * past the buffer. Kept inside the buffer, the expectation is `12`.
   */
  lemma ExpectationOverRead()
    ensures var s := Bytes("// expect: 12");
            var mem := s + Bytes("3\n");
            Scan(mem, |s|, 0) == Found([Span(11, 3)]) && 11 + 3 > |s| &&
            Expects(s) == Found([Span(11, 2)])
  {
    var s := Bytes("// expect: 12");
    var mem := s + Bytes("3\n");
    assert mem[0] == SLASH;
    StrChrFinds(mem, 0, 0, SLASH);
    assert mem[..11] == NEEDLE;
    StrChrFinds(mem, 11, 14, NEWLINE);
    ScanAtSlash(mem, |s|, 0, 0);
    StrChrFinds(s, 0, 0, SLASH);
    assert s[..11] == NEEDLE;
    assert StrChr(s, 13, NEWLINE) == None;
    assert StrChr(s, 12, NEWLINE) == None;
    assert StrChr(s, 11, NEWLINE) == None;
    ScanAtSlash(s, |s|, 0, 0);
  }

  // ---------------------------------------------------------------------
  // Running a test.

  /** The outcome of one test: passed, failed, or the harness aborted on a `CHECK`. */
  datatype Verdict = Pass | Fail | Abort

  /**
   * The lines of the program's output from `out`: each runs to the next
   * newline (or the end of the `n` bytes read); an empty line aborts.
   */
  function OutputLines(buf: seq<byte>, n: nat, out: nat): (r: Option<seq<seq<byte>>>)
    requires n <= |buf| && out <= |buf| + 1
    ensures r.Some? ==> forall i | 0 <= i < |r.value| :: |r.value[i]| > 0
    decreases |buf| + 1 - out
  {
    if !(out < n) then Some([])
    else
      var end := LineEnd(buf, n, out);
      if !(out < end) then None
      else
        match OutputLines(buf, n, end + 1)
        case None => None
        case Some(rest) => Some([buf[out..end]] + rest)
  }

  /** The expected text of output line `i`: empty once the expectations run out. */
  function ExpectedLine(expects: seq<seq<byte>>, i: nat): seq<byte> {
    if i < |expects| then expects[i] else []
  }

  /** The comparison rule: a test fails iff some output line differs from its expected line. */
  function Judge(lines: Option<seq<seq<byte>>>, expects: seq<seq<byte>>): Verdict {
    match lines
    case None => Abort
    case Some(ls) =>
      if exists i | 0 <= i < |ls| :: ls[i] != ExpectedLine(expects, i) then Fail else Pass
  }

  function PrependLines(seen: seq<seq<byte>>, r: Option<seq<seq<byte>>>): Option<seq<seq<byte>>> {
    if r.Some? then Some(seen + r.value) else None
  }

  /** One round of `OutputLines` at a non-empty line ending at `end`. */
  lemma OutputLineAt(buf: seq<byte>, n: nat, out: nat, seen: seq<seq<byte>>)
    requires n <= |buf| && out < n && out < LineEnd(buf, n, out)
    ensures var end := LineEnd(buf, n, out);
            PrependLines(seen, OutputLines(buf, n, out)) ==
            PrependLines(seen + [buf[out..end]], OutputLines(buf, n, end + 1))
  {
    var end := LineEnd(buf, n, out);
    var rest := OutputLines(buf, n, end + 1);
    if rest.Some? {
      assert seen + ([buf[out..end]] + rest.value) == (seen + [buf[out..end]]) + rest.value;
    }
  }

  /**
   * The comparison loop of `simple_test_run` over the `n` bytes of output
   * in `buf`.
   */
  method CompareOutput(buf: seq<byte>, n: nat, expects: seq<seq<byte>>) returns (v: Verdict)
    requires n <= |buf|
    ensures v == Judge(OutputLines(buf, n, 0), expects)
  {
    var out := 0;
    var line := 0;
    var differed := false;
    ghost var seen: seq<seq<byte>> := [];
    assert PrependLines(seen, OutputLines(buf, n, out)) == OutputLines(buf, n, 0) by {
      if OutputLines(buf, n, 0).Some? {
        assert seen + OutputLines(buf, n, 0).value == OutputLines(buf, n, 0).value;
      }
    }
    while out < n
      invariant out <= |buf| + 1 && line == |seen|
      invariant OutputLines(buf, n, 0) == PrependLines(seen, OutputLines(buf, n, out))
      invariant differed <==> exists i | 0 <= i < |seen| :: seen[i] != ExpectedLine(expects, i)
      decreases |buf| + 1 - out
    {
      var found := StrChr(buf, out, NEWLINE);
      var end := if found.None? then n else found.value;
      if !(out < end) {
        return Abort;
      }
      var expected := ExpectedLine(expects, line);
      if |expected| != end - out || expected != buf[out..end] {
        differed := true;
      }
      OutputLineAt(buf, n, out, seen);
      seen := seen + [buf[out..end]];
      out := end + 1;
      line := line + 1;
    }
    assert seen + [] == seen;
    v := if differed then Fail else Pass;
  }

  /**
   * Since no output line is empty, a test passes exactly when its output
   * lines are the first expectations, in order; expectations beyond the
   * last output line are never compared.
   */
  lemma PassIffPrefix(lines: seq<seq<byte>>, expects: seq<seq<byte>>)
    requires forall i | 0 <= i < |lines| :: |lines[i]| > 0
    ensures Judge(Some(lines), expects) == Pass <==> |lines| <= |expects| && lines == expects[..|lines|]
  {
    if |lines| > |expects| {
      assert lines[|expects|] != ExpectedLine(expects, |expects|);
    } else if lines == expects[..|lines|] {
      assert forall i | 0 <= i < |lines| :: lines[i] == ExpectedLine(expects, i);
    } else {
      var i :| 0 <= i < |lines| && lines[i] != expects[..|lines|][i];
      assert lines[i] != ExpectedLine(expects, i);
    }
  }

  /** Extra expectations after a passing output keep it passing. */
  lemma SurplusIgnored(lines: seq<seq<byte>>, expects: seq<seq<byte>>, more: seq<seq<byte>>)
    requires forall i | 0 <= i < |lines| :: |lines[i]| > 0
    requires Judge(Some(lines), expects) == Pass
    ensures Judge(Some(lines), expects + more) == Pass
  {
    PassIffPrefix(lines, expects);
    assert (expects + more)[..|lines|] == expects[..|lines|];
    PassIffPrefix(lines, expects + more);
  }

  /** A name the harness accepts: longer than `.kts`, shorter than `MAXPATHLEN`, ending in `.kts`. */
  predicate IsTestName(name: seq<byte>) {
    NoNul(name) && 4 < |name| < MAXPATHLEN && name[|name| - 4..] == Bytes(".kts")
  }

  /**
   * The executable path of `simple_test_run`: the name copied into a zeroed
   * `MAXPATHLEN` buffer with its final `kts` replaced by `exe`.
   */
  method ExeName(name: seq<byte>) returns (argv: array<byte>)
    requires IsTestName(name)
    ensures fresh(argv) && argv.Length == MAXPATHLEN
    ensures CString(argv[..]) == name[..|name| - 3] + Bytes("exe")
  {
    argv := new byte[MAXPATHLEN](j => if 0 <= j < |name| then name[j] else NUL);
    var len := |name|;
    var exe := Bytes("exe");
    argv[len - 1] := exe[2];
    argv[len - 2] := exe[1];
    argv[len - 3] := exe[0];
    var text := name[..len - 3] + exe;
    assert argv[..] == text + Zeros(MAXPATHLEN - len);
    CStringOfPadded(text, Zeros(MAXPATHLEN - len));
  }

  /**
   * The verdict of a run test, from its source text, the bytes that follow
   * the unterminated source buffer in memory, its exit code and its output.
   */
  function SimpleVerdict(source: seq<byte>, after: seq<byte>, retCode: int, buf: seq<byte>, n: nat): Verdict
    requires n <= |buf|
  {
    if |source| == 0 then Abort
    else
      var mem := source + after;
      ScanWithin(mem, |source|, 0);
      match Scan(mem, |source|, 0)
      case EmptyExpectation => Abort
      case Found(spans) =>
        if retCode != 0 then Fail
        else
          Judge(OutputLines(buf, n, 0), Texts(mem, spans))
  }

  /**
   * `simple_test_run` once the files are read: `source` is the test's
   * text, read into a buffer of exactly its size with no NUL after it, and
   * `after` the memory that follows that buffer, which the search for the
   * end of an expectation can run into; `retCode` and the `n` bytes of
   * `buf` are what running the executable gave. An empty source trips the
   * `CHECK` in `expects_from_string`.
   */
  method SimpleTestRun(name: seq<byte>, source: seq<byte>, after: seq<byte>, retCode: int, buf: seq<byte>, n: nat)
    returns (v: Verdict, command: seq<byte>)
    requires IsTestName(name) && n <= |buf|
    ensures command == name[..|name| - 3] + Bytes("exe")
    ensures v == SimpleVerdict(source, after, retCode, buf, n)
  {
    var argv := ExeName(name);
    command := CString(argv[..]);
    if |source| == 0 {
      return Abort, command;
    }
    var mem := source + after;
    var expects := ExpectsFromString(mem, |source|);
    if expects.EmptyExpectation? {
      return Abort, command;
    }
    if retCode != 0 {
      return Fail, command;
    }
    ScanWithin(mem, |source|, 0);
    v := CompareOutput(buf, n, Texts(mem, expects.spans));
  }

  /**
   * A test whose source is the rendered expectations passes when its
   * output lines are the first of them, whatever memory follows the source.
   */
  lemma RenderedTestPasses(es: seq<seq<byte>>, after: seq<byte>, buf: seq<byte>, n: nat, lines: seq<seq<byte>>)
    requires |es| > 0 && forall i | 0 <= i < |es| :: GoodText(es[i])
    requires n <= |buf| && OutputLines(buf, n, 0) == Some(lines)
    requires |lines| <= |es| && lines == es[..|lines|]
    ensures SimpleVerdict(Render(es), after, 0, buf, n) == Pass
  {
    ExpectsRoundTrip(es, after);
    PassIffPrefix(lines, es);
  }

  /**
   * `err_test_run`: the command `./mktc <name>`, cut to `MAXPATHLEN - 1`
   * bytes by `snprintf`; the test passes iff the compiler exits non-zero.
   */
  method ErrTestRun(name: seq<byte>, retCode: int) returns (v: Verdict, command: seq<byte>)
    requires IsTestName(name)
    ensures v == Pass <==> retCode != 0
    ensures v != Abort
    ensures |command| < MAXPATHLEN && command <= Bytes("./mktc ") + name
    ensures |Bytes("./mktc ") + name| < MAXPATHLEN ==> command == Bytes("./mktc ") + name
  {
    var full := Bytes("./mktc ") + name;
    command := if |full| < MAXPATHLEN then full else full[..MAXPATHLEN - 1];
    if retCode == 0 {
      v := Fail;
    } else {
      v := Pass;
    }
  }
}
