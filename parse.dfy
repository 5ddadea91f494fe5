/**
 * The parser of `parse.h`: it tokenizes the whole source up front, then
 * walks the token ids with a cursor, pushing nodes into an arena and one
 * statement index per `print(<primary>)`.
 *
 * The pure functions `NextNonComment`, `PrintAt` and `ParseFrom` say what the
 * cursor-walking methods compute; the lemmas after them state what the
 * grammar accepts.
 */
module Parse {
  import opened Base
  import opened Lex
  import Decimal

  // ---------------------------------------------------------------------------
  // Tokenizing the whole source (`parser_init`)

  /** The tokens `lex_next` yields from cursor `i` up to and including the end-of-input token. */
  function Tokenize(src: seq<byte>, i: nat): (ts: seq<Token>)
    requires i <= |src|
    ensures |ts| >= 1 && ts[0] == Scan(src, i)
    decreases |src| - i
  {
    var t := Scan(src, i);
    ScanSpan(src, i);
    if t.id == Eof then [t] else [t] + Tokenize(src, t.loc.end)
  }

  function Ids(ts: seq<Token>): (r: seq<TokenId>)
    ensures |r| == |ts| && forall k | 0 <= k < |ts| :: r[k] == ts[k].id
  {
    seq(|ts|, k requires 0 <= k < |ts| => ts[k].id)
  }

  function Locs(ts: seq<Token>): (r: seq<Loc>)
    ensures |r| == |ts| && forall k | 0 <= k < |ts| :: r[k] == ts[k].loc
  {
    seq(|ts|, k requires 0 <= k < |ts| => ts[k].loc)
  }

  /** The token stream ends with its only end-of-input token. */
  lemma {:induction false} TokenizeEndsWithEof(src: seq<byte>, i: nat)
    requires i <= |src|
    ensures var ts := Tokenize(src, i);
      ts[|ts| - 1].id == Eof && forall k | 0 <= k < |ts| - 1 :: ts[k].id != Eof
    decreases |src| - i
  {
    var t := Scan(src, i);
    ScanSpan(src, i);
    if t.id != Eof {
      TokenizeEndsWithEof(src, t.loc.end);
      var rest := Tokenize(src, t.loc.end);
      assert Tokenize(src, i) == [t] + rest;
    }
  }

  /** One step of `parser_init`'s loop: the stream from `i` is the token scanned there, then the stream from its end. */
  lemma TokenizeStep(src: seq<byte>, i: nat)
    requires i <= |src|
    ensures var t := Scan(src, i);
      i <= t.loc.start <= t.loc.end <= |src|
      && (t.id == Eof ==> Tokenize(src, i) == [t])
      && (t.id != Eof ==> i < t.loc.end && Tokenize(src, i) == [t] + Tokenize(src, t.loc.end))
  {
    ScanSpan(src, i);
  }

  /** Appending the token scanned at `at` to the tokens before `at`. */
  lemma TokenizeAppend(src: seq<byte>, done: seq<Token>, at: nat, t: Token)
    requires at <= |src| && Tokenize(src, 0) == done + Tokenize(src, at) && t == Scan(src, at)
    ensures at <= t.loc.end <= |src|
    ensures t.id == Eof ==> Tokenize(src, 0) == done + [t]
    ensures t.id != Eof ==> at < t.loc.end && Tokenize(src, 0) == (done + [t]) + Tokenize(src, t.loc.end)
  {
    TokenizeStep(src, at);
  }

  /** The ids and spans of one more token are the old ones followed by its id and span. */
  lemma IdsLocsAppend(done: seq<Token>, t: Token)
    ensures Ids(done + [t]) == Ids(done) + [t.id] && Locs(done + [t]) == Locs(done) + [t.loc]
  {
  }

  /** Token spans lie in `[lo, hi]`, in order and without overlap. */
  predicate SpansWithin(ts: seq<Token>, lo: int, hi: int) {
    (forall k | 0 <= k < |ts| :: lo <= ts[k].loc.start <= ts[k].loc.end <= hi)
    && (forall k | 0 < k < |ts| :: ts[k - 1].loc.end <= ts[k].loc.start)
  }

  /** Token spans lie inside the source, in order and without overlap. */
  lemma {:induction false} TokenizeSpans(src: seq<byte>, i: nat)
    requires i <= |src|
    ensures SpansWithin(Tokenize(src, i), i, |src|)
    decreases |src| - i
  {
    var t := Scan(src, i);
    ScanSpan(src, i);
    if t.id != Eof {
      var j := t.loc.end;
      TokenizeSpans(src, j);
      var rest := Tokenize(src, j);
      var ts := Tokenize(src, i);
      assert ts == [t] + rest;
      forall k | 0 < k < |ts|
        ensures i <= ts[k].loc.start <= ts[k].loc.end <= |src|
        ensures ts[k - 1].loc.end <= ts[k].loc.start
      {
        assert ts[k] == rest[k - 1];
        if k > 1 {
          assert ts[k - 1] == rest[k - 2];
        }
      }
    }
  }

  /** Each token is what `lex_next` returns from the end of the previous one. */
  lemma {:induction false} TokenizeScans(src: seq<byte>, i: nat, k: nat)
    requires i <= |src| && 0 < k < |Tokenize(src, i)|
    ensures Tokenize(src, i)[k - 1].loc.end <= |src|
    ensures Tokenize(src, i)[k] == Scan(src, Tokenize(src, i)[k - 1].loc.end)
    decreases |src| - i
  {
    var t := Scan(src, i);
    ScanSpan(src, i);
    var rest := Tokenize(src, t.loc.end);
    assert Tokenize(src, i) == [t] + rest;
    if k > 1 {
      TokenizeScans(src, t.loc.end, k - 1);
    }
  }

  /** Where the lexer was when it produced token `k`. */
  function TokenPos(src: seq<byte>, k: nat): (p: nat)
    requires k < |Tokenize(src, 0)|
    ensures p <= |src| && Tokenize(src, 0)[k] == Scan(src, p)
  {
    if k == 0 then 0 else TokenizeScans(src, 0, k); Tokenize(src, 0)[k - 1].loc.end
  }

  /** Token ids as the parser needs them: the last one is the end-of-input token. */
  predicate EndsWithEof(ids: seq<TokenId>) {
    |ids| > 0 && ids[|ids| - 1] == Eof
  }

  // ---------------------------------------------------------------------------
  // Nodes

  /**
   * `ast_node_t`, each node naming its tokens by index: the literal nodes hold
   * their one token, a print node its argument node, its `print` keyword and
   * its closing parenthesis.
   */
  datatype Node =
    | BoolNode(tok: nat)
    | StringNode(tok: nat)
    | IntNode(tok: nat)
    | PrintNode(arg: nat, keyword: nat, rparen: nat)

  function FirstToken(n: Node): nat {
    match n
    case PrintNode(_, keyword, _) => keyword
    case _ => n.tok
  }

  function LastToken(n: Node): nat {
    match n
    case PrintNode(_, _, rparen) => rparen
    case _ => n.tok
  }

  predicate IsPrimary(id: TokenId) {
    id == True || id == False || id == StringLiteral || id == Int
  }

  /** The node `parser_parse_primary` pushes for a primary token. */
  function PrimaryNode(id: TokenId, tok: nat): (n: Node)
    requires IsPrimary(id)
    ensures !n.PrintNode? && n.tok == tok
  {
    match id
    case StringLiteral => StringNode(tok)
    case Int => IntNode(tok)
    case _ => BoolNode(tok)
  }

  /** A node whose tokens exist and whose print argument is an earlier literal node. */
  predicate NodeOk(nodes: seq<Node>, i: nat, ids: seq<TokenId>)
    requires i < |nodes|
  {
    match nodes[i]
    case PrintNode(arg, keyword, rparen) =>
      arg < i && !nodes[arg].PrintNode? && keyword < |ids| && rparen < |ids|
      && ids[keyword] == BuiltinPrint && ids[rparen] == RParen
    case BoolNode(t) => t < |ids| && (ids[t] == True || ids[t] == False)
    case StringNode(t) => t < |ids| && ids[t] == StringLiteral
    case IntNode(t) => t < |ids| && ids[t] == Int
  }

  /** A print node over the last node of the arena, a literal, is well formed when its tokens are `print` and `)`. */
  lemma PrintNodeOk(nodes: seq<Node>, arg: nat, keyword: nat, rparen: nat, ids: seq<TokenId>)
    requires arg + 1 == |nodes| && !nodes[arg].PrintNode?
    requires keyword < |ids| && rparen < |ids| && ids[keyword] == BuiltinPrint && ids[rparen] == RParen
    ensures NodeOk(nodes + [PrintNode(arg, keyword, rparen)], |nodes|, ids)
  {
    assert (nodes + [PrintNode(arg, keyword, rparen)])[arg] == nodes[arg];
  }

  /** Appending a well-formed node keeps every earlier node well formed. */
  lemma NodesOkAppend(nodes: seq<Node>, n: Node, ids: seq<TokenId>)
    requires forall i | 0 <= i < |nodes| :: NodeOk(nodes, i, ids)
    requires NodeOk(nodes + [n], |nodes|, ids)
    ensures forall i | 0 <= i < |nodes| + 1 :: NodeOk(nodes + [n], i, ids)
  {
    forall i | 0 <= i < |nodes|
      ensures NodeOk(nodes + [n], i, ids)
    {
      assert (nodes + [n])[i] == nodes[i];
      assert NodeOk(nodes, i, ids);
      if nodes[i].PrintNode? {
        assert (nodes + [n])[nodes[i].arg] == nodes[nodes[i].arg];
      }
    }
  }

  /** A position and length in the source buffer. */
  datatype Span = Span(start: int, len: int)

  /**
   * `parser_ast_node_source`: the source text of a node, from the start of its
   * first token to the end of its last; a string literal loses its two quotes.
   * The length is a `usize`, so a shorter span wraps around.
   */
  function NodeSource(locs: seq<Loc>, n: Node): Span
    requires FirstToken(n) < |locs| && LastToken(n) < |locs|
  {
    var first := locs[FirstToken(n)];
    var last := locs[LastToken(n)];
    if n.StringNode? then Span(first.start + 1, (last.end - first.start - 2) % USIZE_MODULUS)
    else Span(first.start, (last.end - first.start) % USIZE_MODULUS)
  }

  /** The span of a string token in the source: an opening quote, then no quote up to its closing quote or the end of input. */
  predicate StringSpanOk(src: seq<byte>, l: Loc) {
    l.start < l.end <= |src| && src[l.start] == QUOTE
    && QuoteFree(src, l.start + 1, l.end - 1)
    && ((l.end - l.start >= 2 && src[l.end - 1] == QUOTE) || l.end == |src|)
  }

  /** Every string token of the stream has such a span. */
  lemma StringTokenShape(src: seq<byte>, k: nat)
    requires k < |Tokenize(src, 0)| && Tokenize(src, 0)[k].id == StringLiteral
    ensures StringSpanOk(src, Tokenize(src, 0)[k].loc)
  {
    var p := TokenPos(src, k);
    StringScanShape(src, p);
  }

  /** `StringTokenShape` for the token the lexer returns at cursor `p`. */
  lemma StringScanShape(src: seq<byte>, p: nat)
    requires p <= |src| && Scan(src, p).id == StringLiteral
    ensures StringSpanOk(src, Scan(src, p).loc)
  {
    ScanString(src, p);
    ScanSpan(src, p);
  }

  /**
   * The source of a string node whose literal is closed is exactly the text
   * between its quotes, and that text holds no quote. `StringTokenShape`
   * gives the lexer's string tokens the span this asks for.
   */
  lemma StringNodeSource(src: seq<byte>, locs: seq<Loc>, k: nat)
    requires |src| < USIZE_MODULUS && k < |locs| && StringSpanOk(src, locs[k])
    requires 2 <= locs[k].end - locs[k].start && src[locs[k].end - 1] == QUOTE
    ensures var l := locs[k];
      var sp := NodeSource(locs, StringNode(k));
      sp == Span(l.start + 1, l.end - l.start - 2)
      && src[sp.start - 1] == QUOTE && sp.start + sp.len < |src| && src[sp.start + sp.len] == QUOTE
      && QuoteFree(src, sp.start, sp.start + sp.len)
  {
  }

  /** No byte of `src[lo..hi]` is a quote. */
  predicate QuoteFree(src: seq<byte>, lo: int, hi: int)
    requires 0 <= lo && hi <= |src|
  {
    forall j | lo <= j < hi :: src[j] != QUOTE
  }

  /** A lone opening quote is a string token whose node length wraps around to `2^64 - 1`. */
  lemma UnterminatedQuoteLengthWraps()
    ensures NodeSource(Locs(Tokenize(Bytes("\""), 0)), StringNode(0)).len == USIZE_MODULUS - 1
  {
    var src := Bytes("\"");
    assert src[0] == QUOTE;
    assert SkipWhitespace(src, 0) == 0;
    assert QuoteAt(src, 1) == 1;
    assert Tokenize(src, 0)[0] == Token(StringLiteral, Loc(0, 1));
  }

  /** An integer token: a non-zero digit, then digits and `_`. */
  lemma IntTokenShape(src: seq<byte>, k: nat)
    requires k < |Tokenize(src, 0)| && Tokenize(src, 0)[k].id == Int
    ensures IntSpanOk(src, Tokenize(src, 0)[k].loc)
  {
    var p := TokenPos(src, k);
    IntScanShape(src, p);
  }

  /** `IntTokenShape` for the token the lexer returns at cursor `p`. */
  lemma IntScanShape(src: seq<byte>, p: nat)
    requires p <= |src| && Scan(src, p).id == Int
    ensures IntSpanOk(src, Scan(src, p).loc)
  {
    ScanSpan(src, p);
    var s := SkipWhitespace(src, p);
    assert s < |src|;
    ScanNumber(src, p);
  }

  /** The source of an integer node is its whole token: a non-zero digit, then digits and `_`. */
  lemma IntNodeSource(src: seq<byte>, k: nat)
    requires |src| < USIZE_MODULUS && k < |Tokenize(src, 0)| && Tokenize(src, 0)[k].id == Int
    ensures var sp := NodeSource(Locs(Tokenize(src, 0)), IntNode(k));
      1 <= sp.len && 0 <= sp.start && sp.start + sp.len <= |src|
      && IsIntStart(src[sp.start])
      && forall j | sp.start < j < sp.start + sp.len :: IsIntContinue(src[j])
  {
    IntTokenShape(src, k);
  }

  /** The span of an integer token in the source: a non-zero digit, then digits and `_`. */
  predicate IntSpanOk(src: seq<byte>, l: Loc) {
    l.start < l.end <= |src| && IsIntStart(src[l.start])
    && forall j | l.start < j < l.end :: IsIntContinue(src[j])
  }

  /** Every integer token of the stream has such a span. */
  lemma IntTokensInSource(src: seq<byte>)
    ensures var ts := Tokenize(src, 0);
      forall k | 0 <= k < |ts| && ts[k].id == Int :: IntSpanOk(src, ts[k].loc)
  {
    var ts := Tokenize(src, 0);
    forall k | 0 <= k < |ts| && ts[k].id == Int
      ensures IntSpanOk(src, ts[k].loc)
    {
      IntTokenShape(src, k);
    }
  }

  // ---------------------------------------------------------------------------
  // What the cursor-walking procedures compute

  /** The first token at or after `i` that is not a comment. */
  function NextNonComment(ids: seq<TokenId>, i: nat): (k: nat)
    requires EndsWithEof(ids) && i < |ids|
    ensures i <= k < |ids| && ids[k] != Comment
    ensures forall j | i <= j < k :: ids[j] == Comment
    decreases |ids| - i
  {
    if ids[i] != Comment then i else NextNonComment(ids, i + 1)
  }

  /**
   * How `parser_parse_builtin_print` ends when the cursor is at `i`: not a
   * print at all; a print that fails with the cursor left at `next` (having
   * pushed the argument node when `arg` is set); or a whole `print(<primary>)`.
   */
  datatype PrintResult =
    | NoPrint
    | PrintFailed(next: nat, arg: Option<nat>)
    | Printed(lparen: nat, rparen: nat)

  function PrintAt(ids: seq<TokenId>, i: nat): (r: PrintResult)
    requires EndsWithEof(ids) && i < |ids|
    ensures r.PrintFailed? ==> i < r.next <= |ids|
    ensures r.PrintFailed? && r.arg.Some? ==> r.arg.value < r.next - 1 && IsPrimary(ids[r.arg.value])
    ensures r.Printed? ==>
      i < r.lparen && r.lparen + 1 < r.rparen < |ids| - 1
      && ids[r.lparen] == LParen && IsPrimary(ids[r.lparen + 1]) && ids[r.rparen] == RParen
  {
    if ids[i] != BuiltinPrint then NoPrint else PrintArgs(ids, i + 1)
  }

  /** What follows the `print` keyword when the cursor is at `j`: `(`, a primary and `)`, skipping comments. */
  function PrintArgs(ids: seq<TokenId>, j: nat): (r: PrintResult)
    requires EndsWithEof(ids) && j < |ids|
    ensures !r.NoPrint?
    ensures r.PrintFailed? ==> j < r.next <= |ids|
    ensures r.PrintFailed? && r.arg.Some? ==> r.arg.value < r.next - 1 && IsPrimary(ids[r.arg.value])
    ensures r.Printed? ==>
      j <= r.lparen && r.lparen + 1 < r.rparen < |ids| - 1
      && ids[r.lparen] == LParen && IsPrimary(ids[r.lparen + 1]) && ids[r.rparen] == RParen
  {
    var l := NextNonComment(ids, j);
    if ids[l] != LParen then PrintFailed(l + 1, None)
    else if !IsPrimary(ids[l + 1]) then PrintFailed(l + 1, None)
    else
      var r := NextNonComment(ids, l + 2);
      if ids[r] != RParen then PrintFailed(r + 1, Some(l + 1)) else Printed(l, r)
  }

  /** How a parse ends: accepted, rejected, or reading the token id one past the buffer. */
  datatype Outcome = Accepted | Rejected | ReadPastEnd

  /** Where an accepted `print(<primary>)` sits: its keyword, `(` and `)` token indices. */
  datatype PrintSite = PrintSite(keyword: nat, lparen: nat, rparen: nat)

  /** The outcome of `parser_parse` from cursor `i` and, in order, the prints it records as statements. */
  datatype Verdict = Verdict(outcome: Outcome, sites: seq<PrintSite>)

  /**
   * `parser_parse` as written: after any print attempt that does not succeed
   * it reads the token id at the cursor, even when a failed print has moved
   * the cursor past the end-of-input token.
   */
  function ParseFrom(ids: seq<TokenId>, i: nat): Verdict
    requires EndsWithEof(ids) && i < |ids|
    decreases |ids| - i, 1
  {
    match PrintAt(ids, i)
    case Printed(l, r) =>
      var v := ParseFrom(ids, r + 1);
      Verdict(v.outcome, [PrintSite(i, l, r)] + v.sites)
    case NoPrint => AfterPrint(ids, i)
    case PrintFailed(next, _) =>
      if next == |ids| then Verdict(ReadPastEnd, []) else AfterPrint(ids, next)
  }

  /** The tail of the loop: skip a comment, accept at the end-of-input token, reject anything else. */
  function AfterPrint(ids: seq<TokenId>, j: nat): Verdict
    requires EndsWithEof(ids) && j < |ids|
    decreases |ids| - j, 0
  {
    if ids[j] == Comment then ParseFrom(ids, j + 1)
    else if ids[j] == Eof then Verdict(Accepted, [])
    else Verdict(Rejected, [])
  }

  // ---------------------------------------------------------------------------
  // What the grammar accepts

  /** The tokens of `print(<p>)`. */
  function PrintTokens(p: TokenId): seq<TokenId> {
    [BuiltinPrint, LParen, p, RParen]
  }

  function Concat(stmts: seq<seq<TokenId>>): seq<TokenId> {
    if stmts == [] then [] else stmts[0] + Concat(stmts[1..])
  }

  /**
   * A program of `n` well-formed print statements followed by end of input
   * is accepted with `n` statements, the `k`-th at tokens `i + 4k` to `i + 4k + 3`.
   */
  lemma {:induction false} ParseAcceptsPrints(primaries: seq<TokenId>, ids: seq<TokenId>, i: nat)
    requires forall k | 0 <= k < |primaries| :: IsPrimary(primaries[k])
    requires EndsWithEof(ids) && i + 4 * |primaries| < |ids|
    requires ids[i..i + 4 * |primaries|] == Concat(seq(|primaries|, k requires 0 <= k < |primaries| => PrintTokens(primaries[k])))
    requires ids[i + 4 * |primaries|] == Eof
    ensures var v := ParseFrom(ids, i);
      v.outcome == Accepted && |v.sites| == |primaries|
      && forall k | 0 <= k < |primaries| :: v.sites[k] == PrintSite(i + 4 * k, i + 4 * k + 1, i + 4 * k + 3)
    decreases |primaries|
  {
    if primaries == [] {
      assert PrintAt(ids, i) == NoPrint;
    } else {
      FirstPrintStatement(primaries, ids, i);
      var rest := primaries[1..];
      ParseAcceptsPrints(rest, ids, i + 4);
      var v, w := ParseFrom(ids, i), ParseFrom(ids, i + 4);
      assert v.sites == [PrintSite(i, i + 1, i + 3)] + w.sites;
      forall k | 0 <= k < |primaries| ensures v.sites[k] == PrintSite(i + 4 * k, i + 4 * k + 1, i + 4 * k + 3) {
        if k > 0 {
          assert v.sites[k] == w.sites[k - 1];
        }
      }
    }
  }

  /** The first of a run of well-formed print statements is accepted, and the rest of the run follows it. */
  lemma FirstPrintStatement(primaries: seq<TokenId>, ids: seq<TokenId>, i: nat)
    requires primaries != [] && forall k | 0 <= k < |primaries| :: IsPrimary(primaries[k])
    requires EndsWithEof(ids) && i + 4 * |primaries| < |ids|
    requires ids[i..i + 4 * |primaries|] == Concat(seq(|primaries|, k requires 0 <= k < |primaries| => PrintTokens(primaries[k])))
    ensures PrintAt(ids, i) == Printed(i + 1, i + 3)
    ensures var rest := primaries[1..];
      ids[i + 4..i + 4 + 4 * |rest|] == Concat(seq(|rest|, k requires 0 <= k < |rest| => PrintTokens(rest[k])))
  {
    var stmts := seq(|primaries|, k requires 0 <= k < |primaries| => PrintTokens(primaries[k]));
    assert ids[i..i + 4] == PrintTokens(primaries[0]) by {
      assert Concat(stmts) == stmts[0] + Concat(stmts[1..]);
      assert ids[i..i + 4] == ids[i..i + 4 * |primaries|][..4];
    }
    assert ids[i] == BuiltinPrint && ids[i + 1] == LParen && ids[i + 2] == primaries[0] && ids[i + 3] == RParen by {
      assert ids[i..i + 4][0] == ids[i] && ids[i..i + 4][1] == ids[i + 1];
      assert ids[i..i + 4][2] == ids[i + 2] && ids[i..i + 4][3] == ids[i + 3];
    }
    var rest := primaries[1..];
    assert seq(|rest|, k requires 0 <= k < |rest| => PrintTokens(rest[k])) == stmts[1..];
    assert ids[i + 4..i + 4 + 4 * |rest|] == Concat(stmts[1..]) by {
      assert ids[i..i + 4 * |primaries|] == stmts[0] + Concat(stmts[1..]);
      assert ids[i + 4..i + 4 + 4 * |rest|] == ids[i..i + 4 * |primaries|][4..];
    }
  }


  /** Comments between statements are skipped. */
  lemma ParseSkipsComment(ids: seq<TokenId>, i: nat)
    requires EndsWithEof(ids) && i < |ids| && ids[i] == Comment
    ensures ParseFrom(ids, i) == ParseFrom(ids, i + 1)
  {
  }

  /** A statement that starts with anything but `print`, a comment or end of input is rejected. */
  lemma ParseRejectsStrayToken(ids: seq<TokenId>, i: nat)
    requires EndsWithEof(ids) && i < |ids|
    requires ids[i] !in {BuiltinPrint, Comment, Eof}
    ensures ParseFrom(ids, i) == Verdict(Rejected, [])
  {
  }

  /**
   * A failed print is not reported by itself: `print 1` consumes the `1`
   * where `(` was expected, then finds end of input and accepts, recording
   * no statement.
   */
  lemma ParseAcceptsPrintWithoutParens()
    ensures ParseFrom([BuiltinPrint, Int, Eof], 0) == Verdict(Accepted, [])
  {
    var ids := [BuiltinPrint, Int, Eof];
    assert NextNonComment(ids, 1) == 1;
    assert PrintAt(ids, 0) == PrintFailed(2, None);
  }

  /**
   * A bare `print` at end of input consumes the end-of-input token while
   * expecting `(`, and the loop then reads the token id past the buffer.
   */
  lemma ParseReadsPastEndOnBarePrint()
    ensures ParseFrom([BuiltinPrint, Eof], 0).outcome == ReadPastEnd
  {
    var ids := [BuiltinPrint, Eof];
    assert NextNonComment(ids, 1) == 1;
    assert PrintAt(ids, 0) == PrintFailed(2, None);
  }

  /**
   * The source `print` followed by a newline is tokenized as exactly that bare
   * print (without the newline the word ends the buffer and stays an identifier).
   */
  lemma BarePrintTokens()
    ensures Ids(Tokenize(Bytes("print\n"), 0)) == [BuiltinPrint, Eof]
  {
    var src := Bytes("print\n");
    BarePrintKeyword(src);
    BarePrintEnd(src);
    assert Tokenize(src, 0) == [Token(BuiltinPrint, Loc(0, 5)), Token(Eof, Loc(6, 6))];
  }

  /** The first token of `print\n` is the keyword. */
  lemma BarePrintKeyword(src: seq<byte>)
    requires src == Bytes("print\n")
    ensures Scan(src, 0) == Token(BuiltinPrint, Loc(0, 5))
  {
    assert src[0] == 112 && src[1] == 114 && src[2] == 105 && src[3] == 110 && src[4] == 116 && src[5] == 10;
    assert SkipWhitespace(src, 0) == 0;
    assert LetterRunEnd(src, 1) == 5;
    var word := src[0..5];
    assert word == Bytes("print");
    KeywordOfIdentifier(word);
  }

  /** After the keyword only the newline is left, and then the end of input. */
  lemma BarePrintEnd(src: seq<byte>)
    requires src == Bytes("print\n")
    ensures Scan(src, 5) == Token(Eof, Loc(6, 6))
  {
    assert |src| == 6 && src[5] == 10;
    assert SkipWhitespace(src, 5) == 6;
  }

  /** So the one-line program `print` makes `parser_parse` read past the token ids. */
  lemma BarePrintReadsPastEnd()
    ensures var ids := Ids(Tokenize(Bytes("print\n"), 0));
      ids == [BuiltinPrint, Eof] && ParseFrom(ids, 0).outcome == ReadPastEnd
  {
    BarePrintTokens();
    ParseReadsPastEndOnBarePrint();
  }

  // ---------------------------------------------------------------------------
  // The parser

  /** The loop of `parser_init`: run the lexer until it yields the end-of-input token, collecting ids and spans. */
  method LexAll(source: seq<byte>) returns (tokenIds: seq<TokenId>, tokenLocs: seq<Loc>)
    ensures tokenIds == Ids(Tokenize(source, 0)) && tokenLocs == Locs(Tokenize(source, 0))
    ensures EndsWithEof(tokenIds) && |tokenLocs| == |tokenIds|
  {
    var lexer := new Lexer(source);
    tokenIds := [];
    tokenLocs := [];
    ghost var done: seq<Token> := [];
    while true
      invariant lexer.Valid() && lexer.source == source
      invariant Tokenize(source, 0) == done + Tokenize(source, lexer.index)
      invariant tokenIds == Ids(done) && tokenLocs == Locs(done)
      decreases |source| - lexer.index
    {
      ghost var at := lexer.index;
      var token := lexer.Next();
      TokenizeAppend(source, done, at, token);
      IdsLocsAppend(done, token);
      tokenIds := tokenIds + [token.id];
      tokenLocs := tokenLocs + [token.loc];
      done := done + [token];
      if token.id == Eof {
        return;
      }
    }
  }

  /** `parser_t`: the token ids and spans, the cursor, the node arena and the statement list. */
  class Parser {
    const source: seq<byte>
    const ids: seq<TokenId>
    const locs: seq<Loc>
    var tokI: nat
    var nodes: seq<Node>
    var stmts: seq<nat>

    /** The cursor, the arena and the statement list agree with the token ids. */
    ghost predicate Valid()
      reads this
    {
      |locs| == |ids| && EndsWithEof(ids) && tokI <= |ids|
      && (forall n | 0 <= n < |nodes| :: NodeOk(nodes, n, ids))
      && (forall s | 0 <= s < |stmts| :: stmts[s] < |nodes| && nodes[stmts[s]].PrintNode?)
    }

    /** Every integer token's span holds an integer literal of the source. */
    ghost predicate IntLiteralsInSource() {
      |source| < USIZE_MODULUS && |locs| == |ids|
      && forall k | 0 <= k < |ids| && ids[k] == Int :: IntSpanOk(source, locs[k])
    }

    /** The token ids and spans are those the lexer yields for the source (they never change). */
    ghost predicate Lexed() {
      |source| < USIZE_MODULUS
      && ids == Ids(Tokenize(source, 0)) && locs == Locs(Tokenize(source, 0))
    }

    /** `parser_init`: lex the whole source, keeping every token id and span up to the end-of-input token. */
    constructor (source: seq<byte>)
      requires |source| < USIZE_MODULUS
      ensures Valid() && Lexed() && IntLiteralsInSource() && this.source == source
      ensures tokI == 0 && nodes == [] && stmts == []
    {
      var tokenIds, tokenLocs := LexAll(source);
      IntTokensInSource(source);
      this.source := source;
      ids := tokenIds;
      locs := tokenLocs;
      tokI := 0;
      nodes := [];
      stmts := [];
    }

    /** `parser_next_token`: return the cursor's token, skipping comments, and move past it. */
    method NextToken() returns (r: nat)
      requires Valid() && tokI < |ids|
      modifies this`tokI
      ensures Valid()
      ensures r == NextNonComment(ids, old(tokI)) && tokI == r + 1
    {
      while true
        invariant old(tokI) <= tokI < |ids|
        invariant NextNonComment(ids, old(tokI)) == NextNonComment(ids, tokI)
        decreases |ids| - tokI
      {
        r := tokI;
        tokI := tokI + 1;
        if ids[r] == Comment {
          continue;
        }
        return;
      }
    }

    /** `parser_eat_token`: consume the cursor's token only when it has the given kind. */
    method EatToken(id: TokenId) returns (res: Res, tok: nat)
      requires Valid() && tokI < |ids| && id != Comment
      modifies this`tokI
      ensures Valid()
      ensures ids[old(tokI)] == id ==> res == ResOk && tok == old(tokI) && tokI == old(tokI) + 1
      ensures ids[old(tokI)] != id ==> res == ResNone && tokI == old(tokI)
    {
      if ids[tokI] == id {
        tok := NextToken();
        return ResOk, tok;
      }
      return ResNone, 0;
    }

    /** `parser_expect_token`: consume the next non-comment token and fail unless it has the given kind. */
    method ExpectToken(id: TokenId) returns (res: Res, tok: nat)
      requires Valid() && tokI < |ids|
      modifies this`tokI
      ensures Valid()
      ensures tokI == NextNonComment(ids, old(tokI)) + 1
      ensures res == ResOk || res == ResErr
      ensures res == ResOk <==> ids[tokI - 1] == id
      ensures res == ResOk ==> tok == tokI - 1
    {
      var t := NextToken();
      if ids[t] != id {
        return ResErr, 0;
      }
      return ResOk, t;
    }

    /** `buf_push` onto the node arena: append a well-formed node and return its index. */
    method PushNode(n: Node) returns (nodeI: nat)
      requires Valid() && NodeOk(nodes + [n], |nodes|, ids)
      modifies this`nodes
      ensures Valid() && nodes == old(nodes) + [n] && nodeI == |nodes| - 1
    {
      NodesOkAppend(nodes, n, ids);
      nodes := nodes + [n];
      nodeI := |nodes| - 1;
    }

    /** `parser_parse_primary`: a `true`, `false`, string or integer token becomes a new literal node. */
    method ParsePrimary() returns (res: Res, nodeI: nat)
      requires Valid() && tokI < |ids|
      modifies this`tokI, this`nodes
      ensures Valid() && stmts == old(stmts)
      ensures res == ResOk || res == ResNone
      ensures res == ResOk <==> IsPrimary(ids[old(tokI)])
      ensures res == ResNone ==> tokI == old(tokI) && nodes == old(nodes)
      ensures res == ResOk ==>
        tokI == old(tokI) + 1 && nodes == old(nodes) + [PrimaryNode(ids[old(tokI)], old(tokI))]
        && nodeI == |nodes| - 1
    {
      var r, token := EatToken(True);
      if r == ResOk {
        nodeI := PushNode(BoolNode(token));
        return ResOk, nodeI;
      }
      r, token := EatToken(False);
      if r == ResOk {
        nodeI := PushNode(BoolNode(token));
        return ResOk, nodeI;
      }
      r, token := EatToken(StringLiteral);
      if r == ResOk {
        nodeI := PushNode(StringNode(token));
        return ResOk, nodeI;
      }
      r, token := EatToken(Int);
      if r == ResOk {
        nodeI := PushNode(IntNode(token));
        return ResOk, nodeI;
      }
      return ResNone, 0;
    }

    /** `parser_parse_builtin_print`: `print` `(` primary `)` becomes the argument node followed by a print node. */
    method ParseBuiltinPrint() returns (res: Res, nodeI: nat)
      requires Valid() && tokI < |ids|
      modifies this`tokI, this`nodes
      ensures Valid() && stmts == old(stmts)
      ensures match PrintAt(ids, old(tokI))
        case NoPrint => res == ResNone && tokI == old(tokI) && nodes == old(nodes)
        case PrintFailed(next, arg) =>
          res == ResErr && tokI == next
          && nodes == old(nodes) + (if arg.Some? then [PrimaryNode(ids[arg.value], arg.value)] else [])
        case Printed(lparen, rparen) =>
          res == ResOk && tokI == rparen + 1 && nodeI == |old(nodes)| + 1
          && nodes == old(nodes) + [PrimaryNode(ids[lparen + 1], lparen + 1), PrintNode(|old(nodes)|, old(tokI), rparen)]
    {
      var r, keywordPrint := EatToken(BuiltinPrint);
      if r == ResOk {
        res, nodeI := ParsePrintArgs(keywordPrint);
        return;
      }
      return ResNone, 0;
    }

    /** The rest of `parser_parse_builtin_print` once the `print` keyword at `keyword` is consumed. */
    method ParsePrintArgs(keyword: nat) returns (res: Res, nodeI: nat)
      requires Valid() && keyword < tokI < |ids| && ids[keyword] == BuiltinPrint
      modifies this`tokI, this`nodes
      ensures Valid() && stmts == old(stmts)
      ensures var pa := PrintArgs(ids, old(tokI));
        pa.PrintFailed? ==>
          res == ResErr && tokI == pa.next
          && nodes == old(nodes) + (if pa.arg.Some? then [PrimaryNode(ids[pa.arg.value], pa.arg.value)] else [])
      ensures var pa := PrintArgs(ids, old(tokI));
        pa.Printed? ==>
          res == ResOk && tokI == pa.rparen + 1 && nodeI == |old(nodes)| + 1
          && nodes == old(nodes) + [PrimaryNode(ids[pa.lparen + 1], pa.lparen + 1), PrintNode(|old(nodes)|, keyword, pa.rparen)]
    {
      var r, lparen := ExpectToken(LParen);
      if r != ResOk {
        return ResErr, 0;
      }
      res, nodeI := ParsePrintArg(keyword);
    }

    /** The argument and `)` of a print, with the cursor just past its `(`. */
    method ParsePrintArg(keyword: nat) returns (res: Res, nodeI: nat)
      requires Valid() && keyword < tokI < |ids| && ids[keyword] == BuiltinPrint
      modifies this`tokI, this`nodes
      ensures Valid() && stmts == old(stmts)
      ensures !IsPrimary(ids[old(tokI)]) ==> res == ResErr && tokI == old(tokI) && nodes == old(nodes)
      ensures IsPrimary(ids[old(tokI)]) ==>
        var r := NextNonComment(ids, old(tokI) + 1);
        var arg := PrimaryNode(ids[old(tokI)], old(tokI));
        (ids[r] != RParen ==> res == ResErr && tokI == r + 1 && nodes == old(nodes) + [arg])
        && (ids[r] == RParen ==>
          res == ResOk && tokI == r + 1 && nodeI == |old(nodes)| + 1
          && nodes == old(nodes) + [arg, PrintNode(|old(nodes)|, keyword, r)])
    {
      var r, argI := ParsePrimary();
      if r != ResOk {
        return ResErr, 0;
      }
      var rparen;
      r, rparen := ExpectToken(RParen);
      if r != ResOk {
        return ResErr, 0;
      }
      PrintNodeOk(nodes, argI, keyword, rparen, ids);
      nodeI := PushNode(PrintNode(argI, keyword, rparen));
      res := ResOk;
    }

    /**
     * `parser_parse`: parse print statements until end of input, recording
     * each as a statement.  Where the source reads the token id past the
     * buffer (see `ParseReadsPastEndOnBarePrint`) this returns `ResErr`.
     * The arena only grows, and the statements added record, in order, the
     * prints `ParseFrom` accepts.
     */
    method Parse() returns (res: Res)
      requires Valid() && tokI < |ids|
      modifies this`tokI, this`nodes, this`stmts
      ensures Valid() && |old(nodes)| <= |nodes| && nodes[..|old(nodes)|] == old(nodes)
      ensures var v := ParseFrom(ids, old(tokI));
        (res == ResOk <==> v.outcome == Accepted) && (res != ResOk ==> res == ResErr)
        && |old(stmts)| <= |stmts| && stmts[..|old(stmts)|] == old(stmts)
        && RecordsAll(nodes, stmts[|old(stmts)|..], ids, v.sites)
    {
      ghost var t0, s0, n0 := tokI, stmts, nodes;
      ghost var done: seq<PrintSite> := [];
      while true
        invariant Valid() && tokI < |ids|
        invariant |n0| <= |nodes| && nodes[..|n0|] == n0
        invariant |s0| <= |stmts| && stmts[..|s0|] == s0
        invariant ParseFrom(ids, t0).outcome == ParseFrom(ids, tokI).outcome
        invariant ParseFrom(ids, t0).sites == done + ParseFrom(ids, tokI).sites
        invariant RecordsAll(nodes, stmts[|s0|..], ids, done)
        decreases |ids| - tokI
      {
        ghost var s1, n1, mid := stmts, nodes, ParseFrom(ids, tokI).sites;
        var stop;
        stop, res := ParseStep();
        LoopTurn(ids, n0, n1, nodes, s0, s1, stmts, done, mid);
        done := done + mid[..|stmts| - |s1|];
        if stop {
          assert done == ParseFrom(ids, t0).sites;
          return;
        }
      }
    }

    /**
     * One turn of the loop of `parser_parse`: a print statement, a comment
     * or the end of input. The arena only grows and the statements added
     * record the first prints of the verdict ahead. Either the loop goes on
     * from a later token with the rest of that verdict ahead, or it stops
     * with the verdict's result and all its prints recorded.
     */
    method ParseStep() returns (stop: bool, res: Res)
      requires Valid() && tokI < |ids|
      modifies this`tokI, this`nodes, this`stmts
      ensures Valid() && StepKept(ids, old(tokI), old(nodes), old(stmts), nodes, stmts, tokI, stop, res)
    {
      ghost var t0, n0 := tokI, nodes;
      var r, newNodeI := ParseBuiltinPrint();
      if r == ResOk {
        PrintStepKept(ids, t0, n0, nodes, stmts, newNodeI);
        stmts := stmts + [newNodeI];
        stop, res := false, ResOk;
      } else {
        assert nodes[..|n0|] == n0;
        ghost var t := tokI;
        stop, res := ParseTail();
        OtherStepKept(ids, t0, n0, nodes, stmts, t, tokI, stop, res);
      }
    }

    /**
     * The rest of a turn of the loop of `parser_parse` once no print was
     * accepted: stop with `ResErr` past the buffer, skip a comment, stop
     * with `ResOk` at the end-of-input token and with `ResErr` at anything else.
     */
    method ParseTail() returns (stop: bool, res: Res)
      requires Valid() && tokI <= |ids|
      modifies this`tokI
      ensures Valid() && TailStep(ids, old(tokI), tokI, stop, res)
    {
      if tokI == |ids| {
        return true, ResErr;
      }
      var next := ids[tokI];
      if next == Comment {
        tokI := tokI + 1;
        return false, ResOk;
      }
      if next == Eof {
        return true, ResOk;
      }
      return true, ResErr;
    }
  }

  /** From token `t` the loop goes on at `t1` or stops with `res`, as `ParseTail` decides. */
  predicate TailStep(ids: seq<TokenId>, t: nat, t1: nat, stop: bool, res: Res) {
    if t >= |ids| then stop && res == ResErr && t1 == t
    else if ids[t] == Comment then !stop && res == ResOk && t1 == t + 1
    else stop && res == (if ids[t] == Eof then ResOk else ResErr) && t1 == t
  }

  /**
   * What one turn of the parse loop leaves behind, going from cursor `t0`,
   * arena `n0` and statements `s0` to arena `n1`, statements `s1` and
   * cursor `t1`: both lists only grew, and the statements added record the
   * first prints of the verdict ahead of `t0`.  Either the loop goes on
   * from a later token with the rest of that verdict ahead, or it stops
   * with the verdict's result and all its prints recorded.
   */
  ghost predicate StepKept(ids: seq<TokenId>, t0: nat, n0: seq<Node>, s0: seq<nat>,
                           n1: seq<Node>, s1: seq<nat>, t1: nat, stop: bool, res: Res)
    requires EndsWithEof(ids) && t0 < |ids|
  {
    |n0| <= |n1| && n1[..|n0|] == n0 && |s0| <= |s1| && s1[..|s0|] == s0
    && var v := ParseFrom(ids, t0);
    var added := s1[|s0|..];
    |added| <= |v.sites| && RecordsAll(n1, added, ids, v.sites[..|added|])
    && (!stop ==>
          t0 < t1 < |ids| && v.outcome == ParseFrom(ids, t1).outcome
          && v.sites[|added|..] == ParseFrom(ids, t1).sites)
    && (stop ==>
          (res == ResOk <==> v.outcome == Accepted) && (res != ResOk ==> res == ResErr)
          && |added| == |v.sites|)
  }

  /** An accepted print at `t0` pushes the literal and print nodes, records one statement and goes on after its `)`. */
  lemma PrintStepKept(ids: seq<TokenId>, t0: nat, n0: seq<Node>, n1: seq<Node>, s0: seq<nat>, nodeI: nat)
    requires EndsWithEof(ids) && t0 < |ids| && PrintAt(ids, t0).Printed?
    requires var p := PrintAt(ids, t0);
      nodeI == |n0| + 1
      && n1 == n0 + [PrimaryNode(ids[p.lparen + 1], p.lparen + 1), PrintNode(|n0|, t0, p.rparen)]
    ensures nodeI < |n1| && n1[nodeI].PrintNode?
    ensures StepKept(ids, t0, n0, s0, n1, s0 + [nodeI], PrintAt(ids, t0).rparen + 1, false, ResOk)
  {
    var p := PrintAt(ids, t0);
    var v := ParseFrom(ids, t0);
    var s1 := s0 + [nodeI];
    assert s1[..|s0|] == s0 && s1[|s0|..] == [nodeI];
    assert n1[..|n0|] == n0;
    assert v.sites[..1] == [PrintSite(t0, p.lparen, p.rparen)];
    assert Recorded(n1, nodeI, ids, PrintSite(t0, p.lparen, p.rparen));
  }

  /**
   * Where no print is accepted at `t0`, nothing is recorded, and the turn
   * ends as `TailStep` says from the token `t` where the attempt left the
   * cursor.
   */
  lemma OtherStepKept(ids: seq<TokenId>, t0: nat, n0: seq<Node>, n1: seq<Node>, s0: seq<nat>,
                      t: nat, t1: nat, stop: bool, res: Res)
    requires EndsWithEof(ids) && t0 < |ids| && !PrintAt(ids, t0).Printed?
    requires |n0| <= |n1| && n1[..|n0|] == n0
    requires t == if PrintAt(ids, t0).NoPrint? then t0 else PrintAt(ids, t0).next
    requires TailStep(ids, t, t1, stop, res)
    ensures StepKept(ids, t0, n0, s0, n1, s0, t1, stop, res)
  {
    assert s0[..|s0|] == s0 && s0[|s0|..] == [];
    var v := ParseFrom(ids, t0);
    assert v.sites[..0] == [] && v.sites[0..] == v.sites;
  }

  /**
   * Statement `s` records the print at `site`: it indexes a print node with
   * the site's keyword and `)`, over the literal node just before it, made
   * from the token after the `(`.
   */
  predicate Recorded(nodes: seq<Node>, s: nat, ids: seq<TokenId>, site: PrintSite) {
    1 <= s < |nodes| && site.lparen + 1 < |ids| && IsPrimary(ids[site.lparen + 1])
    && nodes[s] == PrintNode(s - 1, site.keyword, site.rparen)
    && nodes[s - 1] == PrimaryNode(ids[site.lparen + 1], site.lparen + 1)
  }

  /** Statement `k` of `added` records print `k` of `sites`. */
  predicate RecordsAll(nodes: seq<Node>, added: seq<nat>, ids: seq<TokenId>, sites: seq<PrintSite>) {
    |added| == |sites| && forall k | 0 <= k < |added| :: Recorded(nodes, added[k], ids, sites[k])
  }

  /** Records made in a smaller arena still hold once it has grown, and later ones follow them. */
  lemma RecordsGrow(before: seq<Node>, nodes: seq<Node>, a: seq<nat>, ids: seq<TokenId>, sa: seq<PrintSite>,
                    b: seq<nat>, sb: seq<PrintSite>)
    requires |before| <= |nodes| && nodes[..|before|] == before
    requires RecordsAll(before, a, ids, sa) && RecordsAll(nodes, b, ids, sb)
    ensures RecordsAll(nodes, a + b, ids, sa + sb)
  {
    forall k | 0 <= k < |a| ensures Recorded(nodes, a[k], ids, sa[k]) {
      assert Recorded(before, a[k], ids, sa[k]);
      assert nodes[a[k]] == before[a[k]] && nodes[a[k] - 1] == before[a[k] - 1];
    }
    forall k | |a| <= k < |a| + |b| ensures Recorded(nodes, (a + b)[k], ids, (sa + sb)[k]) {
      assert (a + b)[k] == b[k - |a|] && (sa + sb)[k] == sb[k - |a|];
    }
  }

  /**
   * One loop turn keeps the loop's record: the arena and the statements
   * grew, and the statements added since the start record the prints
   * `done` recorded before the turn followed by the turn's own, the first
   * of those in `mid`, the prints ahead of it.
   */
  lemma LoopTurn(ids: seq<TokenId>, n0: seq<Node>, n1: seq<Node>, n2: seq<Node>,
                 s0: seq<nat>, s1: seq<nat>, s2: seq<nat>, done: seq<PrintSite>, mid: seq<PrintSite>)
    requires |n0| <= |n1| && n1[..|n0|] == n0 && |n1| <= |n2| && n2[..|n1|] == n1
    requires |s0| <= |s1| && s1[..|s0|] == s0 && |s1| <= |s2| && s2[..|s1|] == s1
    requires RecordsAll(n1, s1[|s0|..], ids, done)
    requires |s2| - |s1| <= |mid| && RecordsAll(n2, s2[|s1|..], ids, mid[..|s2| - |s1|])
    ensures |n0| <= |n2| && n2[..|n0|] == n0 && |s0| <= |s2| && s2[..|s0|] == s0
    ensures done + mid == (done + mid[..|s2| - |s1|]) + mid[|s2| - |s1|..]
    ensures RecordsAll(n2, s2[|s0|..], ids, done + mid[..|s2| - |s1|])
  {
    assert n2[..|n0|] == n2[..|n1|][..|n0|];
    assert s2[..|s0|] == s2[..|s1|][..|s0|];
    assert s2[|s0|..] == s1[|s0|..] + s2[|s1|..];
    RecordsGrow(n1, n2, s1[|s0|..], ids, done, s2[|s1|..], mid[..|s2| - |s1|]);
  }

  // ---------------------------------------------------------------------------
  // `parse_node_to_int`

  /** The longest prefix of `s` made of decimal digits. */
  function LeadingDigits(s: seq<byte>): (r: seq<byte>)
    ensures |r| <= |s| && r == s[..|r|] && Decimal.AllDigits(r)
    ensures |r| < |s| ==> !Decimal.IsDigit(s[|r|])
  {
    if s == [] || !Decimal.IsDigit(s[0]) then []
    else [s[0]] + LeadingDigits(s[1..])
  }

  /**
   * `strtoll(s, NULL, 10)` on a buffer that starts with a digit: the value of
   * the leading digits, saturated at `LLONG_MAX`.
   */
  function StrToLL(s: seq<byte>): (v: int)
    ensures 0 <= v <= LLONG_MAX
  {
    var d := Decimal.Value(LeadingDigits(s));
    if d > LLONG_MAX then LLONG_MAX else d
  }

  const INT_BUFFER_LEN: nat := 25

  /** `memcpy` of `lit` into the front of `buf`; the rest of `buf` keeps its old bytes. */
  function Overwrite(buf: seq<byte>, lit: seq<byte>): (r: seq<byte>)
    requires |lit| <= |buf|
    ensures |r| == |buf|
  {
    lit + buf[|lit|..]
  }

  /** The value of an integer literal's text: its leading digits, so a `_` ends it. */
  function LiteralValue(lit: seq<byte>): (v: int)
    ensures 0 <= v <= LLONG_MAX
  {
    StrToLL(lit)
  }

  /** Digits stop at the first NUL, so a terminated copy reads as the literal alone. */
  lemma {:induction false} LeadingDigitsOfTerminated(lit: seq<byte>, rest: seq<byte>)
    ensures LeadingDigits(lit + [NUL] + rest) == LeadingDigits(lit)
    decreases |lit|
  {
    if lit != [] && Decimal.IsDigit(lit[0]) {
      assert (lit + [NUL] + rest)[1..] == lit[1..] + [NUL] + rest;
      LeadingDigitsOfTerminated(lit[1..], rest);
    }
  }

  /** Overwriting, then writing a NUL just after the literal, reads as the literal alone. */
  lemma TerminatedValue(buf: seq<byte>, lit: seq<byte>)
    requires |lit| < |buf|
    ensures StrToLL(Overwrite(buf, lit)[|lit| := NUL]) == LiteralValue(lit)
  {
    var rest := buf[|lit| + 1..];
    assert Overwrite(buf, lit)[|lit| := NUL] == lit + [NUL] + rest;
    LeadingDigitsOfTerminated(lit, rest);
  }

  /** A `_` separator ends the value: `1_000` reads as 1. */
  lemma UnderscoreEndsLiteral()
    ensures LiteralValue(Bytes("1_000")) == 1
  {
    var s := Bytes("1_000");
    assert s[0] == 49 && s[1] == 95;
    assert LeadingDigits(s[1..]) == [];
    assert LeadingDigits(s) == [s[0]];
    assert Decimal.Value([s[0]]) == 1 by {
      assert [s[0]][..0] == [];
    }
  }

  /** The static buffer of `parse_node_to_int`, which keeps its bytes from one call to the next. */
  class IntLiteralBuffer {
    const string0: array<byte>

    ghost predicate Valid()
      reads this
    {
      string0.Length == INT_BUFFER_LEN
    }

    constructor ()
      ensures Valid() && string0[..] == Zeros(INT_BUFFER_LEN)
    {
      string0 := new byte[INT_BUFFER_LEN](_ => NUL);
    }

    /** `memcpy` of a literal over the front of the buffer. */
    method Copy(lit: seq<byte>)
      requires Valid() && |lit| < INT_BUFFER_LEN
      modifies string0
      ensures string0[..] == Overwrite(old(string0[..]), lit)
    {
      var i := 0;
      while i < |lit|
        invariant 0 <= i <= |lit|
        invariant forall k | 0 <= k < i :: string0[k] == lit[k]
        invariant forall k | i <= k < string0.Length :: string0[k] == old(string0[k])
      {
        string0[i] := lit[i];
        i := i + 1;
      }
    }

    /**
     * `parse_node_to_int` as written: copy the literal over the front of the
     * buffer without terminating it, then read the buffer's leading digits.
     */
    method NodeToInt(p: Parser, node: nat) returns (v: int)
      requires Valid() && p.Valid() && p.IntLiteralsInSource() && node < |p.nodes| && p.nodes[node].IntNode?
      requires p.nodes[node].tok < |p.locs| && NodeSource(p.locs, p.nodes[node]).len < INT_BUFFER_LEN
      modifies string0
      ensures var sp := NodeSource(p.locs, p.nodes[node]);
        0 <= sp.start && sp.start + sp.len <= |p.source|
        && string0[..] == Overwrite(old(string0[..]), p.source[sp.start..sp.start + sp.len])
        && v == StrToLL(string0[..])
    {
      var lit := Literal(p, node);
      Copy(lit);
      v := StrToLL(string0[..]);
    }

    /** Copy a literal and terminate it with a NUL, then read the buffer's leading digits. */
    method CopyTerminated(lit: seq<byte>) returns (v: int)
      requires Valid() && |lit| < INT_BUFFER_LEN
      modifies string0
      ensures string0[..] == Overwrite(old(string0[..]), lit)[|lit| := NUL]
      ensures v == LiteralValue(lit)
    {
      Copy(lit);
      string0[|lit|] := NUL;
      TerminatedValue(old(string0[..]), lit);
      v := StrToLL(string0[..]);
    }

    /** The same conversion with the copy NUL-terminated, so earlier literals cannot leak in. */
    method NodeToIntTerminated(p: Parser, node: nat) returns (v: int)
      requires Valid() && p.Valid() && p.IntLiteralsInSource() && node < |p.nodes| && p.nodes[node].IntNode?
      requires p.nodes[node].tok < |p.locs| && NodeSource(p.locs, p.nodes[node]).len < INT_BUFFER_LEN
      modifies string0
      ensures var sp := NodeSource(p.locs, p.nodes[node]);
        0 <= sp.start && sp.start + sp.len <= |p.source|
        && v == LiteralValue(p.source[sp.start..sp.start + sp.len])
    {
      var lit := Literal(p, node);
      v := CopyTerminated(lit);
    }
  }

  /** The text of an integer node (`parser_ast_node_source`). */
  method Literal(p: Parser, node: nat) returns (lit: seq<byte>)
    requires p.Valid() && p.IntLiteralsInSource() && node < |p.nodes| && p.nodes[node].IntNode?
    ensures p.nodes[node].tok < |p.locs|
    ensures var sp := NodeSource(p.locs, p.nodes[node]);
      0 <= sp.start && sp.start + sp.len <= |p.source| && lit == p.source[sp.start..sp.start + sp.len]
      && 1 <= |lit| && IsIntStart(lit[0])
  {
    var k := p.nodes[node].tok;
    assert NodeOk(p.nodes, node, p.ids);
    assert IntSpanOk(p.source, p.locs[k]);
    var sp := NodeSource(p.locs, p.nodes[node]);
    lit := p.source[sp.start..sp.start + sp.len];
  }

  /** The buffer after copying `12345` and then `7`: `72345`, then the zeros it started with. */
  lemma StaleBuffer(d: seq<byte>)
    requires d == [55, 50, 51, 52, 53]
    ensures var buf := Overwrite(Zeros(INT_BUFFER_LEN), Bytes("12345"));
      Overwrite(buf, Bytes("7")) == d + [NUL] + Zeros(INT_BUFFER_LEN)[6..]
  {
    var z := Zeros(INT_BUFFER_LEN);
    var five := Bytes("12345");
    assert five == [49, 50, 51, 52, 53];
    var buf := five + z[5..];
    assert Bytes("7") == [55];
    assert z[5..] == [NUL] + z[6..];
    assert buf[1..] == [50, 51, 52, 53] + z[5..];
  }

  /**
   * The buffer is never cleared: after the literal `12345`, the literal `7`
   * reads as 72345.
   */
  lemma StaleDigitsLeak()
    ensures var buf := Overwrite(Zeros(INT_BUFFER_LEN), Bytes("12345"));
      StrToLL(Overwrite(buf, Bytes("7"))) == 72345
  {
    var d: seq<byte> := [55, 50, 51, 52, 53];
    StaleBuffer(d);
    var z := Zeros(INT_BUFFER_LEN);
    LeadingDigitsOfTerminated(d, z[6..]);
    StaleValue(d);
  }

  /** The digits `72345` read as 72345. */
  lemma StaleValue(d: seq<byte>)
    requires d == [55, 50, 51, 52, 53]
    ensures LeadingDigits(d) == d && Decimal.AllDigits(d) && Decimal.Value(d) == 72345
  {
    assert LeadingDigits(d) == d;
    assert d[..1] == [55] && d[..2] == [55, 50] && d[..3] == [55, 50, 51] && d[..4] == [55, 50, 51, 52];
    assert Decimal.Value([55]) == 7 by {
      assert [55 as byte][..0] == [];
    }
    assert Decimal.Value([55, 50]) == 72 by {
      assert [55 as byte, 50][..1] == [55];
    }
    assert Decimal.Value([55, 50, 51]) == 723 by {
      assert [55 as byte, 50, 51][..2] == [55, 50];
    }
    assert Decimal.Value([55, 50, 51, 52]) == 7234 by {
      assert [55 as byte, 50, 51, 52][..3] == [55, 50, 51];
    }
    assert Decimal.Value(d) == 72345;
  }
}
