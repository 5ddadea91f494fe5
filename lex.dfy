/**
 * The tokenizer of `lex.h`: a cursor over a byte buffer that `Next` advances
 * through the START / IDENTIFIER / INT / STRING states, one token per call.
 *
 * `Scan` is the declarative reading of one call: skip whitespace, then
 * classify the token by its first byte.  `Lexer.Next` is the state machine
 * and is proved to compute exactly `Scan`.
 */
module Lex {
  import opened Base

  /** `token_id_t`; `Comment` is the kind `parse.h` skips, which this lexer never produces. */
  datatype TokenId =
    | BuiltinPrint | LParen | RParen | True | False
    | Identifier | StringLiteral | Int | Eof | Invalid | Comment

  /** A half-open span `[start, end)` of the source. */
  datatype Loc = Loc(start: nat, end: nat)

  datatype Token = Token(id: TokenId, loc: Loc)

  // ---------------------------------------------------------------------------
  // Character classes

  predicate IsWhitespace(c: byte) {
    c == 32 || c == 10 || c == 13 || c == 9
  }

  /** The bytes that start and continue an identifier: `_`, `a`-`z`, `A`-`Z`. */
  predicate IsLetter(c: byte) {
    c == 95 || (97 <= c <= 122) || (65 <= c <= 90)
  }

  predicate IsDigit(c: byte) {
    48 <= c <= 57
  }

  /** The bytes that start an integer literal: `1`-`9` (a leading `0` is invalid). */
  predicate IsIntStart(c: byte) {
    49 <= c <= 57
  }

  /** The bytes that continue an integer literal: digits and the `_` separator. */
  predicate IsIntContinue(c: byte) {
    IsDigit(c) || c == 95
  }

  const QUOTE: byte := 34
  const LPAREN_CHAR: byte := 40
  const RPAREN_CHAR: byte := 41

  /** `lex_is_identifier_char`: the byte is a digit, a letter or `_`. */
  predicate IsIdentifierChar(c: byte)
  {
    ('0' as byte <= c <= '9' as byte) || ('a' as byte <= c <= 'z' as byte)
    || ('A' as byte <= c <= 'Z' as byte) || c == '_' as byte
  }

  /** `lex_is_identifier_char` accepts the digits and exactly the letters of the lexer's identifier states. */
  lemma IdentifierCharClasses(c: byte)
    ensures IsIdentifierChar(c) <==> IsDigit(c) || IsLetter(c)
  {
  }

  // ---------------------------------------------------------------------------
  // Keywords

  const KEY_STR_LEN: nat := 20

  /** An entry of the keyword table; `text` is stored zero-padded to 20 bytes. */
  datatype Keyword = Keyword(id: TokenId, text: seq<byte>)

  /** The table in lookup order: true, false, print. */
  const KEYWORDS: seq<Keyword> := [
    Keyword(True, Bytes("true")),
    Keyword(False, Bytes("false")),
    Keyword(BuiltinPrint, Bytes("print"))
  ]

  /** The 20-byte zero-padded `key_str` of a keyword. */
  function KeyStr(k: Keyword): (r: seq<byte>)
    requires |k.text| <= KEY_STR_LEN
    ensures |r| == KEY_STR_LEN
  {
    k.text + Zeros(KEY_STR_LEN - |k.text|)
  }

  predicate ShortKeywords(ks: seq<Keyword>) {
    forall j | 0 <= j < |ks| :: |ks[j].text| < KEY_STR_LEN
  }

  /** `memcmp` of the word against `key_str` over `MIN(len, 20)` bytes reports equality. */
  predicate Matches(word: seq<byte>, k: Keyword)
    requires |k.text| <= KEY_STR_LEN
  {
    var m := if |word| < KEY_STR_LEN then |word| else KEY_STR_LEN;
    word[..m] == KeyStr(k)[..m]
  }

  /** The id of the first entry of `ks` that `word` matches, if any. */
  function FirstMatch(word: seq<byte>, ks: seq<Keyword>): (r: Option<TokenId>)
    requires ShortKeywords(ks)
    ensures r.Some? <==> exists j | 0 <= j < |ks| :: Matches(word, ks[j])
    ensures r.Some? ==> exists j | 0 <= j < |ks| :: Matches(word, ks[j]) && r.value == ks[j].id
                          && forall i | 0 <= i < j :: !Matches(word, ks[i])
  {
    if ks == [] then None
    else if Matches(word, ks[0]) then Some(ks[0].id)
    else
      var r := FirstMatch(word, ks[1..]);
      assert forall j | 1 <= j < |ks| :: ks[j] == ks[1..][j - 1];
      r
  }

  /** `token_get_keyword`: search the table in order for the first matching entry. */
  method TokenGetKeyword(word: seq<byte>) returns (r: Option<TokenId>)
    ensures r == FirstMatch(word, KEYWORDS)
  {
    var i := 0;
    while i < |KEYWORDS|
      invariant 0 <= i <= |KEYWORDS|
      invariant FirstMatch(word, KEYWORDS) == FirstMatch(word, KEYWORDS[i..])
    {
      var k := KEYWORDS[i];
      var m := if |word| < KEY_STR_LEN then |word| else KEY_STR_LEN;
      if word[..m] == KeyStr(k)[..m] {
        return Some(k.id);
      }
      assert KEYWORDS[i..][1..] == KEYWORDS[i + 1..];
      i := i + 1;
    }
    return None;
  }

  /**
   * For a non-empty word without NUL bytes (every identifier), the padded
   * comparison succeeds exactly when the word is a prefix of the keyword:
   * `t`, `tr`, `tru` and `true` all match `true`.
   */
  lemma MatchesIffPrefix(word: seq<byte>, k: Keyword)
    requires |k.text| < KEY_STR_LEN && |word| >= 1 && NoNul(word)
    ensures Matches(word, k) <==> |word| <= |k.text| && word == k.text[..|word|]
  {
    var key := KeyStr(k);
    var m := if |word| < KEY_STR_LEN then |word| else KEY_STR_LEN;
    if |word| <= |k.text| {
      assert key[..m] == k.text[..|word|];
    } else {
      assert key[|k.text|] == NUL;
      assert word[..m][|k.text|] != key[..m][|k.text|];
    }
  }

  /** Which keyword, if any, an identifier of the lexer turns into. */
  lemma {:induction false} KeywordOfIdentifier(word: seq<byte>)
    requires |word| >= 1 && forall j | 0 <= j < |word| :: IsLetter(word[j])
    ensures (FirstMatch(word, KEYWORDS) == Some(True))
              <==> (|word| <= 4 && word == Bytes("true")[..|word|])
    ensures (FirstMatch(word, KEYWORDS) == Some(False))
              <==> (|word| <= 5 && word == Bytes("false")[..|word|])
    ensures (FirstMatch(word, KEYWORDS) == Some(BuiltinPrint))
              <==> (|word| <= 5 && word == Bytes("print")[..|word|])
    ensures FirstMatch(word, KEYWORDS).None? <==>
              !((|word| <= 4 && word == Bytes("true")[..|word|])
                || (|word| <= 5 && word == Bytes("false")[..|word|])
                || (|word| <= 5 && word == Bytes("print")[..|word|]))
  {
    assert NoNul(word);
    MatchesIffPrefix(word, KEYWORDS[0]);
    MatchesIffPrefix(word, KEYWORDS[1]);
    MatchesIffPrefix(word, KEYWORDS[2]);
    assert Bytes("true")[0] == 116 && Bytes("false")[0] == 102 && Bytes("print")[0] == 112;
    assert |word| <= 4 && word == Bytes("true")[..|word|] ==> word[0] == 116;
    assert |word| <= 5 && word == Bytes("false")[..|word|] ==> word[0] == 102;
  }

  // ---------------------------------------------------------------------------
  // The declarative reading of one call of `lex_next`

  /** First position at or after `i` that is not whitespace. */
  function SkipWhitespace(src: seq<byte>, i: nat): (s: nat)
    ensures i <= s
    ensures i <= |src| ==> s <= |src|
    ensures forall k | i <= k < s :: k < |src| && IsWhitespace(src[k])
    ensures s < |src| ==> !IsWhitespace(src[s])
    decreases |src| - i
  {
    if i < |src| && IsWhitespace(src[i]) then SkipWhitespace(src, i + 1) else i
  }

  /** End of the run of identifier letters starting at `j`. */
  function LetterRunEnd(src: seq<byte>, j: nat): (e: nat)
    requires j <= |src|
    ensures j <= e <= |src|
    ensures forall k | j <= k < e :: IsLetter(src[k])
    ensures e < |src| ==> !IsLetter(src[e])
    decreases |src| - j
  {
    if j < |src| && IsLetter(src[j]) then LetterRunEnd(src, j + 1) else j
  }

  /** End of the run of digits and `_` starting at `j`. */
  function IntRunEnd(src: seq<byte>, j: nat): (e: nat)
    requires j <= |src|
    ensures j <= e <= |src|
    ensures forall k | j <= k < e :: IsIntContinue(src[k])
    ensures e < |src| ==> !IsIntContinue(src[e])
    decreases |src| - j
  {
    if j < |src| && IsIntContinue(src[j]) then IntRunEnd(src, j + 1) else j
  }

  /** Position of the first `"` at or after `j`, or `|src|` when there is none. */
  function QuoteAt(src: seq<byte>, j: nat): (q: nat)
    requires j <= |src|
    ensures j <= q <= |src|
    ensures forall k | j <= k < q :: src[k] != QUOTE
    ensures q < |src| ==> src[q] == QUOTE
    decreases |src| - j
  {
    if j < |src| && src[j] != QUOTE then QuoteAt(src, j + 1) else j
  }

  /** The token one call of `lex_next` returns when the cursor is at `i`. */
  function Scan(src: seq<byte>, i: nat): Token
    requires i <= |src|
  {
    var s := SkipWhitespace(src, i);
    if s == |src| then Token(Eof, Loc(s, s)) else ScanAt(src, s)
  }

  /** The token starting at the non-whitespace byte `src[s]`, classified by that byte. */
  function ScanAt(src: seq<byte>, s: nat): Token
    requires s < |src|
  {
    var c := src[s];
    if c == LPAREN_CHAR then Token(LParen, Loc(s, s + 1))
    else if c == RPAREN_CHAR then Token(RParen, Loc(s, s + 1))
    else if c == QUOTE then StringToken(src, s)
    else if IsLetter(c) then WordToken(src, s)
    else if IsIntStart(c) then NumberToken(src, s)
    else Token(Invalid, Loc(s, s + 1))
  }

  /** A string literal: up to the closing quote inclusive, or to the end of input. */
  function StringToken(src: seq<byte>, s: nat): Token
    requires s < |src|
  {
    var q := QuoteAt(src, s + 1);
    Token(StringLiteral, Loc(s, if q < |src| then q + 1 else q))
  }

  /**
   * A run of letters; it is looked up in the keyword table only when another
   * byte follows it.
   */
  function WordToken(src: seq<byte>, s: nat): Token
    requires s < |src|
  {
    var e := LetterRunEnd(src, s + 1);
    var id := if e == |src| then Identifier
              else match FirstMatch(src[s..e], KEYWORDS)
                case Some(k) => k
                case None => Identifier;
    Token(id, Loc(s, e))
  }

  /** A run of digits and `_`; INVALID when an identifier byte follows it. */
  function NumberToken(src: seq<byte>, s: nat): Token
    requires s < |src|
  {
    var e := IntRunEnd(src, s + 1);
    Token(if e < |src| && IsIdentifierChar(src[e]) then Invalid else Int, Loc(s, e))
  }

  // ---------------------------------------------------------------------------
  // Properties of one call

  /** Spans lie inside the source, after the cursor; only the end-of-input token is empty. */
  lemma ScanSpan(src: seq<byte>, i: nat)
    requires i <= |src|
    ensures var t := Scan(src, i);
      i <= t.loc.start <= t.loc.end <= |src|
      && (t.id == Eof <==> t.loc.start == t.loc.end)
      && (t.id != Eof ==> t.loc.start < t.loc.end)
  {
  }

  /** Only whitespace precedes the token, and the token starts with a non-whitespace byte. */
  lemma ScanSkipsWhitespace(src: seq<byte>, i: nat)
    requires i <= |src|
    ensures var t := Scan(src, i);
      (forall k | i <= k < t.loc.start :: IsWhitespace(src[k]))
      && (t.loc.start < |src| ==> !IsWhitespace(src[t.loc.start]))
  {
  }

  /** The end-of-input token comes exactly when nothing but whitespace is left, and sits at the end. */
  lemma ScanEof(src: seq<byte>, i: nat)
    requires i <= |src|
    ensures Scan(src, i).id == Eof <==> forall k | i <= k < |src| :: IsWhitespace(src[k])
    ensures Scan(src, i).id == Eof ==> Scan(src, i).loc == Loc(|src|, |src|)
  {
    var s := SkipWhitespace(src, i);
    if s < |src| {
      assert !IsWhitespace(src[s]);
    }
  }

  /** An identifier or keyword token is a maximal run of letters (digits end it). */
  lemma ScanWord(src: seq<byte>, i: nat)
    requires i <= |src|
    requires Scan(src, i).id in {Identifier, True, False, BuiltinPrint}
    ensures var t := Scan(src, i);
      (forall k | t.loc.start <= k < t.loc.end :: IsLetter(src[k]))
      && (t.loc.end < |src| ==> !IsLetter(src[t.loc.end]))
      && (t.id != Identifier ==>
            t.loc.end < |src| && FirstMatch(src[t.loc.start..t.loc.end], KEYWORDS) == Some(t.id))
  {
  }

  /** A non-empty prefix of a keyword followed by another byte is that keyword: `t ` scans as `true`. */
  lemma ScanTruePrefix()
    ensures Scan(Bytes("t "), 0) == Token(True, Loc(0, 1))
  {
    var src := Bytes("t ");
    assert src[0] == 116 && src[1] == 32;
    assert SkipWhitespace(src, 0) == 0;
    assert LetterRunEnd(src, 1) == 1;
    var word := src[0..1];
    assert word == Bytes("true")[..1];
    KeywordOfIdentifier(word);
    assert WordToken(src, 0) == Token(True, Loc(0, 1));
  }

  /** `p(` scans as the `print` keyword. */
  lemma ScanPrintPrefix()
    ensures Scan(Bytes("p("), 0) == Token(BuiltinPrint, Loc(0, 1))
  {
    var src := Bytes("p(");
    assert src[0] == 112 && src[1] == 40;
    assert SkipWhitespace(src, 0) == 0;
    assert LetterRunEnd(src, 1) == 1;
    var word := src[0..1];
    assert word == Bytes("print")[..1];
    KeywordOfIdentifier(word);
    assert WordToken(src, 0) == Token(BuiltinPrint, Loc(0, 1));
  }

  /**
   * An integer token is a non-zero digit followed by digits and `_`; it is
   * INVALID exactly when a letter follows it, and that letter is not consumed.
   */
  lemma ScanNumber(src: seq<byte>, i: nat)
    requires i <= |src|
    requires var s := SkipWhitespace(src, i); s < |src| && IsIntStart(src[s])
    ensures var t := Scan(src, i);
      IsIntStart(src[t.loc.start])
      && (forall k | t.loc.start < k < t.loc.end :: IsIntContinue(src[k]))
      && (t.loc.end < |src| ==> !IsIntContinue(src[t.loc.end]))
      && (t.id == Int || t.id == Invalid)
      && (t.id == Invalid <==> t.loc.end < |src| && IsLetter(src[t.loc.end]))
  {
    var t := Scan(src, i);
    if t.loc.end < |src| {
      IdentifierCharClasses(src[t.loc.end]);
    }
  }

  /**
   * A string token runs from its opening quote to the next quote inclusive,
   * with no quote inside; an unterminated string runs to the end of input and
   * is still a STRING_LITERAL.
   */
  lemma ScanString(src: seq<byte>, i: nat)
    requires i <= |src|
    ensures var t := Scan(src, i);
      t.id == StringLiteral <==> t.loc.start < |src| && src[t.loc.start] == QUOTE
    ensures var t := Scan(src, i);
      t.id == StringLiteral ==>
        (forall k | t.loc.start < k < t.loc.end - 1 :: src[k] != QUOTE)
        && ((t.loc.end - t.loc.start >= 2 && src[t.loc.end - 1] == QUOTE)
            || t.loc.end == |src|)
  {
  }

  /** Whitespace up to `s`, then the byte at `s` decides the token. */
  predicate TokenStartsAt(src: seq<byte>, i: nat, s: nat) {
    i <= s < |src| && !IsWhitespace(src[s]) && forall k | i <= k < s :: IsWhitespace(src[k])
  }

  /** Where the state machine stops inside an identifier, the token is `WordToken`'s. */
  lemma WordExit(src: seq<byte>, i: nat, s: nat, e: nat)
    requires TokenStartsAt(src, i, s) && IsLetter(src[s]) && s < e <= |src|
    requires forall k | s < k < e :: IsLetter(src[k])
    requires e < |src| ==> !IsLetter(src[e])
    ensures Scan(src, i) == WordToken(src, s) && WordToken(src, s).loc == Loc(s, e)
  {
    assert SkipWhitespace(src, i) == s;
    assert LetterRunEnd(src, s + 1) == e;
  }

  /** Where the state machine stops inside a number, the token is `NumberToken`'s. */
  lemma NumberExit(src: seq<byte>, i: nat, s: nat, e: nat)
    requires TokenStartsAt(src, i, s) && IsIntStart(src[s]) && s < e <= |src|
    requires forall k | s < k < e :: IsIntContinue(src[k])
    requires e < |src| ==> !IsIntContinue(src[e])
    ensures Scan(src, i) == NumberToken(src, s) && NumberToken(src, s).loc == Loc(s, e)
  {
    assert SkipWhitespace(src, i) == s;
    assert IntRunEnd(src, s + 1) == e;
  }

  /** Where the state machine stops inside a string, the token is `StringToken`'s. */
  lemma StringExit(src: seq<byte>, i: nat, s: nat, q: nat)
    requires TokenStartsAt(src, i, s) && src[s] == QUOTE && s < q <= |src|
    requires forall k | s < k < q :: src[k] != QUOTE
    requires q < |src| ==> src[q] == QUOTE
    ensures Scan(src, i) == StringToken(src, s)
    ensures StringToken(src, s).loc == Loc(s, if q < |src| then q + 1 else q)
  {
    assert SkipWhitespace(src, i) == s;
    assert QuoteAt(src, s + 1) == q;
  }

  /** A byte that starts no multi-byte token is a one-byte token. */
  lemma ByteExit(src: seq<byte>, i: nat, s: nat)
    requires TokenStartsAt(src, i, s)
    requires !(src[s] == QUOTE || IsLetter(src[s]) || IsIntStart(src[s]))
    ensures Scan(src, i) == Token(
      if src[s] == LPAREN_CHAR then LParen else if src[s] == RPAREN_CHAR then RParen else Invalid,
      Loc(s, s + 1))
  {
    assert SkipWhitespace(src, i) == s;
  }

  /** Nothing but whitespace left: the end-of-input token. */
  lemma EofExit(src: seq<byte>, i: nat)
    requires i <= |src| && forall k | i <= k < |src| :: IsWhitespace(src[k])
    ensures Scan(src, i) == Token(Eof, Loc(|src|, |src|))
  {
    assert SkipWhitespace(src, i) == |src|;
  }

  // ---------------------------------------------------------------------------
  // The state machine

  datatype State = Start | InIdentifier | InString | InInt

  /** `lexer_t`: the source buffer and the cursor. */
  class Lexer {
    const source: seq<byte>
    var index: nat

    ghost predicate Valid()
      reads this
    {
      index <= |source|
    }

    /** `lex_init`: the cursor starts at the beginning of the buffer. */
    constructor (source: seq<byte>)
      ensures Valid() && this.source == source && index == 0
    {
      this.source := source;
      index := 0;
    }

    /** `lex_next`: return the token at the cursor and move the cursor past it. */
    method Next() returns (tok: Token)
      requires Valid()
      modifies this
      ensures Valid()
      ensures tok == Scan(source, old(index))
      ensures index == tok.loc.end
    {
      ghost var i0 := index;
      var id := Eof;
      var start := index;
      var state := Start;
      ghost var stopped := false;
      while index < |source|
        invariant i0 <= start <= index <= |source|
        invariant forall k | i0 <= k < start :: IsWhitespace(source[k])
        invariant state == Start ==> id == Eof && start == index
        invariant state != Start ==> start < index && !IsWhitespace(source[start])
        invariant state == InIdentifier ==>
          id == Identifier && IsLetter(source[start])
          && forall k | start < k < index :: IsLetter(source[k])
        invariant state == InInt ==>
          id == Int && IsIntStart(source[start])
          && forall k | start < k < index :: IsIntContinue(source[k])
        invariant state == InString ==>
          id == StringLiteral && source[start] == QUOTE
          && forall k | start < k < index :: source[k] != QUOTE
      {
        var c := source[index];
        match state {
          case Start =>
            if IsWhitespace(c) {
              start := index + 1;
            } else if c == LPAREN_CHAR {
              ByteExit(source, i0, index);
              id := LParen;
              index := index + 1;
              stopped := true;
              break;
            } else if c == RPAREN_CHAR {
              ByteExit(source, i0, index);
              id := RParen;
              index := index + 1;
              stopped := true;
              break;
            } else if c == QUOTE {
              id := StringLiteral;
              state := InString;
            } else if IsLetter(c) {
              state := InIdentifier;
              id := Identifier;
            } else if IsIntStart(c) {
              state := InInt;
              id := Int;
            } else {
              ByteExit(source, i0, index);
              id := Invalid;
              index := index + 1;
              stopped := true;
              break;
            }
          case InInt =>
            if !IsIntContinue(c) {
              NumberExit(source, i0, start, index);
              if IsIdentifierChar(c) {
                id := Invalid;
              }
              stopped := true;
              break;
            }
          case InIdentifier =>
            if !IsLetter(c) {
              WordExit(source, i0, start, index);
              var keyword := TokenGetKeyword(source[start..index]);
              if keyword.Some? {
                id := keyword.value;
              }
              stopped := true;
              break;
            }
          case InString =>
            if c == QUOTE {
              StringExit(source, i0, start, index);
              index := index + 1;
              stopped := true;
              break;
            }
        }
        index := index + 1;
      }
      if !stopped {
        match state {
          case Start => EofExit(source, i0);
          case InIdentifier => WordExit(source, i0, start, index);
          case InInt => NumberExit(source, i0, start, index);
          case InString => StringExit(source, i0, start, index);
        }
      }
      tok := Token(id, Loc(start, index));
    }
  }
}
