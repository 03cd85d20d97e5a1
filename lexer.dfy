// The scanner (Lexer.cpp, with the Lexer class of Lexer.h).
//
// The source walks a NUL-terminated buffer with a raw pointer; here the
// buffer is a `string` and the cursor an index into it, so "the current
// character is NUL" reads as "the cursor is at the end of the buffer".

module Lexer {
  import opened Wrappers
  import opened Tokens

  // ---------------------------------------------------------------------
  // Character classes (namespace charinfo, Lexer.cpp:3-15)
  // ---------------------------------------------------------------------

  const FormFeed: char := '\U{000C}'
  const VerticalTab: char := '\U{000B}'

  predicate IsWhitespace(c: char) {
    c == ' ' || c == '\t' || c == FormFeed || c == VerticalTab || c == '\r' || c == '\n'
  }

  predicate IsDigit(c: char) {
    '0' <= c <= '9'
  }

  predicate IsLetter(c: char) {
    ('a' <= c <= 'z') || ('A' <= c <= 'Z')
  }

  /** The three classes, listed as sets, and the fact that no character is in
      two of them: this is what lets `next` decide a token by its first
      character alone. */
  lemma CharClassesDisjoint(c: char)
    ensures IsWhitespace(c) <==> c in {' ', '\t', FormFeed, VerticalTab, '\r', '\n'}
    ensures IsDigit(c) <==> c in "0123456789"
    ensures !(IsWhitespace(c) && IsDigit(c))
    ensures !(IsWhitespace(c) && IsLetter(c))
    ensures !(IsDigit(c) && IsLetter(c))
  {
  }

  /** The class a maximal run is made of. */
  datatype CharClass = Whitespace | Letter | Digit

  predicate InClass(cls: CharClass, c: char) {
    match cls
    case Whitespace => IsWhitespace(c)
    case Letter => IsLetter(c)
    case Digit => IsDigit(c)
  }

  /** The end of the maximal run of `cls` characters starting at `p`. */
  function RunEnd(buf: string, p: nat, cls: CharClass): (q: nat)
    requires p <= |buf|
    ensures p <= q <= |buf|
    ensures forall k :: p <= k < q ==> InClass(cls, buf[k])
    ensures q == |buf| || !InClass(cls, buf[q])
    decreases |buf| - p
  {
    if p < |buf| && InClass(cls, buf[p]) then RunEnd(buf, p + 1, cls) else p
  }

  /** Where the next token starts: the whitespace loop of Lexer.cpp:18-20. */
  function SkipWhitespace(buf: string, p: nat): (q: nat)
    requires p <= |buf|
    ensures p <= q <= |buf|
    ensures forall k :: p <= k < q ==> IsWhitespace(buf[k])
    ensures q == |buf| || !IsWhitespace(buf[q])
  {
    RunEnd(buf, p, Whitespace)
  }

  // ---------------------------------------------------------------------
  // Keywords (Lexer.cpp:31-50)
  // ---------------------------------------------------------------------

  /** A letter run is a keyword when it spells one, an identifier otherwise. */
  function KeywordKind(name: string): (k: TokenKind)
    ensures k == Ident || IsKeyword(k)
  {
    if name == "int" then KwInt
    else if name == "and" then KwAnd
    else if name == "or" then KwOr
    else if name == "begin" then KwBegin
    else if name == "end" then KwEnd
    else if name == "if" then KwIf
    else if name == "elif" then KwElif
    else if name == "else" then KwElse
    else if name == "loopc" then KwLoopc
    else Ident
  }

  /** The spelling of each keyword kind. */
  function Spelling(k: TokenKind): string
    requires IsKeyword(k)
  {
    match k
    case KwInt => "int"
    case KwAnd => "and"
    case KwOr => "or"
    case KwBegin => "begin"
    case KwEnd => "end"
    case KwIf => "if"
    case KwElif => "elif"
    case KwElse => "else"
    case KwLoopc => "loopc"
  }

  /** Keyword classification and spelling are inverse to each other: a word
      is classified as keyword `k` exactly when it is `k`'s spelling. */
  lemma KeywordClassification(name: string, k: TokenKind)
    requires IsKeyword(k)
    ensures KeywordKind(name) == k <==> name == Spelling(k)
  {
  }

  // ---------------------------------------------------------------------
  // Operators (Lexer.cpp:84-155)
  // ---------------------------------------------------------------------

  /** The two-character operators, each a first character followed by `=`
      (Lexer.cpp:85-120); they are tried before any one-character operator. */
  function TwoCharKind(c: char): (k: Option<TokenKind>)
    ensures k.Some? ==> k.value in {PlusEqual, MinusEqual, SlashEqual, PercentEqual,
                                    StarEqual, GreaterEqual, LessEqual, EqualEqual, NotEqual}
  {
    if c == '+' then Some(PlusEqual)
    else if c == '-' then Some(MinusEqual)
    else if c == '/' then Some(SlashEqual)
    else if c == '%' then Some(PercentEqual)
    else if c == '*' then Some(StarEqual)
    else if c == '>' then Some(GreaterEqual)
    else if c == '<' then Some(LessEqual)
    else if c == '=' then Some(EqualEqual)
    else if c == '!' then Some(NotEqual)
    else None
  }

  /** The one-character operators as the active if-chain has them
      (Lexer.cpp:121-155): `^ ( ) , ; :` have no case there and fall into
      `unknown`. */
  function OneCharKindAsWritten(c: char): (k: TokenKind)
    ensures k != Eoi
  {
    if c == '+' then Plus
    else if c == '-' then Minus
    else if c == '/' then Slash
    else if c == '%' then Percent
    else if c == '*' then Star
    else if c == '>' then Greater
    else if c == '<' then Less
    else if c == '=' then Equal
    else Unknown
  }

  /** With the active chain, `;` is an unknown token, so no declaration or
      assignment (both end in `;`) could ever be parsed. */
  lemma PunctuationUnknownAsWritten()
    ensures OneCharKindAsWritten(';') == Unknown
    ensures OneCharKindAsWritten('(') == Unknown
    ensures OneCharKindAsWritten(':') == Unknown
    ensures OneCharKindAsWritten('^') == Unknown
  {
  }

  /** The one-character operators as intended: the active chain plus the
      cases of the commented-out table (Lexer.cpp:64-82) it lost. */
  function OneCharKind(c: char): (k: TokenKind)
    ensures k != Eoi
    ensures OneCharKindAsWritten(c) != Unknown ==> k == OneCharKindAsWritten(c)
  {
    if c == '^' then Power
    else if c == '(' then LParen
    else if c == ')' then RParen
    else if c == ',' then Comma
    else if c == ';' then Semicolon
    else if c == ':' then Colon
    else OneCharKindAsWritten(c)
  }

  /** Every entry of the commented table is recognised by the corrected
      chain, and only the listed characters make an operator token. */
  lemma OneCharTable(c: char)
    ensures OneCharKind(c) != Unknown <==> c in "+-*/()=:,;^%><"
    ensures OneCharKind(';') == Semicolon && OneCharKind(',') == Comma
    ensures OneCharKind('(') == LParen && OneCharKind(')') == RParen
    ensures OneCharKind(':') == Colon && OneCharKind('^') == Power
  {
  }

  // ---------------------------------------------------------------------
  // The scanner as a function of the buffer and the cursor
  // ---------------------------------------------------------------------

  /** A scanned token and the cursor after it. */
  datatype Scanned = Scanned(tok: Token, end: nat)

  /** The operator rule at `start`: longest match first. */
  function ScanOperator(buf: string, start: nat): (s: Scanned)
    requires start < |buf|
    ensures start < s.end <= start + 2 && s.end <= |buf|
    ensures s.tok.kind != Eoi && s.tok.text == buf[start..s.end]
  {
    var two := TwoCharKind(buf[start]);
    if start + 1 < |buf| && buf[start + 1] == '=' && two.Some? then
      Scanned(Token(two.value, buf[start..start + 2]), start + 2)
    else
      Scanned(Token(OneCharKind(buf[start]), buf[start..start + 1]), start + 1)
  }

  /** What one call of `next` yields from cursor `p` (Lexer.cpp:17-159). */
  function Scan(buf: string, p: nat): (s: Scanned)
    requires p <= |buf|
    ensures SkipWhitespace(buf, p) <= s.end <= |buf|
    ensures s.tok.text == buf[SkipWhitespace(buf, p)..s.end]
    ensures s.tok.kind == Eoi <==> SkipWhitespace(buf, p) == |buf|
    ensures s.tok.kind != Eoi ==> SkipWhitespace(buf, p) < s.end
  {
    var start := SkipWhitespace(buf, p);
    if start == |buf| then
      Scanned(Token(Eoi, buf[start..start]), start)
    else if IsLetter(buf[start]) then
      var end := RunEnd(buf, start, Letter);
      Scanned(Token(KeywordKind(buf[start..end]), buf[start..end]), end)
    else if IsDigit(buf[start]) then
      var end := RunEnd(buf, start, Digit);
      Scanned(Token(Number, buf[start..end]), end)
    else
      ScanOperator(buf, start)
  }

  /** The whitespace loop of `next` stops where `SkipWhitespace` does. */
  lemma SkippedTo(buf: string, p: nat, q: nat)
    requires p <= q <= |buf| && SkipWhitespace(buf, q) == SkipWhitespace(buf, p)
    requires q == |buf| || !IsWhitespace(buf[q])
    ensures SkipWhitespace(buf, p) == q
  {
  }

  /** The letter and digit loops of `next` stop where `RunEnd` does, so
      the token they form is the one `Scan` describes. */
  lemma ScanAtRun(buf: string, p: nat, start: nat, end: nat, cls: CharClass)
    requires p <= start < end <= |buf| && SkipWhitespace(buf, p) == start
    requires cls == Letter || (cls == Digit && !IsLetter(buf[start]))
    requires InClass(cls, buf[start]) && RunEnd(buf, start, cls) == end
    ensures Scan(buf, p) == Scanned(Token(if cls == Letter then KeywordKind(buf[start..end]) else Number, buf[start..end]), end)
  {
  }

  /** Past whitespace, a character that is neither a letter nor a digit
      starts an operator token. */
  lemma ScanAtOperator(buf: string, p: nat, start: nat)
    requires p <= start < |buf| && SkipWhitespace(buf, p) == start
    requires !IsLetter(buf[start]) && !IsDigit(buf[start])
    ensures Scan(buf, p) == ScanOperator(buf, start)
  {
  }

  /** The letter and digit loops of `next` (Lexer.cpp:28-29, 56-58): from
      a character of the class, the end of the run of that class. */
  method RunFrom(buf: string, start: nat, cls: CharClass) returns (end: nat)
    requires start < |buf| && InClass(cls, buf[start])
    ensures end == RunEnd(buf, start, cls)
  {
    end := start + 1;
    while end < |buf| && InClass(cls, buf[end])
      invariant start < end <= |buf|
      invariant RunEnd(buf, end, cls) == RunEnd(buf, start, cls)
      decreases |buf| - end
    {
      end := end + 1;
    }
  }

  /** A token never starts with whitespace, and every token but `eoi`
      consumes at least one character: the cursor strictly advances. */
  lemma ScanProgress(buf: string, p: nat)
    requires p <= |buf|
    ensures var s := Scan(buf, p);
      && p <= s.end
      && (s.tok.kind == Eoi <==> s.tok.text == "")
      && (s.tok.kind != Eoi ==> p < s.end && !IsWhitespace(s.tok.text[0]))
      && (s.tok.kind == Eoi ==> s.end == |buf| && forall k :: p <= k < |buf| ==> IsWhitespace(buf[k]))
  {
  }

  /** A letter starts a maximal run of letters; the run is one token, a
      keyword when it spells one and an identifier otherwise, and an
      identifier never contains a digit. */
  lemma ScanWord(buf: string, p: nat)
    requires p <= |buf|
    requires SkipWhitespace(buf, p) < |buf| && IsLetter(buf[SkipWhitespace(buf, p)])
    ensures var s := Scan(buf, p);
      && |s.tok.text| > 0
      && (forall k :: 0 <= k < |s.tok.text| ==> IsLetter(s.tok.text[k]) && !IsDigit(s.tok.text[k]))
      && (s.end == |buf| || !IsLetter(buf[s.end]))
      && s.tok.kind == KeywordKind(s.tok.text)
      && (s.tok.kind == Ident || s.tok.text == Spelling(s.tok.kind))
  {
    var start := SkipWhitespace(buf, p);
    var end := RunEnd(buf, start, Letter);
    var s := Scan(buf, p);
    assert s == Scanned(Token(KeywordKind(buf[start..end]), buf[start..end]), end);
    forall k | 0 <= k < |s.tok.text|
      ensures IsLetter(s.tok.text[k])
    {
      assert s.tok.text[k] == buf[start + k];
    }
    if s.tok.kind != Ident {
      KeywordClassification(s.tok.text, s.tok.kind);
    }
  }

  /** A digit starts a maximal run of digits, which is one `number` token. */
  lemma ScanNumber(buf: string, p: nat)
    requires p <= |buf|
    requires SkipWhitespace(buf, p) < |buf| && IsDigit(buf[SkipWhitespace(buf, p)])
    ensures var s := Scan(buf, p);
      && s.tok.kind == Number
      && |s.tok.text| > 0
      && (forall k :: 0 <= k < |s.tok.text| ==> IsDigit(s.tok.text[k]))
      && (s.end == |buf| || !IsDigit(buf[s.end]))
  {
    var start := SkipWhitespace(buf, p);
    var s := Scan(buf, p);
    forall k | 0 <= k < |s.tok.text|
      ensures IsDigit(s.tok.text[k])
    {
      assert s.tok.text[k] == buf[start + k];
    }
  }

  /** Longest match: an operator character followed by `=` is one
      two-character token; any other non-letter, non-digit character is a
      one-character token, `unknown` when no rule names it. */
  lemma ScanOperatorLongestMatch(buf: string, p: nat)
    requires p <= |buf|
    requires var start := SkipWhitespace(buf, p);
      start < |buf| && !IsLetter(buf[start]) && !IsDigit(buf[start])
    ensures var start := SkipWhitespace(buf, p); var s := Scan(buf, p);
      && (start + 1 < |buf| && buf[start + 1] == '=' && TwoCharKind(buf[start]).Some? ==>
            s.end == start + 2 && s.tok.kind == TwoCharKind(buf[start]).value)
      && (!(start + 1 < |buf| && buf[start + 1] == '=' && TwoCharKind(buf[start]).Some?) ==>
            s.end == start + 1 && s.tok.kind == OneCharKind(buf[start]))
  {
  }

  // ---------------------------------------------------------------------
  // The whole token stream
  // ---------------------------------------------------------------------

  /** The tokens that repeated calls of `next` yield from cursor `p`, up to
      but not including the first `eoi`. */
  function TokenStream(buf: string, p: nat): (ts: seq<Token>)
    requires p <= |buf|
    ensures forall k :: 0 <= k < |ts| ==> ts[k].kind != Eoi
    decreases |buf| - p
  {
    var s := Scan(buf, p);
    if s.tok.kind == Eoi then [] else [s.tok] + TokenStream(buf, s.end)
  }

  /** The characters of a string that are not whitespace, in order. */
  function Strip(s: string): (r: string)
    ensures |r| <= |s|
    ensures forall k :: 0 <= k < |r| ==> !IsWhitespace(r[k])
  {
    if s == [] then []
    else if IsWhitespace(s[0]) then Strip(s[1..])
    else [s[0]] + Strip(s[1..])
  }

  /** The texts of a token list, concatenated. */
  function Texts(ts: seq<Token>): string {
    if ts == [] then [] else ts[0].text + Texts(ts[1..])
  }

  lemma {:induction false} StripAppend(a: string, b: string)
    ensures Strip(a + b) == Strip(a) + Strip(b)
  {
    if a == [] {
      assert a + b == b;
    } else {
      assert (a + b)[0] == a[0];
      assert (a + b)[1..] == a[1..] + b;
      StripAppend(a[1..], b);
    }
  }

  lemma {:induction false} StripAllWhitespace(s: string)
    requires forall k :: 0 <= k < |s| ==> IsWhitespace(s[k])
    ensures Strip(s) == []
  {
    if s != [] {
      StripAllWhitespace(s[1..]);
    }
  }

  lemma {:induction false} StripNoWhitespace(s: string)
    requires forall k :: 0 <= k < |s| ==> !IsWhitespace(s[k])
    ensures Strip(s) == s
  {
    if s != [] {
      StripNoWhitespace(s[1..]);
    }
  }

  /** A token's text holds no whitespace. */
  lemma TokenTextNoWhitespace(buf: string, p: nat)
    requires p <= |buf|
    ensures var s := Scan(buf, p);
      forall k :: SkipWhitespace(buf, p) <= k < s.end ==> !IsWhitespace(buf[k])
  {
    var start := SkipWhitespace(buf, p);
    var s := Scan(buf, p);
    forall k | start <= k < s.end
      ensures !IsWhitespace(buf[k])
    {
      if IsLetter(buf[start]) {
        assert IsLetter(buf[k]);
      } else if IsDigit(buf[start]) {
        assert IsDigit(buf[k]);
      } else {
        assert k == start || buf[k] == '=';
      }
    }
  }

  /** The scanner loses and invents nothing: the token texts, concatenated,
      are exactly the buffer from the cursor on with its whitespace
      removed. */
  lemma {:induction false} TokensCoverBuffer(buf: string, p: nat)
    requires p <= |buf|
    ensures Texts(TokenStream(buf, p)) == Strip(buf[p..])
    decreases |buf| - p
  {
    var s := Scan(buf, p);
    var start := SkipWhitespace(buf, p);
    assert buf[p..] == buf[p..start] + buf[start..];
    StripAppend(buf[p..start], buf[start..]);
    StripAllWhitespace(buf[p..start]);
    assert Strip(buf[p..]) == Strip(buf[start..]);
    if s.tok.kind == Eoi {
      assert buf[start..] == [];
    } else {
      assert buf[start..] == buf[start..s.end] + buf[s.end..];
      StripAppend(buf[start..s.end], buf[s.end..]);
      TokenTextNoWhitespace(buf, p);
      StripNoWhitespace(buf[start..s.end]);
      TokensCoverBuffer(buf, s.end);
      var ts := TokenStream(buf, p);
      assert ts == [s.tok] + TokenStream(buf, s.end);
      assert ts[1..] == TokenStream(buf, s.end);
    }
  }

  // ---------------------------------------------------------------------
  // The Lexer object (Lexer.h:67-81, Lexer.cpp:17-165)
  // ---------------------------------------------------------------------

  class Lexer {
    const buffer: string
    var bufferPtr: nat

    ghost predicate Valid()
      reads this
    {
      bufferPtr <= |buffer|
    }

    /** A fresh lexer has its cursor at the start of the buffer
        (Lexer.h:72-75). */
    constructor (buffer: string)
      ensures Valid()
      ensures this.buffer == buffer && bufferPtr == 0
    {
      this.buffer := buffer;
      bufferPtr := 0;
    }

    /** `next` (Lexer.cpp:17-159): skip whitespace, then classify by the
        first character. The source's end-of-input test `!BufferPtr`
        (Lexer.cpp:22) tests `BufferPtr` itself instead of the character at
        the cursor; the test here is on the character, that is, the cursor being at
        the end. The source leaves an `eoi` token's text as it was; here it is
        the empty text at the end of the buffer. In the operator chain the
        source leaves `mode` unset for `unknown`; here `unknown` spans one
        character. */
    method Next() returns (token: Token)
      requires Valid()
      modifies this
      ensures Valid()
      ensures Scanned(token, bufferPtr) == Scan(buffer, old(bufferPtr))
    {
      while bufferPtr < |buffer| && IsWhitespace(buffer[bufferPtr])
        invariant bufferPtr <= |buffer|
        invariant SkipWhitespace(buffer, bufferPtr) == SkipWhitespace(buffer, old(bufferPtr))
        decreases |buffer| - bufferPtr
      {
        bufferPtr := bufferPtr + 1;
      }
      ghost var p0 := old(bufferPtr);
      SkippedTo(buffer, p0, bufferPtr);
      if bufferPtr == |buffer| {
        token := Token(Eoi, buffer[bufferPtr..bufferPtr]);
        return;
      }
      if IsLetter(buffer[bufferPtr]) {
        var end := RunFrom(buffer, bufferPtr, Letter);
        ScanAtRun(buffer, p0, bufferPtr, end, Letter);
        token := FormToken(end, KeywordKind(buffer[bufferPtr..end]));
        return;
      } else if IsDigit(buffer[bufferPtr]) {
        var end := RunFrom(buffer, bufferPtr, Digit);
        ScanAtRun(buffer, p0, bufferPtr, end, Digit);
        token := FormToken(end, Number);
        return;
      } else {
        ScanAtOperator(buffer, p0, bufferPtr);
        token := NextOperator();
      }
    }

    /** The operator chain of `next` (Lexer.cpp:60-157): a character that
        with a following `=` forms a two-character operator takes both;
        any other character is a token of its own. */
    method NextOperator() returns (token: Token)
      requires Valid() && bufferPtr < |buffer|
      modifies this
      ensures Valid()
      ensures Scanned(token, bufferPtr) == ScanOperator(buffer, old(bufferPtr))
    {
      var mode: nat;
      var kind: TokenKind;
      var two := TwoCharKind(buffer[bufferPtr]);
      if bufferPtr + 1 < |buffer| && buffer[bufferPtr + 1] == '=' && two.Some? {
        mode, kind := 2, two.value;
      } else {
        mode, kind := 1, OneCharKind(buffer[bufferPtr]);
      }
      token := FormToken(bufferPtr + mode, kind);
    }

    /** `formToken` (Lexer.cpp:161-165): the token spans exactly
        `[BufferPtr, TokEnd)` and the cursor moves to `TokEnd`. */
    method FormToken(tokEnd: nat, kind: TokenKind) returns (tok: Token)
      requires Valid() && bufferPtr <= tokEnd <= |buffer|
      modifies this
      ensures Valid()
      ensures tok == Token(kind, old(buffer[bufferPtr..tokEnd])) && bufferPtr == tokEnd
    {
      tok := Token(kind, buffer[bufferPtr..tokEnd]);
      bufferPtr := tokEnd;
    }
  }
}
