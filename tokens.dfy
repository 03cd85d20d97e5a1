// Token kinds and tokens of the calculator language (Lexer.h).

module Tokens {

  /** The closed set of token kinds the scanner produces (Lexer.h:13-51).
      The source's lower-case names (`eoi`, `plusequal`, `KW_int`, ...) are
      written here in Dafny's PascalCase; parser.cpp also refers to kinds that
      Lexer.h never declares (`KW_colon`, `KW_mod`, `KW_EqEq`, `num`, `id`, ...),
      which this model reads as `Colon`, `Percent`, `EqualEqual`, `Number`,
      `Ident`, and so on. */
  datatype TokenKind =
    | Eoi            // end of input
    | Unknown        // a character no rule accepts (a lexical error)
    | Ident
    | Number
    | Equal
    | Comma
    | Semicolon
    | Colon
    | Plus
    | Minus
    | Star
    | Percent
    | Slash
    | Power
    | PlusEqual
    | MinusEqual
    | StarEqual
    | SlashEqual
    | PercentEqual
    | LParen
    | RParen
    | Greater
    | Less
    | GreaterEqual
    | LessEqual
    | EqualEqual
    | NotEqual
    | KwInt
    | KwAnd
    | KwOr
    | KwBegin
    | KwEnd
    | KwIf
    | KwElif
    | KwElse
    | KwLoopc

  /** A token: its kind and the exact source text it spans (Lexer.h:52-58).
      The getters `getKind`/`getText` are the datatype's destructors. */
  datatype Token = Token(kind: TokenKind, text: string) {

    /** `is(K)` (Lexer.h:61). */
    predicate Is(k: TokenKind) {
      kind == k
    }

    /** The two-kind overload of `isOneOf` (Lexer.h:62). */
    predicate IsOneOf2(k1: TokenKind, k2: TokenKind) {
      Is(k1) || Is(k2)
    }

    /** The variadic `isOneOf(K1, K2, Ks...)` (Lexer.h:63-64): it peels off
        the first kind and ends in the two-kind overload, so the list has at
        least two kinds. Whatever the length, it tests membership. */
    predicate IsOneOf(ks: seq<TokenKind>)
      requires |ks| >= 2
      ensures IsOneOf(ks) <==> kind in ks
    {
      if |ks| == 2 then IsOneOf2(ks[0], ks[1])
      else Is(ks[0]) || IsOneOf(ks[1..])
    }
  }

  /** The kind test on a token list position; past the end every position
      reads as end of input. */
  function Peek(ts: seq<Token>, i: nat): (t: Token)
    ensures i >= |ts| ==> t.kind == Eoi
    ensures i < |ts| ==> t == ts[i]
  {
    if i < |ts| then ts[i] else Token(Eoi, "")
  }

  /** The nine keywords the scanner recognises. */
  predicate IsKeyword(k: TokenKind) {
    k in {KwInt, KwAnd, KwOr, KwBegin, KwEnd, KwIf, KwElif, KwElse, KwLoopc}
  }

  /** The two-kind overload agrees with the variadic one on two kinds, so
      `isOneOf` means "the kind is one of those listed" at every arity. */
  lemma IsOneOfPair(t: Token, k1: TokenKind, k2: TokenKind)
    ensures t.IsOneOf2(k1, k2) <==> t.IsOneOf([k1, k2])
    ensures t.IsOneOf2(k1, k2) <==> t.kind == k1 || t.kind == k2
  {
  }
}
