/**
  UTF-16 code units and the character classes the scanner tests them against.

  A .NET `char` is a 16-bit code unit, so a character is an integer in
  `[0, 0x10000)`. The value 0 doubles as the `'\0'` sentinel that the cursor
  returns for reads outside the buffer.
 */
module Chars {

  type CodeUnit = c: int | 0 <= c < 0x1_0000

  const NUL: CodeUnit := 0x00
  const TAB: CodeUnit := 0x09
  const LF: CodeUnit := 0x0A
  const FF: CodeUnit := 0x0C
  const CR: CodeUnit := 0x0D
  const SPACE: CodeUnit := 0x20
  const BANG: CodeUnit := 0x21       // !
  const DQUOTE: CodeUnit := 0x22     // "
  const HASH: CodeUnit := 0x23       // #
  const DOLLAR: CodeUnit := 0x24     // $
  const PERCENT: CodeUnit := 0x25    // %
  const SQUOTE: CodeUnit := 0x27     // '
  const LPAREN: CodeUnit := 0x28     // (
  const RPAREN: CodeUnit := 0x29     // )
  const STAR: CodeUnit := 0x2A       // *
  const PLUS: CodeUnit := 0x2B       // +
  const COMMA: CodeUnit := 0x2C      // ,
  const DASH: CodeUnit := 0x2D       // -
  const DOT: CodeUnit := 0x2E        // .
  const SLASH: CodeUnit := 0x2F      // /
  const COLON: CodeUnit := 0x3A      // :
  const SEMICOLON: CodeUnit := 0x3B  // ;
  const LESS: CodeUnit := 0x3C       // <
  const EQUALS: CodeUnit := 0x3D     // =
  const GREATER: CodeUnit := 0x3E    // >
  const QUESTION: CodeUnit := 0x3F   // ?
  const AT: CodeUnit := 0x40         // @
  const LBRACKET: CodeUnit := 0x5B   // [
  const BACKSLASH: CodeUnit := 0x5C  // \
  const RBRACKET: CodeUnit := 0x5D   // ]
  const CARET: CodeUnit := 0x5E      // ^
  const UNDERSCORE: CodeUnit := 0x5F // _
  const LBRACE: CodeUnit := 0x7B     // {
  const PIPE: CodeUnit := 0x7C       // |
  const RBRACE: CodeUnit := 0x7D     // }
  const TILDE: CodeUnit := 0x7E      // ~

  predicate IsDigit(c: CodeUnit) {
    '0' as int <= c <= '9' as int
  }

  predicate IsUpper(c: CodeUnit) {
    'A' as int <= c <= 'Z' as int
  }

  predicate IsLower(c: CodeUnit) {
    'a' as int <= c <= 'z' as int
  }

  predicate IsHex(c: CodeUnit) {
    IsDigit(c) || 'a' as int <= c <= 'f' as int || 'A' as int <= c <= 'F' as int
  }

  /** `\n`, `\f` or `\r`: the characters `ScanNewline` consumes. */
  predicate IsNewline(c: CodeUnit) {
    c == LF || c == FF || c == CR
  }

  predicate IsWhitespace(c: CodeUnit) {
    c == SPACE || c == TAB || IsNewline(c)
  }

  predicate IsQuote(c: CodeUnit) {
    c == SQUOTE || c == DQUOTE
  }

  predicate IsQuestionMark(c: CodeUnit) {
    c == QUESTION
  }

  /** Characters that may open an identifier: `_`, an ASCII letter, or any code unit from 0x80 up. */
  predicate IsIdentFirstChar(c: CodeUnit) {
    c == UNDERSCORE || IsLower(c) || IsUpper(c) || 0x80 <= c
  }

  /** Characters that may continue an identifier: the opening ones plus `-` and digits. */
  predicate IsIdentChar(c: CodeUnit) {
    IsIdentFirstChar(c) || c == DASH || IsDigit(c)
  }

  /** Characters an unquoted string (as inside `url(...)`) may contain. */
  predicate IsUnquotedChar(c: CodeUnit) {
    !(c == BACKSLASH || IsQuote(c) || c == LPAREN || c == RPAREN || IsWhitespace(c))
  }

  /** The source's list: exactly ten code units end an unquoted run. */
  lemma UnquotedCharsExclude(c: CodeUnit)
    ensures !IsUnquotedChar(c) <==> c in {BACKSLASH, SQUOTE, DQUOTE, LPAREN, RPAREN, SPACE, TAB, LF, FF, CR}
  {
  }

  /** ASCII lower-casing; every other code unit is left alone. */
  function ToLower(c: CodeUnit): (r: CodeUnit)
    ensures IsUpper(c) ==> IsLower(r) && r - c == 'a' as int - 'A' as int
    ensures !IsUpper(c) ==> r == c
  {
    if IsUpper(c) then c + ('a' as int - 'A' as int) else c
  }

  function Lowered(u: seq<CodeUnit>): (r: seq<CodeUnit>)
    ensures |r| == |u|
    ensures forall i :: 0 <= i < |u| ==> r[i] == ToLower(u[i])
  {
    if u == [] then [] else [ToLower(u[0])] + Lowered(u[1..])
  }

  /** Case-insensitive equality under ASCII case folding. */
  predicate EqualsIgnoreCase(a: seq<CodeUnit>, b: seq<CodeUnit>) {
    |a| == |b| && forall i :: 0 <= i < |a| ==> ToLower(a[i]) == ToLower(b[i])
  }

  /** Two texts are equal ignoring case exactly when their lower-cased forms are equal. */
  lemma EqualsIgnoreCaseLowered(a: seq<CodeUnit>, b: seq<CodeUnit>)
    ensures EqualsIgnoreCase(a, b) <==> Lowered(a) == Lowered(b)
  {
    if Lowered(a) == Lowered(b) {
      assert |a| == |b|;
      forall i | 0 <= i < |a|
        ensures ToLower(a[i]) == ToLower(b[i])
      {
        assert Lowered(a)[i] == Lowered(b)[i];
      }
    }
  }
}
