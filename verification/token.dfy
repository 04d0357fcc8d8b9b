/**
  The token value produced by the scanner: a kind, a half-open span of
  offsets into the source buffer, an optional payload and two line fields.
 */
module Tokens {
  import opened Chars
  import opened Wrappers

  /** The token kinds, in the order the enumeration declares them. */
  datatype TokenType =
    | Unknown
    | Ident
    | AtKeyword
    | String
    | BadString
    | UnquotedString
    | Hash
    | Num
    | Percentage
    | Dimension
    | UnicodeRange
    | CDO                // <!--
    | CDC                // -->
    | Colon
    | SemiColon
    | CurlyL
    | CurlyR
    | ParenthesisL
    | ParenthesisR
    | BracketL
    | BracketR
    | Whitespace
    | Includes           // ~=
    | Dashmatch          // |=
    | SubstringOperator  // *=
    | PrefixOperator     // ^=
    | SuffixOperator     // $=
    | Delim
    | EMS                // 3em
    | EXS                // 3ex
    | Length
    | Angle
    | Time
    | Freq
    | Exclamation
    | Resolution
    | Comma
    | Charset
    | EscapedJavaScript
    | BadEscapedJavaScript
    | Comment
    | SingleLineComment
    | EOF
    | Extension

  /**
    The stored payload (`object?` in the source). The scanner stores either
    nothing or a run of code units; `Held` stands for the `ValueHolder`
    wrapper that `Extension` tokens keep their value in.
   */
  datatype Payload = Null | Text(text: seq<CodeUnit>) | Held(inner: Payload)

  datatype Token = Token(
    kind: TokenType,
    stored: Payload,
    start: int,
    end: int,
    lineNumber: int,
    lineStart: int)
  {
    /**
      The payload a caller sees. For every kind except `Extension` it is the
      stored payload itself; an `Extension` token unwraps its holder, and
      `None` stands for the failed cast when the stored payload is no holder.
     */
    function Value(): (v: Option<Payload>)
      ensures kind != Extension ==> v == Some(stored)
      ensures kind == Extension ==> (v.Some? <==> stored.Held?)
      ensures kind == Extension && stored.Held? ==> v == Some(stored.inner)
    {
      if kind != Extension then Some(stored)
      else if stored.Held? then Some(stored.inner)
      else None
    }
  }

  /** The factory every scanner branch calls; it copies its arguments into the token. */
  function Create(kind: TokenType, value: Payload, start: int, end: int, lineNumber: int, lineStart: int): (t: Token)
    ensures t.kind == kind && t.stored == value
    ensures t.start == start && t.end == end
    ensures t.lineNumber == lineNumber && t.lineStart == lineStart
  {
    Token(kind, value, start, end, lineNumber, lineStart)
  }

  /**
    What a token is created with is what `Value` gives back: the payload
    itself for every kind but `Extension`, and the held value for an
    `Extension` created with a holder.
   */
  lemma CreateValueRoundTrip(kind: TokenType, value: Payload, start: int, end: int, lineNumber: int, lineStart: int)
    ensures kind != Extension ==> Create(kind, value, start, end, lineNumber, lineStart).Value() == Some(value)
    ensures Create(Extension, Held(value), start, end, lineNumber, lineStart).Value() == Some(value)
    ensures Create(Extension, Null, start, end, lineNumber, lineStart).Value() == None
  {
  }

  /** How the payload of a token of some kind relates to its lexeme `source[Start..End]`. */
  datatype PayloadRule =
    | NoPayload         // always null
    | WholeLexeme       // exactly the lexeme
    | NameAfterMark     // the lexeme without its first character (the `#` of a hash)
    | NullOrLexeme      // null, or exactly the lexeme
    | NotEmitted        // the scanner never builds a token of this kind

  /** The payload rule the scanner's branches follow for each kind. */
  function RuleOf(k: TokenType): PayloadRule {
    match k
    case Ident | String | AtKeyword | Charset | UnquotedString => WholeLexeme
    case EMS | EXS | Length | Angle | Time | Freq | Resolution | Dimension => WholeLexeme
    case Includes | Dashmatch | SubstringOperator | PrefixOperator | SuffixOperator => WholeLexeme
    case Whitespace | Comment => WholeLexeme
    case Hash => NameAfterMark
    case Percentage => NullOrLexeme
    case CDO | CDC | Num | Exclamation | Delim | EOF => NoPayload
    case SemiColon | Colon | CurlyL | CurlyR | BracketL | BracketR => NoPayload
    case ParenthesisL | ParenthesisR | Comma => NoPayload
    case Unknown | BadString | UnicodeRange | EscapedJavaScript => NotEmitted
    case BadEscapedJavaScript | SingleLineComment | Extension => NotEmitted
  }

  /** Kinds declared by the enumeration that no scanner branch constructs. */
  predicate NeverEmitted(k: TokenType) {
    RuleOf(k).NotEmitted?
  }

  /** Kinds a number followed by a unit identifier can take (besides `Percentage` for `fr`). */
  predicate IsUnitKind(k: TokenType) {
    k.EMS? || k.EXS? || k.Length? || k.Angle? || k.Time? || k.Freq? || k.Resolution? || k.Dimension?
  }

  /** Every unit kind, and `Percentage`, carries its lexeme or (for `Percentage`) possibly nothing. */
  lemma UnitKindRule(k: TokenType)
    requires IsUnitKind(k) || k.Percentage?
    ensures RuleOf(k).WholeLexeme? || RuleOf(k).NullOrLexeme?
  {
  }

  predicate IsOperatorKind(k: TokenType) {
    k.Includes? || k.Dashmatch? || k.SubstringOperator? || k.PrefixOperator? || k.SuffixOperator?
  }

  predicate IsPunctuationKind(k: TokenType) {
    k.SemiColon? || k.Colon? || k.CurlyL? || k.CurlyR? || k.BracketL? || k.BracketR?
    || k.ParenthesisL? || k.ParenthesisR? || k.Comma?
  }
}
