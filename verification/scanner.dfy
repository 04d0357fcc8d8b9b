/**
  `Scanner`: the trivia loop, the priority-ordered dispatch `ScanNext`, and
  `Scan`, which returns one token per call. The scanner's only state is the
  cursor position, so each operation takes the position and returns the
  position it leaves behind with the token.
 */
module Scanner {
  import opened Wrappers
  import opened Chars
  import opened Tokens
  import opened Cursor
  import opened Lexemes

  /**
    The scanner's two switches. The source initialises them to
    `ignoreWhitespace = true` and `ignoreComment = false` and offers no
    setter, so they are a parameter here with those defaults.
   */
  datatype Config = Config(ignoreWhitespace: bool, ignoreComment: bool)

  const DEFAULT: Config := Config(true, false)

  /** A token and the cursor position after it. */
  datatype Lexed = Lexed(token: Token, pos: nat)

  /** The outcome of `Trivia`: a token or null, and the cursor position after it. */
  datatype TriviaResult = TriviaResult(token: Option<Token>, pos: nat)

  const CDO_TEXT: seq<CodeUnit> := [LESS, BANG, DASH, DASH]
  const CDC_TEXT: seq<CodeUnit> := [DASH, DASH, GREATER]
  const CHARSET: seq<CodeUnit> := [0x63, 0x68, 0x61, 0x72, 0x73, 0x65, 0x74] // "charset"

  /** `Token.Create(kind, value, start, end, 0, 0)`, the call every branch makes. */
  function Make(kind: TokenType, value: Payload, start: nat, end: nat): (t: Token)
    ensures t.kind == kind && t.start == start && t.end == end
    ensures t.lineNumber == 0 && t.lineStart == 0
    ensures kind != Extension ==> t.Value() == Some(value)
  {
    Create(kind, value, start, end, 0, 0)
  }

  /**
    What every token the scanner builds satisfies for the buffer `s`: both
    line fields are 0, `Start <= End`, the kind is one the scanner emits, and
    the payload is fixed by the kind. Every payload is a slice of the source:
    the whole lexeme, or for `Hash` the lexeme without its `#`. `End` lies
    within the buffer except for a `Num` or `Delim` ended by a trailing
    backslash, which can end one past it, and an `EOF` at a cursor that has
    overshot the end.
   */
  ghost predicate WellFormed(s: seq<CodeUnit>, t: Token) {
    && t.lineNumber == 0 && t.lineStart == 0
    && 0 <= t.start <= t.end
    && (!t.kind.EOF? ==> t.end <= |s| + 1)
    && (t.end > |s| ==> t.kind.Delim? || t.kind.Num? || t.kind.EOF?)
    && PayloadFits(s, t)
  }

  /** The token's payload follows the rule for its kind. */
  ghost predicate PayloadFits(s: seq<CodeUnit>, t: Token)
    requires 0 <= t.start <= t.end
  {
    match RuleOf(t.kind)
    case NoPayload => t.stored == Null
    case WholeLexeme => t.end <= |s| && t.stored == Text(s[t.start..t.end])
    case NameAfterMark => t.start < t.end <= |s| && t.stored == Text(s[t.start + 1..t.end])
    case NullOrLexeme => t.end <= |s| && (t.stored == Null || t.stored == Text(s[t.start..t.end]))
    case NotEmitted => false
  }

  // ---------------------------------------------------------------------------
  // Lookup tables
  // ---------------------------------------------------------------------------

  /** One case of the unit switch: a lower-case unit and the kind it selects. */
  datatype UnitEntry = UnitEntry(unit: seq<CodeUnit>, kind: TokenType)

  /**
    The cases of the unit switch applied to the lower-cased unit after a
    number, in source order. The table spells the angle unit `dec`, so `deg`
    falls through to `Dimension`; the `%` case cannot be reached, since a
    unit is an identifier.
   */
  const UNIT_TABLE: seq<UnitEntry> := [
    UnitEntry([0x65, 0x6d], EMS), // "em"
    UnitEntry([0x65, 0x78], EXS), // "ex"
    UnitEntry([0x70, 0x78], Length), // "px"
    UnitEntry([0x63, 0x6d], Length), // "cm"
    UnitEntry([0x6d, 0x6d], Length), // "mm"
    UnitEntry([0x69, 0x6e], Length), // "in"
    UnitEntry([0x70, 0x74], Length), // "pt"
    UnitEntry([0x70, 0x63], Length), // "pc"
    UnitEntry([0x64, 0x65, 0x63], Angle), // "dec"
    UnitEntry([0x72, 0x61, 0x64], Angle), // "rad"
    UnitEntry([0x67, 0x72, 0x61, 0x64], Angle), // "grad"
    UnitEntry([0x6d, 0x73], Time), // "ms"
    UnitEntry([0x73], Time), // "s"
    UnitEntry([0x68, 0x7a], Freq), // "hz"
    UnitEntry([0x6b, 0x68, 0x7a], Freq), // "khz"
    UnitEntry([0x25], Percentage), // "%"
    UnitEntry([0x66, 0x72], Percentage), // "fr"
    UnitEntry([0x64, 0x70, 0x69], Resolution), // "dpi"
    UnitEntry([0x64, 0x70, 0x63, 0x6d], Resolution) // "dpcm"
  ]

  /** No two cases of the unit switch have the same unit. */
  lemma UnitTableDistinct()
    ensures forall i, j :: 0 <= i < j < |UNIT_TABLE| ==> UNIT_TABLE[i].unit != UNIT_TABLE[j].unit
  {
    forall i, j | 0 <= i < j < |UNIT_TABLE|
      ensures UNIT_TABLE[i].unit != UNIT_TABLE[j].unit
    {
      var u, v := UNIT_TABLE[i].unit, UNIT_TABLE[j].unit;
      assert |u| != |v| || u[0] != v[0] || u[|u| - 1] != v[|v| - 1];
    }
  }

  /**
    The switch from case `i` on: the kind of the first case whose unit is
    `dimension`, or `Dimension` when no case matches.
   */
  function LookupUnit(dimension: seq<CodeUnit>, i: nat): (k: TokenType)
    requires i <= |UNIT_TABLE|
    decreases |UNIT_TABLE| - i
    ensures IsUnitKind(k) || k.Percentage?
    ensures (forall j :: i <= j < |UNIT_TABLE| ==> UNIT_TABLE[j].unit != dimension) ==> k == Dimension
    ensures forall j :: i <= j < |UNIT_TABLE| && UNIT_TABLE[j].unit == dimension ==> k == UNIT_TABLE[j].kind
  {
    UnitTableDistinct();
    if i == |UNIT_TABLE| then Dimension
    else if UNIT_TABLE[i].unit == dimension then UNIT_TABLE[i].kind
    else LookupUnit(dimension, i + 1)
  }

  /**
    The unit switch: the kind of the case whose unit is `dimension`, and
    `Dimension` when there is none. Every kind it selects carries the
    lexeme, or, for `Percentage`, possibly nothing.
   */
  function UnitKind(dimension: seq<CodeUnit>): (k: TokenType)
    ensures IsUnitKind(k) || k.Percentage?
    ensures RuleOf(k).WholeLexeme? || RuleOf(k).NullOrLexeme?
    ensures forall j :: 0 <= j < |UNIT_TABLE| && UNIT_TABLE[j].unit == dimension ==> k == UNIT_TABLE[j].kind
    ensures (forall j :: 0 <= j < |UNIT_TABLE| ==> UNIT_TABLE[j].unit != dimension) ==> k == Dimension
  {
    var k := LookupUnit(dimension, 0);
    UnitKindRule(k);
    k
  }

  /** One case of the punctuation switch: a character and the kind it selects. */
  datatype PunctuationEntry = PunctuationEntry(unit: CodeUnit, kind: TokenType)

  /** The cases of the punctuation switch, in source order. */
  const PUNCTUATION_TABLE: seq<PunctuationEntry> := [
    PunctuationEntry(SEMICOLON, SemiColon),
    PunctuationEntry(COLON, Colon),
    PunctuationEntry(LBRACE, CurlyL),
    PunctuationEntry(RBRACE, CurlyR),
    PunctuationEntry(LBRACKET, BracketL),
    PunctuationEntry(RBRACKET, BracketR),
    PunctuationEntry(LPAREN, ParenthesisL),
    PunctuationEntry(RPAREN, ParenthesisR),
    PunctuationEntry(COMMA, Comma)
  ]

  /** One operator comparison: the two-character text and the kind it selects. */
  datatype OperatorEntry = OperatorEntry(text: seq<CodeUnit>, kind: TokenType)

  /** The operator comparisons, in source order. */
  const OPERATOR_TABLE: seq<OperatorEntry> := [
    OperatorEntry([TILDE, EQUALS], Includes),
    OperatorEntry([PIPE, EQUALS], Dashmatch),
    OperatorEntry([STAR, EQUALS], SubstringOperator),
    OperatorEntry([CARET, EQUALS], PrefixOperator),
    OperatorEntry([DOLLAR, EQUALS], SuffixOperator)
  ]

  /**
    The single-character punctuation switch: exactly the nine characters of
    the table are recognised, each as the kind its case names; the
    `Unknown` default is `None`.
   */
  function PunctuationKind(c: CodeUnit): (k: Option<TokenType>)
    ensures k.Some? <==> c in {SEMICOLON, COLON, LBRACE, RBRACE, LBRACKET, RBRACKET, LPAREN, RPAREN, COMMA}
    ensures k.Some? ==> IsPunctuationKind(k.value) && RuleOf(k.value).NoPayload?
  {
    if c == SEMICOLON then Some(SemiColon)
    else if c == COLON then Some(Colon)
    else if c == LBRACE then Some(CurlyL)
    else if c == RBRACE then Some(CurlyR)
    else if c == LBRACKET then Some(BracketL)
    else if c == RBRACKET then Some(BracketR)
    else if c == LPAREN then Some(ParenthesisL)
    else if c == RPAREN then Some(ParenthesisR)
    else if c == COMMA then Some(Comma)
    else None
  }

  /** Each case of the switch gives the kind the table pairs with its character. */
  lemma PunctuationKindTable(c: CodeUnit)
    ensures forall j :: 0 <= j < |PUNCTUATION_TABLE| && PUNCTUATION_TABLE[j].unit == c ==>
      PunctuationKind(c) == Some(PUNCTUATION_TABLE[j].kind)
  { }

  /** Different punctuation characters give different kinds. */
  lemma PunctuationKindInjective(a: CodeUnit, b: CodeUnit)
    requires PunctuationKind(a).Some? && PunctuationKind(a) == PunctuationKind(b)
    ensures a == b
  { }

  /**
    The two-character operators, compared ordinally in this order: exactly
    `~=`, `|=`, `*=`, `^=` and `$=` are recognised, each as the kind its
    comparison names.
   */
  function OperatorKind(pair: seq<CodeUnit>): (k: Option<TokenType>)
    ensures k.Some? <==> |pair| == 2 && pair[0] in {TILDE, PIPE, STAR, CARET, DOLLAR} && pair[1] == EQUALS
    ensures k.Some? ==> IsOperatorKind(k.value) && RuleOf(k.value).WholeLexeme?
  {
    if pair == [TILDE, EQUALS] then Some(Includes)
    else if pair == [PIPE, EQUALS] then Some(Dashmatch)
    else if pair == [STAR, EQUALS] then Some(SubstringOperator)
    else if pair == [CARET, EQUALS] then Some(PrefixOperator)
    else if pair == [DOLLAR, EQUALS] then Some(SuffixOperator)
    else None
  }

  /** Each comparison gives the kind the table pairs with its text. */
  lemma OperatorKindTable(pair: seq<CodeUnit>)
    ensures forall j :: 0 <= j < |OPERATOR_TABLE| && OPERATOR_TABLE[j].text == pair ==>
      OperatorKind(pair) == Some(OPERATOR_TABLE[j].kind)
  { }

  /** Different operators give different kinds. */
  lemma OperatorKindInjective(a: seq<CodeUnit>, b: seq<CodeUnit>)
    requires OperatorKind(a).Some? && OperatorKind(a) == OperatorKind(b)
    ensures a == b
  { }

  // ---------------------------------------------------------------------------
  // Branches of the dispatch
  // ---------------------------------------------------------------------------

  /**
    The `@` branch, entered with the cursor at `p`, just after the `@` at
    `offset`. With no name it yields a ZERO-width `Delim` at `offset` although
    the cursor has moved; otherwise `Charset` when the name is "charset" under
    ASCII case folding, else `AtKeyword`, carrying the lexeme with its `@`.
   */
  function AtKeywordToken(s: seq<CodeUnit>, offset: nat, p: nat): (r: Lexed)
    requires offset < p <= |s|
    ensures p <= r.pos && r.token.start == offset && r.token.end <= r.pos
    ensures r.token.kind.Delim? || r.token.kind.AtKeyword? || r.token.kind.Charset?
    ensures r.token.kind.Delim? <==> ScanName(s, p).lexeme == []
    ensures r.token.kind.Delim? ==> r.token.end == offset && r.token.stored == Null
    ensures !r.token.kind.Delim? ==> r.token.end == r.pos <= |s| && r.token.stored == Text(s[offset..r.pos])
    ensures !r.token.kind.Delim? ==> (r.token.kind.Charset? <==> EqualsIgnoreCase(s[p..r.pos], CHARSET))
    ensures WellFormed(s, r.token)
  {
    var name := ScanName(s, p);
    if name.lexeme == [] then Lexed(Make(Delim, Null, offset, offset), name.pos)
    else
      var kind := if EqualsIgnoreCase(name.lexeme, CHARSET) then Charset else AtKeyword;
      Lexed(Make(kind, Text(Substring(s, offset, name.pos)), offset, name.pos), name.pos)
  }

  /**
    The `#` branch, entered with the cursor at `p`, just after the `#` at
    `offset`: `Hash` carrying the name without the `#`, or, with no name, a
    `Delim` that ends where the cursor stopped.
   */
  function HashToken(s: seq<CodeUnit>, offset: nat, p: nat): (r: Lexed)
    requires offset < p <= |s|
    ensures p <= r.pos && r.token.start == offset && r.token.end == r.pos
    ensures r.token.kind.Delim? || r.token.kind.Hash?
    ensures r.token.kind.Hash? <==> ScanName(s, p).lexeme != []
    ensures r.token.kind.Hash? ==> p < r.pos <= |s| && r.token.stored == Text(s[p..r.pos])
    ensures r.token.kind.Delim? ==> r.token.stored == Null
    ensures offset + 1 == p ==> WellFormed(s, r.token)
  {
    var name := ScanName(s, p);
    if name.lexeme == [] then Lexed(Make(Delim, Null, offset, name.pos), name.pos)
    else Lexed(Make(Hash, Text(name.lexeme), offset, name.pos), name.pos)
  }

  /**
    What follows a number that ends at `p`: `%` gives a `Percentage` with no
    payload; an identifier gives the kind `UnitKind` assigns to its
    lower-cased text, carrying the whole lexeme; otherwise the token is a
    `Num`, ending wherever the failed identifier scan left the cursor.
   */
  function NumericToken(s: seq<CodeUnit>, offset: nat, p: nat): (r: Lexed)
    requires offset < p <= |s|
    ensures p <= r.pos <= |s| + 1 && r.token.start == offset && r.token.end == r.pos
    ensures r.token.kind.Num? || r.token.kind.Percentage? || IsUnitKind(r.token.kind)
    ensures WellFormed(s, r.token)
  {
    var percent := AdvanceIfChar(s, p, PERCENT);
    if percent.ok then Lexed(Make(Percentage, Null, offset, percent.pos), percent.pos)
    else
      var unit := ScanIdentity(s, p);
      if unit.lexeme != [] then DimensionToken(s, offset, p, unit.pos)
      else Lexed(Make(Num, Null, offset, unit.pos), unit.pos)
  }

  /** The token for a number over `[offset, p)` followed by the unit identifier `[p, e)`. */
  function DimensionToken(s: seq<CodeUnit>, offset: nat, p: nat, e: nat): (r: Lexed)
    requires offset < p < e <= |s|
    ensures r.pos == e && r.token.start == offset && r.token.end == e
    ensures IsUnitKind(r.token.kind) || r.token.kind.Percentage?
    ensures WellFormed(s, r.token)
  {
    var dimension := Lowered(Substring(s, p, e));
    var kind := UnitKind(dimension);
    Lexed(Make(kind, Text(Substring(s, offset, e)), offset, e), e)
  }

  /**
    The three outcomes of `NumericToken`: `%` right after the number, a unit
    identifier, or neither, in which case the token is a `Num` ending at the
    number or, after a trailing backslash, past the buffer.
   */
  lemma NumericTokenCases(s: seq<CodeUnit>, offset: nat, p: nat)
    requires offset < p <= |s|
    ensures p < |s| && s[p] == PERCENT ==>
      NumericToken(s, offset, p) == Lexed(Make(Percentage, Null, offset, p + 1), p + 1)
    ensures !(p < |s| && s[p] == PERCENT) && ScanIdentity(s, p).lexeme != [] ==>
      NumericToken(s, offset, p).pos == ScanIdentity(s, p).pos <= |s| &&
      NumericToken(s, offset, p).token.kind == UnitKind(Lowered(s[p..ScanIdentity(s, p).pos])) &&
      NumericToken(s, offset, p).token.stored == Text(s[offset..ScanIdentity(s, p).pos])
    ensures !(p < |s| && s[p] == PERCENT) && ScanIdentity(s, p).lexeme == [] ==>
      NumericToken(s, offset, p).token.kind.Num?
    ensures !(p < |s| && s[p] == PERCENT) && ScanIdentity(s, p).lexeme == [] ==>
      NumericToken(s, offset, p).pos == p || Overshot(s, NumericToken(s, offset, p).pos)
  {
  }

  /**
    The last three alternatives, with the token starting at `offset` and the
    cursor at `q` (past `offset` only after a failed string scan): a
    punctuation character at the cursor, a two-character operator at
    `offset`, or a one-character `Delim` consumed with `NextChar`.
   */
  function PunctuationOrDelim(s: seq<CodeUnit>, offset: nat, q: nat): (r: Lexed)
    requires offset < |s| && offset <= q
    ensures r.token.start == offset && r.token.end <= r.pos
    ensures r.token.kind.Delim? || IsPunctuationKind(r.token.kind) || IsOperatorKind(r.token.kind)
    ensures IsOperatorKind(r.token.kind) ==> r.pos == q + 2 && s[offset] in {TILDE, PIPE, STAR, CARET, DOLLAR}
    ensures !IsOperatorKind(r.token.kind) ==> r.pos == q + 1
    ensures WellFormed(s, r.token)
  {
    match PunctuationKind(Peek(s, q))
    case Some(kind) => Lexed(Make(kind, Null, offset, offset + 1), q + 1)
    case None =>
      var operators := Substring(s, offset, offset + 2);
      match OperatorKind(operators)
      case Some(kind) => Lexed(Make(kind, Text(operators), offset, offset + 2), q + 2)
      case None => Lexed(Make(Delim, Null, offset, offset + 1), NextChar(s, q).pos)
  }

  /**
    Which of the last three alternatives wins: punctuation at the cursor
    first, then an operator at the token start, and a `Delim` exactly when
    neither matches.
   */
  lemma PunctuationOrDelimCases(s: seq<CodeUnit>, offset: nat, q: nat)
    requires offset < |s| && offset <= q
    ensures PunctuationKind(Peek(s, q)).Some? ==>
      PunctuationOrDelim(s, offset, q) == Lexed(Make(PunctuationKind(Peek(s, q)).value, Null, offset, offset + 1), q + 1)
    ensures PunctuationKind(Peek(s, q)).None? && offset + 2 <= |s| && OperatorKind(s[offset..offset + 2]).Some? ==>
      PunctuationOrDelim(s, offset, q) ==
        Lexed(Make(OperatorKind(s[offset..offset + 2]).value, Text(s[offset..offset + 2]), offset, offset + 2), q + 2)
    ensures PunctuationOrDelim(s, offset, q).token.kind.Delim? <==>
      PunctuationKind(Peek(s, q)).None? && !(offset + 2 <= |s| && OperatorKind(s[offset..offset + 2]).Some?)
    ensures PunctuationOrDelim(s, offset, q).token.kind.Delim? ==>
      PunctuationOrDelim(s, offset, q) == Lexed(Make(Delim, Null, offset, offset + 1), q + 1)
  {
  }

  // ---------------------------------------------------------------------------
  // Dispatch
  // ---------------------------------------------------------------------------

  /**
    What every alternative of `ScanNext` returns from `offset`: the cursor
    moves forward and at most two past the end, the token starts at `offset`
    and ends no later than the cursor, it is well formed, and it is none of
    the kinds only `Scan`, `Trivia` and `ScanUnquotedString` build.
   */
  ghost predicate Emitted(s: seq<CodeUnit>, offset: nat, r: Lexed) {
    && offset < r.pos <= |s| + 2
    && r.token.start == offset <= r.token.end <= r.pos
    && WellFormed(s, r.token)
    && !r.token.kind.EOF? && !r.token.kind.Whitespace? && !r.token.kind.Comment?
    && !r.token.kind.UnquotedString?
  }

  /**
    `ScanNext`: the first alternative that matches at `offset`, in the
    source's order: CDO, CDC, identifier, `@`, `#`, `!`, number, string,
    punctuation, operator, `Delim`. Every alternative moves the cursor, and
    the token starts at `offset` and ends no later than the new position.
   */
  function ScanNext(s: seq<CodeUnit>, offset: nat): (r: Lexed)
    requires offset < |s|
    ensures offset < r.pos <= |s| + 2
    ensures r.token.start == offset <= r.token.end <= r.pos
    ensures WellFormed(s, r.token)
    ensures !r.token.kind.EOF? && !r.token.kind.Whitespace? && !r.token.kind.Comment?
    ensures !r.token.kind.UnquotedString?
  {
    var cdo := AdvanceIfChars(s, offset, CDO_TEXT);
    if cdo.ok then Lexed(Make(CDO, Null, offset, offset + 4), cdo.pos) else
    var cdc := AdvanceIfChars(s, offset, CDC_TEXT);
    if cdc.ok then Lexed(Make(CDC, Null, offset, offset + 3), cdc.pos) else
    var identity := ScanIdentity(s, offset);
    if identity.lexeme != [] then
      Lexed(Make(Ident, Text(identity.lexeme), offset, identity.pos), identity.pos)
    else
    AfterIdentity(s, offset, identity.pos)
  }

  /**
    The alternatives after a failed identifier scan, with the cursor at `q`:
    back at `offset`, or one past the end after a trailing backslash.
   */
  function AfterIdentity(s: seq<CodeUnit>, offset: nat, q: nat): (r: Lexed)
    requires offset < |s|
    requires q == offset || (q == |s| + 1 && IdentStart(s, offset))
    ensures Emitted(s, offset, r) && !r.token.kind.Ident?
  {
    var at := AdvanceIfChar(s, q, AT);
    if at.ok then AtKeywordToken(s, offset, at.pos) else
    var hash := AdvanceIfChar(s, q, HASH);
    if hash.ok then HashToken(s, offset, hash.pos) else
    var bang := AdvanceIfChar(s, q, BANG);
    if bang.ok then Lexed(Make(Exclamation, Null, offset, offset + 1), bang.pos) else
    AfterPunctuators(s, offset, q)
  }

  /** The alternatives from the number on, with the cursor at `q` as in `AfterIdentity`. */
  function AfterPunctuators(s: seq<CodeUnit>, offset: nat, q: nat): (r: Lexed)
    requires offset < |s|
    requires q == offset || (q == |s| + 1 && IdentStart(s, offset))
    ensures Emitted(s, offset, r) && !r.token.kind.Ident?
  {
    match NumberAlternative(s, offset, q)
    case Some(number) => number
    case None => AfterNumber(s, offset, q)
  }

  /** A numeric token is a token `ScanNext` may emit, and never an identifier. */
  lemma NumericEmitted(s: seq<CodeUnit>, offset: nat, p: nat)
    requires offset < p <= |s|
    ensures Emitted(s, offset, NumericToken(s, offset, p))
    ensures !NumericToken(s, offset, p).token.kind.Ident?
  {
  }

  /** The number alternative: a numeric token when a number starts at the cursor `q`. */
  function NumberAlternative(s: seq<CodeUnit>, offset: nat, q: nat): (r: Option<Lexed>)
    requires offset < |s| && offset <= q
    ensures r.Some? <==> NumberStart(s, q)
    ensures r.Some? ==> Emitted(s, offset, r.value) && !r.value.token.kind.Ident?
  {
    var number := ScanNumber(s, q);
    if number.lexeme != [] then
      NumericEmitted(s, offset, number.pos);
      Some(NumericToken(s, offset, number.pos))
    else None
  }

  /** The last three alternatives give an emitted token when no operator can overshoot the end. */
  lemma TailEmitted(s: seq<CodeUnit>, offset: nat, q: nat)
    requires offset < |s| && offset <= q <= |s| + 1
    requires q == |s| + 1 ==> s[offset] !in {TILDE, PIPE, STAR, CARET, DOLLAR}
    ensures Emitted(s, offset, PunctuationOrDelim(s, offset, q))
    ensures !PunctuationOrDelim(s, offset, q).token.kind.Ident?
  {
  }

  /** The string alternative and those after it, with the cursor at `q` as in `AfterIdentity`. */
  function AfterNumber(s: seq<CodeUnit>, offset: nat, q: nat): (r: Lexed)
    requires offset < |s|
    requires q == offset || (q == |s| + 1 && IdentStart(s, offset))
    ensures Emitted(s, offset, r) && !r.token.kind.Ident?
  {
    var str := ScanString(s, q);
    if str.lexeme != [] then Lexed(Make(String, Text(str.lexeme), offset, str.pos), str.pos) else
    assert str.pos <= |s| + 1;
    assert str.pos == |s| + 1 ==> s[offset] !in {TILDE, PIPE, STAR, CARET, DOLLAR};
    TailEmitted(s, offset, str.pos);
    PunctuationOrDelim(s, offset, str.pos)
  }

  // ---------------------------------------------------------------------------
  // Trivia and Scan
  // ---------------------------------------------------------------------------

  /** A whitespace or comment token over `[p, q)`, carrying its text. */
  function TriviaToken(kind: TokenType, s: seq<CodeUnit>, p: nat, q: nat): (t: Token)
    requires kind.Whitespace? || kind.Comment?
    requires p < q <= |s|
    ensures t.kind == kind && t.start == p && t.end == q
    ensures t.stored == Text(s[p..q])
    ensures WellFormed(s, t)
  {
    Make(kind, Text(Substring(s, p, q)), p, q)
  }

  // `Trivia`: skips whitespace runs and comments the configuration ignores,
  // and returns the first one it does not ignore as a token. It returns null
  // (`None`) at the first position holding neither; a `/*` at the very end
  // is consumed on the way although it yields no token.
  function Trivia(cfg: Config, s: seq<CodeUnit>, p: nat): (r: TriviaResult)
    decreases |s| - p
    ensures p <= r.pos
    ensures p <= |s| ==> r.pos <= |s|
    ensures p > |s| ==> r == TriviaResult(None, p)
    ensures !(p < |s| && IsWhitespace(s[p])) && !OpensComment(s, p) ==> r == TriviaResult(None, p)
    ensures r.token.None? && r.pos < |s| ==> !IsWhitespace(s[r.pos]) && !OpensComment(s, r.pos)
    ensures r.token.Some? ==> p <= r.token.value.start < r.token.value.end == r.pos
    ensures r.token.Some? ==> WellFormed(s, r.token.value)
    ensures r.token.Some? && r.token.value.kind.Whitespace? ==> !cfg.ignoreWhitespace
    ensures r.token.Some? && !r.token.value.kind.Whitespace? ==>
      r.token.value.kind.Comment? && !cfg.ignoreComment
    ensures r.token.Some? && r.token.value.kind.Whitespace? ==>
      MaximalRun(s, r.token.value.start, r.token.value.end, IsWhitespace)
    ensures r.token.Some? && r.token.value.kind.Comment? ==>
      OpensComment(s, r.token.value.start) && CommentSpan(s, r.token.value.start, r.token.value.end)
    ensures !cfg.ignoreWhitespace && p < |s| && IsWhitespace(s[p]) ==>
      r.token.Some? && r.token.value.kind.Whitespace? && r.token.value.start == p
    ensures !cfg.ignoreComment && !(p < |s| && IsWhitespace(s[p])) && OpensComment(s, p) && p + 2 < |s| ==>
      r.token.Some? && r.token.value.kind.Comment? && r.token.value.start == p
  {
    var ws := ScanWhitespace(s, p);
    if ws.lexeme != [] then
      if !cfg.ignoreWhitespace then
        TriviaResult(Some(TriviaToken(Whitespace, s, p, ws.pos)), ws.pos)
      else Trivia(cfg, s, ws.pos)
    else
      var comment := ScanComment(s, ws.pos);
      if comment.lexeme != [] then
        if !cfg.ignoreComment then
          TriviaResult(Some(TriviaToken(Comment, s, p, comment.pos)), comment.pos)
        else Trivia(cfg, s, comment.pos)
      else TriviaResult(None, comment.pos)
  }

  /**
    One step `Trivia` takes over `[p, m)` without reporting it: a maximal
    whitespace run or a comment the configuration ignores, or a comment opener
    that is the last thing in the buffer, consumed whatever the configuration.
   */
  ghost predicate SkippedPiece(cfg: Config, s: seq<CodeUnit>, p: nat, m: nat) {
    || (cfg.ignoreWhitespace && p < m && MaximalRun(s, p, m, IsWhitespace))
    || (cfg.ignoreComment && OpensComment(s, p) && CommentSpan(s, p, m))
    || (OpensComment(s, p) && m == p + 2 == |s|)
  }

  /** `[p, q)` is a sequence of pieces `Trivia` skips. */
  ghost predicate Skipped(cfg: Config, s: seq<CodeUnit>, p: nat, q: nat)
    decreases q - p
  {
    p == q || (p < q && exists m: nat :: p < m <= q && SkippedPiece(cfg, s, p, m) && Skipped(cfg, s, m, q))
  }

  /**
    Everything `Trivia` passes over before the token it reports, or before
    the position where it stops with none, is skipped trivia.
   */
  lemma {:induction false} TriviaSkipsOnlyIgnored(cfg: Config, s: seq<CodeUnit>, p: nat)
    ensures Trivia(cfg, s, p).token.None? ==> Skipped(cfg, s, p, Trivia(cfg, s, p).pos)
    ensures Trivia(cfg, s, p).token.Some? ==> Skipped(cfg, s, p, Trivia(cfg, s, p).token.value.start)
    decreases |s| - p
  {
    var ws := ScanWhitespace(s, p);
    if ws.lexeme != [] {
      if cfg.ignoreWhitespace {
        TriviaSkipsOnlyIgnored(cfg, s, ws.pos);
        assert SkippedPiece(cfg, s, p, ws.pos);
      }
    } else {
      var comment := ScanComment(s, ws.pos);
      if comment.lexeme != [] {
        if cfg.ignoreComment {
          TriviaSkipsOnlyIgnored(cfg, s, comment.pos);
          assert SkippedPiece(cfg, s, p, comment.pos);
        }
      } else if comment.pos != p {
        assert SkippedPiece(cfg, s, p, comment.pos);
        assert Skipped(cfg, s, comment.pos, comment.pos);
      }
    }
  }

  /**
    `Scan`: one token. A trivia token if `Trivia` yields one; otherwise `EOF`
    (zero width, no payload) exactly when the cursor is then at or beyond the
    end; otherwise `ScanNext`. Every token other than `EOF` leaves the cursor
    strictly beyond where the call started, and the cursor never gets more
    than two past the end of the buffer.
   */
  function Scan(cfg: Config, s: seq<CodeUnit>, p: nat): (r: Lexed)
    ensures r.token.kind.EOF? <==> Trivia(cfg, s, p).token.None? && Trivia(cfg, s, p).pos >= |s|
    ensures r.token.kind.EOF? ==> r == Lexed(Make(EOF, Null, r.pos, r.pos), Trivia(cfg, s, p).pos)
    ensures !r.token.kind.EOF? ==> p < |s| && p < r.pos
    ensures p >= |s| ==> r == Lexed(Make(EOF, Null, p, p), p)
    ensures p <= r.token.start <= r.token.end <= r.pos
    ensures p <= |s| + 2 ==> r.pos <= |s| + 2
    ensures WellFormed(s, r.token)
    ensures cfg.ignoreWhitespace ==> !r.token.kind.Whitespace?
    ensures cfg.ignoreComment ==> !r.token.kind.Comment?
  {
    var trivia := Trivia(cfg, s, p);
    if trivia.token.Some? then Lexed(trivia.token.value, trivia.pos)
    else
      var offset := trivia.pos;
      if EOS(s, offset) then Lexed(Make(EOF, Null, offset, offset), offset)
      else ScanNext(s, offset)
  }

  /**
    `ScanUnquotedString`: the maximal run of unquoted characters at `p` as an
    `UnquotedString` token carrying its lexeme. The source throws when the
    run is empty; that outcome is `None`.
   */
  function ScanUnquotedString(s: seq<CodeUnit>, p: nat): (r: Option<Lexed>)
    ensures r.Some? <==> p < |s| && IsUnquotedChar(s[p])
    ensures r.Some? ==>
      r.value.token.kind.UnquotedString? &&
      r.value.token.start == p && r.value.token.end == r.value.pos &&
      MaximalRun(s, p, r.value.pos, IsUnquotedChar) &&
      WellFormed(s, r.value.token)
    ensures r.None? ==> !(p < |s| && IsUnquotedChar(s[p]))
  {
    var q := AdvanceWhile(s, p, IsUnquotedChar);
    var readCount := q - p;
    if readCount > 0 then Some(Lexed(Make(UnquotedString, Text(Substring(s, p, q)), p, q), q))
    else None
  }
}
