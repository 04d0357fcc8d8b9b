/**
  `Examples`: the scanner on short concrete inputs, including the places
  where it departs from the CSS 2.1 tokenization rules. Each input is
  spelled as its code units, with the text in a comment. The helper lemmas
  establish what one sub-scanner does on the input; the example lemmas then
  state what `Scan` returns.
 */
module Examples {
  import opened Wrappers
  import opened Chars
  import opened Tokens
  import opened Cursor
  import opened Lexemes
  import opened Scanner
  import opened Dispatch

  const LOWER_C: CodeUnit := 0x63
  const LOWER_E: CodeUnit := 0x65
  const LOWER_F: CodeUnit := 0x66
  const LOWER_M: CodeUnit := 0x6d
  const LOWER_R: CodeUnit := 0x72
  const LOWER_D: CodeUnit := 0x64
  const LOWER_G: CodeUnit := 0x67
  const LOWER_A: CodeUnit := 0x61
  const LOWER_B: CodeUnit := 0x62
  const LOWER_X: CodeUnit := 0x78
  const DIGIT_0: CodeUnit := 0x30
  const DIGIT_1: CodeUnit := 0x31
  const DIGIT_4: CodeUnit := 0x34
  const DIGIT_5: CodeUnit := 0x35

  // ---------------------------------------------------------------------------
  // At-keywords and hashes
  // ---------------------------------------------------------------------------

  const AT_CHARSET_UPPER: seq<CodeUnit> := [AT, 0x43, 0x48, 0x41, 0x52, 0x53, 0x45, 0x54] // "@CHARSET"

  lemma UpperCharsetName()
    ensures ScanName(AT_CHARSET_UPPER, 1) == Scanned(AT_CHARSET_UPPER[1..], 8)
    ensures EqualsIgnoreCase(AT_CHARSET_UPPER[1..], CHARSET)
  {
    var s := AT_CHARSET_UPPER;
    assert forall i :: 1 <= i < 8 ==> IsIdentChar(s[i]);
    NameRunPlain(s, 1, 8);
  }

  lemma UpperCharsetToken()
    ensures AtKeywordToken(AT_CHARSET_UPPER, 0, 1) ==
      Lexed(Make(Charset, Text(AT_CHARSET_UPPER), 0, 8), 8)
  {
    UpperCharsetName();
    assert AT_CHARSET_UPPER[0..8] == AT_CHARSET_UPPER;
  }

  /** `@CHARSET` is a `Charset` token: the keyword is compared without case. */
  lemma CharsetIgnoresCase()
    ensures Scan(DEFAULT, AT_CHARSET_UPPER, 0) ==
      Lexed(Make(Charset, Text(AT_CHARSET_UPPER), 0, 8), 8)
  {
    var s := AT_CHARSET_UPPER;
    NoTrivia(DEFAULT, s, 0);
    AtSignDispatch(s, 0);
    UpperCharsetToken();
  }

  /** A lone `@` is a `Delim` of width zero, although the cursor moves past it. */
  lemma LoneAtSign()
    ensures Scan(DEFAULT, [AT], 0) == Lexed(Make(Delim, Null, 0, 0), 1)
  {
    NoTrivia(DEFAULT, [AT], 0);
    AtSignDispatch([AT], 0);
  }

  const HASH_FFF: seq<CodeUnit> := [HASH, LOWER_F, LOWER_F, LOWER_F] // "#fff"

  lemma FffName()
    ensures ScanName(HASH_FFF, 1) == Scanned([LOWER_F, LOWER_F, LOWER_F], 4)
  {
    var s := HASH_FFF;
    assert forall i :: 1 <= i < 4 ==> IsIdentChar(s[i]);
    NameRunPlain(s, 1, 4);
  }

  /** `#fff` is a `Hash` token whose payload leaves out the `#`. */
  lemma HashCarriesName()
    ensures Scan(DEFAULT, HASH_FFF, 0) ==
      Lexed(Make(Hash, Text([LOWER_F, LOWER_F, LOWER_F]), 0, 4), 4)
  {
    NoTrivia(DEFAULT, HASH_FFF, 0);
    HashDispatch(HASH_FFF, 0);
    FffName();
  }

  // ---------------------------------------------------------------------------
  // Identifiers
  // ---------------------------------------------------------------------------

  const RED_CDC: seq<CodeUnit> := [LOWER_R, LOWER_E, LOWER_D, DASH, DASH, GREATER] // "red-->"

  lemma RedIdentity()
    ensures ScanIdentity(RED_CDC, 0) == Scanned(RED_CDC[..5], 5)
  {
    var s := RED_CDC;
    assert forall i :: 1 <= i < 5 ==> IsIdentChar(s[i]);
    NameRunPlain(s, 1, 5);
  }

  /** At 0 the dispatch reads the identifier `red--`. */
  lemma RedNext()
    ensures ScanNext(RED_CDC, 0) == Lexed(Make(Ident, Text(RED_CDC[..5]), 0, 5), 5)
  {
    var s := RED_CDC;
    assert !StartsWith(s, 0, CDO_TEXT) && !StartsWith(s, 0, CDC_TEXT);
    RedIdentity();
    IdentifierAfterMarkers(s, 0);
  }

  /** At 5 the `>` left over is a `Delim`. */
  lemma GreaterNext()
    ensures ScanNext(RED_CDC, 5) == Lexed(Make(Delim, Null, 5, 6), 6)
  {
    var s := RED_CDC;
    assert !StartsWith(s, 5, CDO_TEXT) && !StartsWith(s, 5, CDC_TEXT);
    DelimOtherwise(s, 5);
  }

  /**
    `red-->` is the identifier `red--` followed by a `Delim`: the name loop
    takes both dashes before the CDC test can see them.
   */
  lemma IdentifierSwallowsCdcDashes()
    ensures Scan(DEFAULT, RED_CDC, 0) == Lexed(Make(Ident, Text(RED_CDC[..5]), 0, 5), 5)
    ensures Scan(DEFAULT, RED_CDC, 5) == Lexed(Make(Delim, Null, 5, 6), 6)
    ensures Scan(DEFAULT, RED_CDC, 6) == Lexed(Make(EOF, Null, 6, 6), 6)
  {
    var s := RED_CDC;
    NoTrivia(DEFAULT, s, 0);
    RedNext();
    NoTrivia(DEFAULT, s, 5);
    GreaterNext();
  }

  const ESCAPED_NEWLINE: seq<CodeUnit> := [LOWER_A, BACKSLASH, LF, LOWER_B] // "a\\\nb"

  lemma EscapedNewlineIdentity()
    ensures ScanIdentity(ESCAPED_NEWLINE, 0) == Scanned(ESCAPED_NEWLINE[..2], 2)
  {
    var s := ESCAPED_NEWLINE;
    assert ScanIdentChar(s, 1).lexeme == [];
    assert ScanEscape(s, 1, false) == Scanned([], 2);
    assert NameRun(s, 1) == 2;
  }

  /**
    A backslash before a newline is not a valid escape, yet the name loop
    consumes it: `a\` is one identifier and the newline is left behind.
   */
  lemma BackslashBeforeNewlineJoinsIdentifier()
    ensures Scan(DEFAULT, ESCAPED_NEWLINE, 0) ==
      Lexed(Make(Ident, Text([LOWER_A, BACKSLASH]), 0, 2), 2)
  {
    var s := ESCAPED_NEWLINE;
    NoTrivia(DEFAULT, s, 0);
    assert !StartsWith(s, 0, CDO_TEXT) && !StartsWith(s, 0, CDC_TEXT);
    EscapedNewlineIdentity();
    IdentifierAfterMarkers(s, 0);
  }

  // ---------------------------------------------------------------------------
  // Numbers
  // ---------------------------------------------------------------------------

  const FOUR_EM: seq<CodeUnit> := [DIGIT_4, LOWER_E, LOWER_M] // "4em"

  lemma FourEmParts()
    ensures ScanNumber(FOUR_EM, 0).pos == 1
    ensures ScanIdentity(FOUR_EM, 1) == Scanned(FOUR_EM[1..], 3)
    ensures Lowered(FOUR_EM[1..3]) == [LOWER_E, LOWER_M]
  {
    var s := FOUR_EM;
    AdvanceWhileUnique(s, 1, 1, (c: CodeUnit) => IsDigit(c) || c == DOT);
    NameRunPlain(s, 2, 3);
  }

  /** The numeric branch after the `4` of `4em`. */
  lemma FourEmToken()
    ensures NumericToken(FOUR_EM, 0, 1) == Lexed(Make(EMS, Text(FOUR_EM), 0, 3), 3)
  {
    FourEmParts();
    NumericTokenCases(FOUR_EM, 0, 1);
    assert UNIT_TABLE[0].unit == [LOWER_E, LOWER_M];
    assert FOUR_EM[0..3] == FOUR_EM;
  }

  /** `4em` is an `EMS` token carrying its whole text. */
  lemma EmUnit()
    ensures Scan(DEFAULT, FOUR_EM, 0) == Lexed(Make(EMS, Text(FOUR_EM), 0, 3), 3)
  {
    NoTrivia(DEFAULT, FOUR_EM, 0);
    NumberDispatch(FOUR_EM, 0);
    FourEmParts();
    FourEmToken();
  }

  const HUNDRED_PERCENT: seq<CodeUnit> := [DIGIT_1, DIGIT_0, DIGIT_0, PERCENT] // "100%"

  /** `100%` is a `Percentage` token, and it carries no payload. */
  lemma PercentageHasNoPayload()
    ensures Scan(DEFAULT, HUNDRED_PERCENT, 0) == Lexed(Make(Percentage, Null, 0, 4), 4)
  {
    var s := HUNDRED_PERCENT;
    NoTrivia(DEFAULT, s, 0);
    NumberDispatch(s, 0);
    AdvanceWhileUnique(s, 1, 3, (c: CodeUnit) => IsDigit(c) || c == DOT);
    NumericTokenCases(s, 0, 3);
  }

  const FIVE_DEG: seq<CodeUnit> := [DIGIT_5, LOWER_D, LOWER_E, LOWER_G] // "5deg"
  const FIVE_DEC: seq<CodeUnit> := [DIGIT_5, 0x44, 0x45, 0x43] // "5DEC"

  lemma FiveUnitParts(s: seq<CodeUnit>)
    requires s == FIVE_DEG || s == FIVE_DEC
    ensures ScanNumber(s, 0).pos == 1
    ensures ScanIdentity(s, 1) == Scanned(s[1..], 4)
  {
    AdvanceWhileUnique(s, 1, 1, (c: CodeUnit) => IsDigit(c) || c == DOT);
    assert forall i :: 2 <= i < 4 ==> IsIdentChar(s[i]);
    NameRunPlain(s, 2, 4);
  }

  /**
    The unit table spells the angle unit `dec`: `deg` matches no case and
    is a plain `Dimension`, while `DEC` folds to `dec`, an `Angle`.
   */
  lemma FiveUnitKinds()
    ensures UnitKind(Lowered(FIVE_DEG[1..4])) == Dimension
    ensures UnitKind(Lowered(FIVE_DEC[1..4])) == Angle
  {
    var deg := Lowered(FIVE_DEG[1..4]);
    assert deg == [LOWER_D, LOWER_E, LOWER_G];
    forall j | 0 <= j < |UNIT_TABLE|
      ensures UNIT_TABLE[j].unit != deg
    {
      var u := UNIT_TABLE[j].unit;
      assert |u| != 3 || u[0] != LOWER_D || u[2] != LOWER_G;
    }
    assert Lowered(FIVE_DEC[1..4]) == [LOWER_D, LOWER_E, LOWER_C] == UNIT_TABLE[8].unit;
  }

  /** The numeric branch after the `5` of `5deg` and of `5dec`. */
  lemma FiveUnitTokens()
    ensures NumericToken(FIVE_DEG, 0, 1).token.kind == Dimension
    ensures NumericToken(FIVE_DEC, 0, 1).token.kind == Angle
  {
    FiveUnitParts(FIVE_DEG);
    FiveUnitParts(FIVE_DEC);
    NumericTokenCases(FIVE_DEG, 0, 1);
    NumericTokenCases(FIVE_DEC, 0, 1);
    FiveUnitKinds();
  }

  lemma DegIsDimension()
    ensures Scan(DEFAULT, FIVE_DEG, 0).token.kind == Dimension
  {
    NoTrivia(DEFAULT, FIVE_DEG, 0);
    NumberDispatch(FIVE_DEG, 0);
    FiveUnitParts(FIVE_DEG);
    FiveUnitTokens();
  }

  lemma DecIsAngle()
    ensures Scan(DEFAULT, FIVE_DEC, 0).token.kind == Angle
  {
    NoTrivia(DEFAULT, FIVE_DEC, 0);
    NumberDispatch(FIVE_DEC, 0);
    FiveUnitParts(FIVE_DEC);
    FiveUnitTokens();
  }

  const ONE_A_BACKSLASH: seq<CodeUnit> := [DIGIT_1, LOWER_A, BACKSLASH] // "1a\\"

  lemma TrailingBackslashIdentity()
    ensures ScanNumber(ONE_A_BACKSLASH, 0).pos == 1
    ensures ScanIdentity(ONE_A_BACKSLASH, 1) == Scanned([], 4)
  {
    var s := ONE_A_BACKSLASH;
    AdvanceWhileUnique(s, 1, 1, (c: CodeUnit) => IsDigit(c) || c == DOT);
    assert ScanIdentChar(s, 2).lexeme == [];
    assert ScanEscape(s, 2, false) == Scanned([], 4);
    assert NameRun(s, 2) == 4;
  }

  /**
    A trailing backslash sends the cursor one past the end: after `1a\` the
    unit scan comes back empty, and the token is a `Num` that ends past the
    buffer.
   */
  lemma TrailingBackslashOvershoots()
    ensures Scan(DEFAULT, ONE_A_BACKSLASH, 0) == Lexed(Make(Num, Null, 0, 4), 4)
  {
    var s := ONE_A_BACKSLASH;
    NoTrivia(DEFAULT, s, 0);
    NumberDispatch(s, 0);
    TrailingBackslashIdentity();
    NumericTokenCases(s, 0, 1);
  }

  const A_BACKSLASH: seq<CodeUnit> := [LOWER_A, BACKSLASH] // "a\"

  /**
    `a\` is no identifier at all: the name loop overshoots at the trailing
    backslash, so the `a` is a `Delim` and the cursor ends two past the end.
   */
  lemma TrailingBackslashLosesIdentifier()
    ensures Scan(DEFAULT, A_BACKSLASH, 0) == Lexed(Make(Delim, Null, 0, 1), 4)
  {
    var s := A_BACKSLASH;
    NoTrivia(DEFAULT, s, 0);
    assert IdentOpening(s, 0, 1) && NameBody(s, 1, 1) && NameStop(s, 1, 3);
    IdentityExtent(s, 0, 1, 1, 3);
    OvershotIdentifierDispatch(s, 0);
  }

  // ---------------------------------------------------------------------------
  // Strings and comments
  // ---------------------------------------------------------------------------

  const OPEN_STRING: seq<CodeUnit> := [SQUOTE, LOWER_A, LOWER_B, LOWER_C] // "'abc"

  lemma OpenStringScan()
    ensures ScanString(OPEN_STRING, 0) == Scanned([], 4)
  {
    var s := OPEN_STRING;
    AdvanceWhileUnique(s, 1, 4, (c: CodeUnit) => c != SQUOTE && !(c == BACKSLASH || IsNewline(c)));
  }

  /** The string alternative fails on `'abc` and the `Delim` fallback ends the cursor at 5. */
  lemma OpenStringAfterNumber()
    ensures AfterNumber(OPEN_STRING, 0, 0) == Lexed(Make(Delim, Null, 0, 1), 5)
  {
    var s := OPEN_STRING;
    OpenStringScan();
    assert OperatorKind(s[0..2]).None?;
    PunctuationOrDelimCases(s, 0, 4);
  }

  lemma OpenStringNext()
    ensures ScanNext(OPEN_STRING, 0) == Lexed(Make(Delim, Null, 0, 1), 5)
  {
    var s := OPEN_STRING;
    assert !AdvanceIfChars(s, 0, CDO_TEXT).ok && !AdvanceIfChars(s, 0, CDC_TEXT).ok;
    assert !IdentStart(s, 0) && !NumberStart(s, 0);
    OpenStringAfterNumber();
  }

  /**
    An unterminated string is a one-character `Delim`, but the failed string
    scan is not undone: the cursor ends past the text, and the next token
    is `EOF`.
   */
  lemma UnterminatedStringSkipsText()
    ensures Scan(DEFAULT, OPEN_STRING, 0) == Lexed(Make(Delim, Null, 0, 1), 5)
    ensures Scan(DEFAULT, OPEN_STRING, 5) == Lexed(Make(EOF, Null, 5, 5), 5)
  {
    NoTrivia(DEFAULT, OPEN_STRING, 0);
    OpenStringNext();
  }

  const COMMENT_THEN_X: seq<CodeUnit> := [SLASH, STAR, SPACE, LOWER_C, SPACE, STAR, SLASH, LOWER_X] // "/* c */x"

  lemma CommentEndsAtSeven()
    ensures ScanComment(COMMENT_THEN_X, 0).pos == 7
  {
    var s := COMMENT_THEN_X;
    var e := ScanComment(s, 0).pos;
    assert ClosesAt(s, 5);
    assert forall k :: 0 <= k < 5 ==> !ClosesAt(s, k);
    assert e == 7;
  }

  /**
    By default a comment is a token carrying its text, delimiters included;
    when comments are ignored, the scan skips it and returns what follows.
   */
  lemma CommentToken()
    ensures Scan(DEFAULT, COMMENT_THEN_X, 0) ==
      Lexed(Make(Comment, Text(COMMENT_THEN_X[..7]), 0, 7), 7)
    ensures Scan(Config(true, true), COMMENT_THEN_X, 0) ==
      Lexed(Make(Ident, Text([LOWER_X]), 7, 8), 8)
  {
    var s := COMMENT_THEN_X;
    CommentEndsAtSeven();
    assert Trivia(Config(true, true), s, 7) == TriviaResult(None, 7);
    assert Trivia(Config(true, true), s, 0) == TriviaResult(None, 7);
    assert !StartsWith(s, 7, CDO_TEXT) && !StartsWith(s, 7, CDC_TEXT);
    assert ScanIdentity(s, 7) == Scanned([LOWER_X], 8);
    IdentifierAfterMarkers(s, 7);
  }

  // A comment opener at the very end of the input is consumed although no
  // comment token comes of it: the scan returns `EOF` at the end.
  lemma BareCommentOpenAtEnd()
    ensures Scan(DEFAULT, COMMENT_OPEN, 0) == Lexed(Make(EOF, Null, 2, 2), 2)
  {
    assert ScanWhitespace(COMMENT_OPEN, 0).lexeme == [];
    assert ScanComment(COMMENT_OPEN, 0) == Scanned([], 2);
    assert Trivia(DEFAULT, COMMENT_OPEN, 0) == TriviaResult(None, 2);
  }

  lemma LoneQuoteNext()
    ensures ScanNext([SQUOTE], 0) == Lexed(Make(Delim, Null, 0, 1), 3)
  {
    var s := [SQUOTE];
    assert !AdvanceIfChars(s, 0, CDO_TEXT).ok && !AdvanceIfChars(s, 0, CDC_TEXT).ok;
    assert !IdentStart(s, 0) && !NumberStart(s, 0);
    assert ScanString(s, 0) == Scanned([], 2);
    PunctuationOrDelimCases(s, 0, 2);
  }

  /**
    A quote that is the last character sends the cursor two past the end:
    `NextChar` reads it as NUL, which then "closes" the string beyond the
    buffer, and the `Delim` that follows consumes one more position.
   */
  lemma LoneQuoteOvershootsByTwo()
    ensures Scan(DEFAULT, [SQUOTE], 0) == Lexed(Make(Delim, Null, 0, 1), 3)
  {
    NoTrivia(DEFAULT, [SQUOTE], 0);
    LoneQuoteNext();
  }

  // ---------------------------------------------------------------------------
  // Punctuation and operators
  // ---------------------------------------------------------------------------

  /** `;` is a one-character `SemiColon` token with no payload. */
  lemma SemicolonToken()
    ensures Scan(DEFAULT, [SEMICOLON], 0) == Lexed(Make(SemiColon, Null, 0, 1), 1)
  {
    NoTrivia(DEFAULT, [SEMICOLON], 0);
    PunctuationDispatch([SEMICOLON], 0);
  }

  /** `~=` is an `Includes` token carrying its text. */
  lemma IncludesToken()
    ensures Scan(DEFAULT, [TILDE, EQUALS], 0) == Lexed(Make(Includes, Text([TILDE, EQUALS]), 0, 2), 2)
  {
    var s := [TILDE, EQUALS];
    NoTrivia(DEFAULT, s, 0);
    OperatorDispatch(s, 0);
    assert s[0..2] == s;
  }

  // ---------------------------------------------------------------------------
  // Escapes and the cursor
  // ---------------------------------------------------------------------------

  const LONG_HEX: seq<CodeUnit> := [BACKSLASH, 0x31, 0x32, 0x33, 0x34, 0x35, 0x36, 0x37, SPACE, LOWER_X] // "\1234567 x"

  /**
    A hex escape takes every hex digit that follows, seven here, and then
    the space after them, so `\1234567 x` is one identifier.
   */
  lemma LongHexEscape()
    ensures ScanEscape(LONG_HEX, 0, false) == Scanned(LONG_HEX[1..8], 9)
    ensures ScanIdentity(LONG_HEX, 0) == Scanned(LONG_HEX, 10)
  {
    var s := LONG_HEX;
    assert HexSpan(s, 0, 8, 9);
    assert EscapeStep(s, 0, 9);
    EscapeStepScans(s, 0, 9);
    assert HexEscape(s, 0, ScanEscape(s, 0, false));
    AdvanceWhileUnique(s, 1, 8, IsHex);
    assert IdentOpening(s, 0, 9);
    assert NameStep(s, 9, 10) && NameBody(s, 10, 10);
    assert NameBody(s, 9, 10);
    IdentityExtent(s, 0, 9, 10, 10);
    assert s[0..10] == s;
  }

  /**
    `NextChar` reads the character at the cursor only when another one
    follows it: on the last character it reads NUL, though it still moves.
   */
  lemma NextCharOnLastReadsNul()
    ensures NextChar([LOWER_A, LOWER_B], 0) == Read(LOWER_A, 1)
    ensures NextChar([LOWER_A, LOWER_B], 1) == Read(NUL, 2)
  { }
}
