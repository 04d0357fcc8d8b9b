/**
  `Dispatch`: which alternative of `ScanNext` wins for each kind of first
  character. Together these lemmas state the priority order of the
  dispatch: CDO, CDC, identifier, `@`, `#`, `!`, number, string,
  punctuation, operator, and `Delim` for anything else: a character no
  alternative accepts, a quote that opens no closed string, or an
  identifier start whose name loop overshoots the end.
 */
module Dispatch {
  import opened Chars
  import opened Tokens
  import opened Cursor
  import opened Lexemes
  import opened Scanner

  /** The buffer holds `lit` at `offset`. */
  predicate StartsWith(s: seq<CodeUnit>, offset: nat, lit: seq<CodeUnit>) {
    offset + |lit| <= |s| && s[offset..offset + |lit|] == lit
  }

  // With neither whitespace nor an opening comment at a position inside the
  // buffer, `Scan` skips no trivia and is the dispatch at that position.
  lemma NoTrivia(cfg: Config, s: seq<CodeUnit>, p: nat)
    requires p < |s| && !IsWhitespace(s[p]) && !OpensComment(s, p)
    ensures Scan(cfg, s, p) == ScanNext(s, p)
  {
  }

  /** `<!--` is always a `CDO` token. */
  lemma CdoComesFirst(s: seq<CodeUnit>, offset: nat)
    requires StartsWith(s, offset, CDO_TEXT)
    ensures ScanNext(s, offset) == Lexed(Make(CDO, Null, offset, offset + 4), offset + 4)
  {
    assert AdvanceIfChars(s, offset, CDO_TEXT).ok;
  }

  /**
    `-->` is a `CDC` token although `--` would also start an identifier:
    the CDC test runs first.
   */
  lemma CdcBeforeIdentifier(s: seq<CodeUnit>, offset: nat)
    requires StartsWith(s, offset, CDC_TEXT)
    ensures IdentStart(s, offset)
    ensures ScanNext(s, offset) == Lexed(Make(CDC, Null, offset, offset + 3), offset + 3)
  {
    assert s[offset] == DASH;
    assert !AdvanceIfChars(s, offset, CDO_TEXT).ok;
    assert AdvanceIfChars(s, offset, CDC_TEXT).ok;
  }

  /**
    Without a CDO or CDC at `offset`, a successful identifier scan gives an
    `Ident` token carrying exactly the characters it consumed.
   */
  lemma IdentifierAfterMarkers(s: seq<CodeUnit>, offset: nat)
    requires offset < |s|
    requires !StartsWith(s, offset, CDO_TEXT) && !StartsWith(s, offset, CDC_TEXT)
    requires ScanIdentity(s, offset).lexeme != []
    ensures ScanNext(s, offset).token.kind == Ident
    ensures ScanNext(s, offset).pos == ScanIdentity(s, offset).pos
    ensures ScanNext(s, offset).token.stored == Text(s[offset..ScanNext(s, offset).pos])
  {
    assert !AdvanceIfChars(s, offset, CDO_TEXT).ok;
    assert !AdvanceIfChars(s, offset, CDC_TEXT).ok;
  }

  /** `@` hands over to the at-keyword branch with the cursor just past it. */
  lemma AtSignDispatch(s: seq<CodeUnit>, offset: nat)
    requires offset < |s| && s[offset] == AT
    ensures ScanNext(s, offset) == AtKeywordToken(s, offset, offset + 1)
  {
    assert !AdvanceIfChars(s, offset, CDO_TEXT).ok;
    assert !AdvanceIfChars(s, offset, CDC_TEXT).ok;
    assert !IdentStart(s, offset);
  }

  /** `#` hands over to the hash branch with the cursor just past it. */
  lemma HashDispatch(s: seq<CodeUnit>, offset: nat)
    requires offset < |s| && s[offset] == HASH
    ensures ScanNext(s, offset) == HashToken(s, offset, offset + 1)
  {
    assert !AdvanceIfChars(s, offset, CDO_TEXT).ok;
    assert !AdvanceIfChars(s, offset, CDC_TEXT).ok;
    assert !IdentStart(s, offset);
  }

  /** `!` is an `Exclamation` token of one character. */
  lemma BangDispatch(s: seq<CodeUnit>, offset: nat)
    requires offset < |s| && s[offset] == BANG
    ensures ScanNext(s, offset) == Lexed(Make(Exclamation, Null, offset, offset + 1), offset + 1)
  {
    assert !AdvanceIfChars(s, offset, CDO_TEXT).ok;
    assert !AdvanceIfChars(s, offset, CDC_TEXT).ok;
    assert !IdentStart(s, offset);
  }

  /** A digit, or a dot before a digit, starts a numeric token. */
  lemma NumberDispatch(s: seq<CodeUnit>, offset: nat)
    requires NumberStart(s, offset)
    ensures ScanNext(s, offset) == NumericToken(s, offset, ScanNumber(s, offset).pos)
  {
    assert !AdvanceIfChars(s, offset, CDO_TEXT).ok;
    assert !AdvanceIfChars(s, offset, CDC_TEXT).ok;
    assert !IdentStart(s, offset);
  }

  /** A closed string is a `String` token carrying both quotes. */
  lemma StringDispatch(s: seq<CodeUnit>, offset: nat, e: nat)
    requires ClosedString(s, offset, e)
    ensures ScanNext(s, offset) == Lexed(Make(String, Text(s[offset..e]), offset, e), e)
  {
    assert !AdvanceIfChars(s, offset, CDO_TEXT).ok;
    assert !AdvanceIfChars(s, offset, CDC_TEXT).ok;
    assert !IdentStart(s, offset);
    StringClosesAtFirstQuote(s, offset, e);
  }

  /** A character the punctuation switch recognises is a one-character token of that kind. */
  lemma PunctuationNext(s: seq<CodeUnit>, offset: nat)
    requires offset < |s| && PunctuationKind(s[offset]).Some?
    ensures ScanNext(s, offset) ==
      Lexed(Make(PunctuationKind(s[offset]).value, Null, offset, offset + 1), offset + 1)
  {
    assert !AdvanceIfChars(s, offset, CDO_TEXT).ok;
    assert !AdvanceIfChars(s, offset, CDC_TEXT).ok;
    assert !IdentStart(s, offset);
  }

  /**
    Each of the nine punctuation characters is a one-character token, with
    no payload, of the kind its case of the switch names.
   */
  lemma PunctuationDispatch(s: seq<CodeUnit>, offset: nat)
    requires offset < |s| && s[offset] in {SEMICOLON, COLON, LBRACE, RBRACE, LBRACKET, RBRACKET, LPAREN, RPAREN, COMMA}
    ensures ScanNext(s, offset) ==
      Lexed(Make(PunctuationKind(s[offset]).value, Null, offset, offset + 1), offset + 1)
    ensures forall j :: 0 <= j < |PUNCTUATION_TABLE| && PUNCTUATION_TABLE[j].unit == s[offset] ==>
      ScanNext(s, offset).token.kind == PUNCTUATION_TABLE[j].kind
  {
    PunctuationNext(s, offset);
    PunctuationKindTable(s[offset]);
  }

  /**
    Each of `~=`, `|=`, `*=`, `^=` and `$=` is a two-character token
    carrying its text, of the kind its comparison names.
   */
  lemma OperatorDispatch(s: seq<CodeUnit>, offset: nat)
    requires offset + 1 < |s| && s[offset] in {TILDE, PIPE, STAR, CARET, DOLLAR} && s[offset + 1] == EQUALS
    ensures ScanNext(s, offset) ==
      Lexed(Make(OperatorKind(s[offset..offset + 2]).value, Text(s[offset..offset + 2]), offset, offset + 2), offset + 2)
    ensures forall j :: 0 <= j < |OPERATOR_TABLE| && OPERATOR_TABLE[j].text == s[offset..offset + 2] ==>
      ScanNext(s, offset).token.kind == OPERATOR_TABLE[j].kind
  {
    var pair := s[offset..offset + 2];
    assert pair[0] == s[offset] && pair[1] == s[offset + 1];
    assert OperatorKind(pair).Some?;
    OperatorKindTable(pair);
    assert !AdvanceIfChars(s, offset, CDO_TEXT).ok;
    assert !AdvanceIfChars(s, offset, CDC_TEXT).ok;
    assert !IdentStart(s, offset);
    assert !NumberStart(s, offset);
    OperatorAfterNumber(s, offset);
  }

  /** The string and punctuation alternatives both fail on an operator character. */
  lemma OperatorAfterNumber(s: seq<CodeUnit>, offset: nat)
    requires offset + 2 <= |s| && OperatorKind(s[offset..offset + 2]).Some?
    requires s[offset] in {TILDE, PIPE, STAR, CARET, DOLLAR}
    ensures AfterNumber(s, offset, offset) ==
      Lexed(Make(OperatorKind(s[offset..offset + 2]).value, Text(s[offset..offset + 2]), offset, offset + 2), offset + 2)
  {
    assert ScanString(s, offset) == Scanned([], offset);
    assert PunctuationKind(Peek(s, offset)).None?;
    PunctuationOrDelimCases(s, offset, offset);
  }

  /**
    A quote that opens no closed string falls through every later
    alternative to a one-character `Delim`. The failed string scan is not
    undone, so the cursor ends one past where that scan stopped.
   */
  lemma UnclosedStringDispatch(s: seq<CodeUnit>, offset: nat)
    requires offset < |s| && IsQuote(s[offset]) && ScanString(s, offset).lexeme == []
    ensures ScanNext(s, offset) == Lexed(Make(Delim, Null, offset, offset + 1), ScanString(s, offset).pos + 1)
  {
    assert !AdvanceIfChars(s, offset, CDO_TEXT).ok;
    assert !AdvanceIfChars(s, offset, CDC_TEXT).ok;
    assert !IdentStart(s, offset) && !NumberStart(s, offset);
    UnclosedStringAfterNumber(s, offset);
  }

  /** The string and later alternatives on a quote that opens no closed string. */
  lemma UnclosedStringAfterNumber(s: seq<CodeUnit>, offset: nat)
    requires offset < |s| && IsQuote(s[offset]) && ScanString(s, offset).lexeme == []
    ensures AfterNumber(s, offset, offset) ==
      Lexed(Make(Delim, Null, offset, offset + 1), ScanString(s, offset).pos + 1)
  {
    var q := ScanString(s, offset).pos;
    assert PunctuationKind(Peek(s, q)).None?;
    assert !(offset + 2 <= |s| && OperatorKind(s[offset..offset + 2]).Some?);
    PunctuationOrDelimCases(s, offset, q);
  }

  /**
    An identifier start whose name loop overshoots the end at a trailing
    backslash yields no identifier: the character is a one-character
    `Delim`, and the cursor ends two past the end of the buffer.
   */
  lemma OvershotIdentifierDispatch(s: seq<CodeUnit>, offset: nat)
    requires offset < |s| && IdentStart(s, offset) && ScanIdentity(s, offset).lexeme == []
    requires !StartsWith(s, offset, CDC_TEXT)
    ensures ScanNext(s, offset) == Lexed(Make(Delim, Null, offset, offset + 1), |s| + 2)
  {
    assert !AdvanceIfChars(s, offset, CDO_TEXT).ok;
    assert !AdvanceIfChars(s, offset, CDC_TEXT).ok;
    var q := |s| + 1;
    assert ScanIdentity(s, offset).pos == q;
    assert ScanString(s, q) == Scanned([], q);
    assert PunctuationKind(Peek(s, q)).None?;
    PunctuationOrDelimCases(s, offset, q);
  }

  /**
    When no alternative above applies, the character is a one-character
    `Delim` with no payload, and the cursor moves past it.
   */
  lemma DelimOtherwise(s: seq<CodeUnit>, offset: nat)
    requires offset < |s|
    requires !StartsWith(s, offset, CDO_TEXT) && !StartsWith(s, offset, CDC_TEXT)
    requires !IdentStart(s, offset) && !NumberStart(s, offset)
    requires s[offset] != AT && s[offset] != HASH && s[offset] != BANG && !IsQuote(s[offset])
    requires PunctuationKind(s[offset]).None?
    requires !(offset + 2 <= |s| && OperatorKind(s[offset..offset + 2]).Some?)
    ensures ScanNext(s, offset) == Lexed(Make(Delim, Null, offset, offset + 1), offset + 1)
  {
    assert !AdvanceIfChars(s, offset, CDO_TEXT).ok;
    assert !AdvanceIfChars(s, offset, CDC_TEXT).ok;
    assert ScanString(s, offset) == Scanned([], offset);
  }
}
