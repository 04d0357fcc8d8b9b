# Dotcss scanner in Dafny

This project models the CSS tokenizer of Dotcss (`src/Dotcss/Scanner.cs`) and
its token value (`src/Dotcss/Token.cs`), and proves properties of the model.

The source scanner is a mutable object. It holds a `MultiLineStream`, which is
a cursor over an immutable buffer of UTF-16 code units, and each `Scan()` call
returns one `Token`. The model is functional:

- The buffer is a `seq<CodeUnit>`. A `CodeUnit` is an integer in
  `[0, 0x10000)`, and 0 doubles as the out-of-range sentinel `'\0'`.
- The cursor position is an unbounded `nat`. It can pass the end of the
  buffer by up to two, as in the source.
- Every cursor operation and sub-scanner takes the position. It returns the
  new position together with its result: a `Step` (flag and position), a
  `Read` (character and position), or a `Scanned` (lexeme and position).
- `GoBackTo` and the rollbacks of `ScanIdentity` and `TryScanUnicode` become
  "return the old position".
- `Scan` is a function of a `Config` (the two ignore switches), the buffer and
  the position. `Tokenize` calls it until `EOF`, as the sample program's
  loop does. The loop itself, `Run`, is stated for any step function that
  never stalls, and `Scan` is shown to be one.

Modules:

| file | module | contents |
|---|---|---|
| `wrappers.dfy` | `Wrappers` | `Option` |
| `chars.dfy` | `Chars` | code units, the character classes of the source, ASCII case folding |
| `token.dfy` | `Tokens` | `TokenType`, `Token`, `Create`, `Value`, and the payload rule of each kind |
| `cursor.dfy` | `Cursor` | `MultiLineStream`: `PeekChar`, `Substring`, `EOS`, `NextChar`, `AdvanceIfChar(s)`, `AdvanceWhileChar` |
| `lexemes.dfy` | `Lexemes` | the sub-scanners `ScanIdentChar` … `TryScanUnicode` |
| `scanner.dfy` | `Scanner` | `Trivia`, the dispatch `ScanNext`, `Scan`, `ScanUnquotedString` |
| `stream.dfy` | `Stream` | the client loop up to `EOF` for any step function, then for `Scan`, and properties of the whole stream |
| `dispatch.dfy` | `Dispatch` | which alternative of `ScanNext` wins, character by character |
| `examples.dfy` | `Examples` | the scanner on short concrete inputs |

The model follows the code where it differs from the CSS 2.1 tokenizer
(section 4.1.1 of CSS 2.1). The model proves these cases; the member that
states each one is named after it:

- `red-->` gives the identifier `red--` and then a `Delim`, not `red` and a
  CDC (`Examples.IdentifierSwallowsCdcDashes`).
- `'abc` gives a `Delim` over the quote and then `EOF` at 5. It does not give
  a `Delim` and then an identifier, because the failed string scan is not
  undone (`Examples.UnterminatedStringSkipsText`).
- A hex escape takes any number of hex digits, not at most six
  (`Lexemes.ScanEscape`, and `Examples.LongHexEscape` for seven digits).
- The `\r\n` step of `ScanNewline` never matches, because the newline run
  before it has already taken those characters (`Lexemes.ScanNewline`: the
  result is exactly the maximal newline run).
- The unit table spells the angle unit `dec`, so `5deg` is a `Dimension`
  (`Examples.DegIsDimension`, `Examples.DecIsAngle`).
- `NextChar` slices `[p, p + 2)`. So it reads NUL when it consumes the last
  character (`Cursor.NextChar`, `Examples.NextCharOnLastReadsNul`).
- A trailing backslash moves the cursor one past the end. `1a\` is a `Num`
  token `[0, 4)` (`Examples.TrailingBackslashOvershoots`). `a\` is no
  identifier at all but a `Delim` `[0, 1)` that leaves the cursor at 4
  (`Dispatch.OvershotIdentifierDispatch`,
  `Examples.TrailingBackslashLosesIdentifier`).
- A backslash before a newline is absorbed into an identifier or name
  (`Examples.BackslashBeforeNewlineJoinsIdentifier`).
- A lone `@` is a zero-width `Delim` (`Examples.LoneAtSign`).
- A bare `/*` at the end of the input is consumed and yields no token
  (`Examples.BareCommentOpenAtEnd`).

## Model

| member | source | states |
|---|---|---|
| Cursor.Peek | src/Dotcss/Scanner.cs:89-95 | `PeekChar` reads the code unit at a position inside the buffer, and NUL at or beyond its end |
| Cursor.EosReadsNothing | src/Dotcss/Scanner.cs:53-56 | `EOS` holds when the position is at or past the buffer's length; there every read gives NUL, `NextChar` stays at or past the end, `Substring` is empty, and `AdvanceIfChar` matches NUL and nothing else, moving one further past the end; before it `PeekChar` gives the buffer's character |
| Cursor.Substring | src/Dotcss/Scanner.cs:40-44 | `Substring(from, to)` is the slice when `to` is within the buffer and empty when it is beyond; it is non-empty exactly when `from < to <= length` |
| Cursor.NextChar | src/Dotcss/Scanner.cs:82-87 | the cursor advances by one; the character read is the one at the cursor only when another character follows it, and NUL when it is the last one or beyond |
| Cursor.AdvanceIfChar | src/Dotcss/Scanner.cs:105-111 | it succeeds exactly when the buffer holds the given character at the cursor, or when the cursor is at or past the end and the character is NUL, and then moves by one; otherwise it does not move |
| Cursor.MatchesFrom | src/Dotcss/Scanner.cs:121-128 | the comparison loop succeeds exactly when every remaining character of the literal equals the buffer at the same offset |
| Cursor.AdvanceIfChars | src/Dotcss/Scanner.cs:113-132 | it succeeds exactly when the whole literal fits in the buffer and equals the slice at the cursor, and then moves by the literal's length; otherwise, including when too few characters remain, it does not move |
| Cursor.AdvanceWhile | src/Dotcss/Scanner.cs:134-144 | the loop never moves past the end of the buffer, every character it passes satisfies the condition, and it stops only at the end or before a character that fails it |
| Cursor.AdvanceWhileUnique | src/Dotcss/Scanner.cs:134-144 | the end of the maximal run of characters satisfying the condition is the only place the loop can stop |
| Chars.ToLower | src/Dotcss/Scanner.cs:258 | ASCII upper-case letters map to the matching lower-case letters; every other code unit is unchanged |
| Chars.Lowered | src/Dotcss/Scanner.cs:258 | lower-casing a text keeps its length and lower-cases it character by character |
| Chars.EqualsIgnoreCaseLowered | src/Dotcss/Scanner.cs:224 | the invariant-culture case-insensitive comparison, restricted to ASCII, holds exactly when the lower-cased texts are equal |
| Chars.UnquotedCharsExclude | src/Dotcss/Scanner.cs:174-177 | exactly the ten code units backslash, both quotes, both parentheses, space, tab, `\n`, `\f` and `\r` are not unquoted characters |
| Tokens.Token.Value | src/Dotcss/Token.cs:70-79 | every kind except `Extension` gives back the stored payload; `Extension` unwraps a held value and fails when there is none |
| Tokens.Create | src/Dotcss/Token.cs:83-104 | the token's kind, payload, start, end, line number and line start are the arguments |
| Tokens.CreateValueRoundTrip | src/Dotcss/Token.cs:70-104 | what a token is created with is what `Value` returns, for every kind but `Extension`, and through the holder for `Extension` |
| Lexemes.ScanIdentChar | src/Dotcss/Scanner.cs:580-592 | one identifier character (`_`, `-`, letter, digit or a unit at or above 0x80) is consumed and returned; otherwise nothing moves |
| Lexemes.ScanIdentFirstChar | src/Dotcss/Scanner.cs:594-605 | as for identifier characters, but without `-` and digits |
| Lexemes.ScanNewline | src/Dotcss/Scanner.cs:436-448 | it consumes exactly the maximal run of `\n`, `\f` and `\r`, so the following `\r\n` step can never match; it reports whether it moved |
| Lexemes.HexTail | src/Dotcss/Scanner.cs:391-405 | after at least one hex digit, the escape returns all the digits and moves past them and then past one space or tab, or past a newline run |
| Lexemes.ScanEscape | src/Dotcss/Scanner.cs:378-424 | without a backslash nothing moves; a trailing backslash moves two and returns nothing; a hex escape returns every hex digit and then skips one space or tab or a newline run; a backslash before a newline moves one and returns nothing unless newlines are included; any other character is returned alone |
| Lexemes.NameRun | src/Dotcss/Scanner.cs:426-434 | the identifier-or-escape loop stops before a character that is neither an identifier character nor a backslash, at the end, or one past the end after a trailing backslash |
| Lexemes.NameRunGrammar | src/Dotcss/Scanner.cs:378-434 | the loop stops at `q` exactly when the text from the cursor is a sequence of identifier characters and escapes (a backslash before anything but a newline, taking all hex digits and one space, tab or newline run after them) followed by a stop at `q`: nothing that continues a name, or a backslash that opens no escape and is stepped over |
| Lexemes.NameRunFromBody | src/Dotcss/Scanner.cs:426-434 | a sequence of name units followed by a stop determines where the loop ends |
| Lexemes.NameRunHasBody | src/Dotcss/Scanner.cs:426-434 | wherever the loop ends, the text it passed over is a sequence of name units followed by a stop |
| Lexemes.EscapeStepScans | src/Dotcss/Scanner.cs:378-424 | an escape of the name grammar is exactly what `ScanEscape(false)` accepts, and it ends where the scan leaves the cursor |
| Lexemes.ScanEscapeSteps | src/Dotcss/Scanner.cs:378-424 | every escape `ScanEscape(false)` accepts is an escape of the name grammar |
| Lexemes.NameRunPlain | src/Dotcss/Scanner.cs:426-434 | without backslashes, the loop stops exactly at the end of the maximal run of identifier characters |
| Lexemes.NameFrom | src/Dotcss/Scanner.cs:358-362 | the loop's result is the source text from the start of the name, empty exactly when the loop did not move past the start or overshot the end |
| Lexemes.ScanIdentity | src/Dotcss/Scanner.cs:348-376 | it moves exactly when an identifier starts at the cursor; when not, it restores the position; a non-empty result is the source text from the entry position and is followed by no identifier character or backslash; an empty result after moving means a trailing backslash |
| Lexemes.ScanName | src/Dotcss/Scanner.cs:426-434 | it moves exactly when an identifier character or a backslash is at the cursor; a non-empty result is the text consumed |
| Lexemes.IdentStartOpens | src/Dotcss/Scanner.cs:351-365 | the test before the identifier loop passes exactly when the text opens with `--`, `-` and an opening character, an opening character, or an optional `-` and an escape |
| Lexemes.IdentityExtent | src/Dotcss/Scanner.cs:348-376 | after an opening, a sequence of name units and a stop, the identifier is the whole text from the entry position to the stop, empty only when the stop overshot the end |
| Lexemes.NameExtent | src/Dotcss/Scanner.cs:426-434 | a name is the whole text of its sequence of name units and stop |
| Lexemes.PlainIdentity | src/Dotcss/Scanner.cs:348-376 | without escapes, an identifier opening with an opening character, `--` or `-` and an opening character is exactly the maximal run of identifier characters |
| Lexemes.PlainName | src/Dotcss/Scanner.cs:426-434 | without escapes, a name is exactly the maximal run of identifier characters |
| Lexemes.ScanNumber | src/Dotcss/Scanner.cs:450-475 | it succeeds exactly on a digit, or a dot before a digit; the lexeme is a dot and digits, or a digit and any mix of digits and dots, with no sign or exponent, and it is maximal; on failure nothing moves |
| Lexemes.ScanWhitespace | src/Dotcss/Scanner.cs:504-515 | it consumes and returns exactly the maximal run of space, tab, `\n`, `\f` and `\r` |
| Lexemes.CommentRun | src/Dotcss/Scanner.cs:524-546 | the stateful loop stops on the first `/` that follows a `*` it has passed, or at the end; no `*/` lies before where it stops |
| Lexemes.ScanComment | src/Dotcss/Scanner.cs:517-547 | without `/*` nothing moves; otherwise it consumes through the first `*/` after the opener, or to the end, and returns the text after `/*` |
| Lexemes.ScanString | src/Dotcss/Scanner.cs:549-578 | a non-empty result is a closed string with both quotes; without a quote nothing moves; a quote that is the last character leaves the cursor one past the end; any other failure leaves the cursor at the backslash, newline or end that stopped the run, not restored |
| Lexemes.StringClosesAtFirstQuote | src/Dotcss/Scanner.cs:549-578 | every closed string is recognised, up to its first matching quote |
| Lexemes.StringStopsAtBackslashOrNewline | src/Dotcss/Scanner.cs:557-577 | `ContinueEndOfString` stops the run at the first backslash or newline before a closing quote, and the scan then fails with the cursor left on it |
| Lexemes.TryScanUnicode | src/Dotcss/Scanner.cs:607-644 | without `+` nothing moves; a failure restores the position; a success returns between 2 and 14 characters of source text |
| Lexemes.UnicodeRangeAccepted | src/Dotcss/Scanner.cs:610-626 | `+`, then hex digits and `?` marks numbering 1 to 6, with no `-` after them, is accepted |
| Lexemes.UnicodeRangeWithEndAccepted | src/Dotcss/Scanner.cs:610-621 | such a start followed by `-` and 1 to 6 hex digits is accepted through those digits |
| Lexemes.UnicodeRangeRollsBack | src/Dotcss/Scanner.cs:610-631 | a start of the wrong size, or a `-` followed by a wrong number of hex digits, rolls back and returns nothing |
| Scanner.Make | src/Dotcss/Scanner.cs:191-345 | every token the scanner creates has line number and line start 0, the kind, start and end it is given, and gives back its payload through `Value` |
| Scanner.UnitTableDistinct | src/Dotcss/Scanner.cs:258-281 | no two cases of the unit switch have the same unit, so at most one case can match |
| Scanner.LookupUnit | src/Dotcss/Scanner.cs:258-281 | the cases from a given one on select the kind of the case whose unit matches, and `Dimension` when none does |
| Scanner.UnitKind | src/Dotcss/Scanner.cs:258-281 | a unit listed in the switch selects the kind of its case, any other unit selects `Dimension`; every kind selected is a unit kind or `Percentage`, and carries its lexeme |
| Scanner.PunctuationKind | src/Dotcss/Scanner.cs:294-306 | exactly `;`, `:`, `{`, `}`, `[`, `]`, `(`, `)` and `,` are recognised, each as a punctuation kind that carries no payload; every other character gives the `Unknown` default |
| Scanner.PunctuationKindTable | src/Dotcss/Scanner.cs:294-306 | each case of the switch maps its character to the kind the table lists beside it: `;` `SemiColon`, `:` `Colon`, `{` `CurlyL`, `}` `CurlyR`, `[` `BracketL`, `]` `BracketR`, `(` `ParenthesisL`, `)` `ParenthesisR`, `,` `Comma` |
| Scanner.PunctuationKindInjective | src/Dotcss/Scanner.cs:294-306 | no two cases of the punctuation switch give the same kind |
| Scanner.OperatorKind | src/Dotcss/Scanner.cs:313-342 | exactly the pairs `~=`, `\|=`, `*=`, `^=` and `$=` are recognised, each as an operator kind that carries its text; any other text, including one shorter than two characters at the end of the buffer, matches none |
| Scanner.OperatorKindTable | src/Dotcss/Scanner.cs:313-342 | each comparison maps its text to the kind the table lists beside it: `~=` `Includes`, `\|=` `Dashmatch`, `*=` `SubstringOperator`, `^=` `PrefixOperator`, `$=` `SuffixOperator` |
| Scanner.OperatorKindInjective | src/Dotcss/Scanner.cs:313-342 | no two operator comparisons give the same kind |
| Scanner.AtKeywordToken | src/Dotcss/Scanner.cs:215-230 | an empty name gives a zero-width `Delim` at the `@`; otherwise the token is `Charset` exactly when the name equals "charset" without case, and `AtKeyword` otherwise, carrying the text from the `@` |
| Scanner.HashToken | src/Dotcss/Scanner.cs:232-241 | the token is `Hash` exactly when the name is non-empty, and carries the name without `#`; otherwise it is a `Delim` ending where the cursor stopped |
| Scanner.NumericToken | src/Dotcss/Scanner.cs:248-286 | the token runs from the offset to where the cursor stops, at most one past the buffer; it is a `Num`, a `Percentage` or a unit kind, and well formed |
| Scanner.DimensionToken | src/Dotcss/Scanner.cs:256-282 | a number followed by a unit gives a token over both, of a unit kind or `Percentage`, carrying its whole text |
| Scanner.NumericTokenCases | src/Dotcss/Scanner.cs:248-286 | `%` gives a `Percentage` with no payload; a unit identifier gives the kind of its lower-cased text, carrying the whole lexeme; otherwise a `Num` that ends at the number or one past the buffer |
| Scanner.PunctuationOrDelim | src/Dotcss/Scanner.cs:294-345 | the token is punctuation, an operator or a `Delim` starting at the offset; an operator moves the cursor by two and begins with one of `~`, `\|`, `*`, `^`, `$`; anything else moves it by one |
| Scanner.PunctuationOrDelimCases | src/Dotcss/Scanner.cs:294-345 | a punctuation character at the cursor wins, then an operator at the token start; the token is a one-character `Delim` exactly when neither matches |
| Scanner.ScanNext | src/Dotcss/Scanner.cs:197-346 | every alternative moves the cursor forward by at most two past the end, the token starts at the offset and ends no later than the cursor, it is well formed, and it is never `EOF`, whitespace, a comment or an unquoted string |
| Scanner.AfterIdentity | src/Dotcss/Scanner.cs:215-246 | the same for the alternatives after a failed identifier scan, none of which gives an `Ident` |
| Scanner.AfterPunctuators | src/Dotcss/Scanner.cs:248-286 | the same for the alternatives from the number on |
| Scanner.NumberAlternative | src/Dotcss/Scanner.cs:248-286 | the number alternative applies exactly when a digit, or a dot before a digit, is at the cursor, and then yields a well-formed token that is not an identifier |
| Scanner.AfterNumber | src/Dotcss/Scanner.cs:288-345 | the same for the alternatives from the string on |
| Scanner.TriviaToken | src/Dotcss/Scanner.cs:486-494 | a whitespace or comment token carries the source text of its span and is well formed |
| Scanner.Trivia | src/Dotcss/Scanner.cs:477-502 | with neither whitespace nor `/*` at the cursor it returns null without moving; whitespace at the cursor that is not ignored, or a comment with text after its opener that is not ignored, is returned as a token starting at the cursor; it returns a token only for whitespace or a comment that is not ignored, as a maximal whitespace run or a span from `/*` through `*/` or the end; when it returns null, no whitespace or `/*` is at the cursor |
| Scanner.TriviaSkipsOnlyIgnored | src/Dotcss/Scanner.cs:477-502 | the loop passes over only ignored maximal whitespace runs, ignored comments and a `/*` that ends the buffer before the token it returns or the position where it returns null |
| Scanner.Scan | src/Dotcss/Scanner.cs:180-195 | `EOF` is returned exactly when trivia yields no token and leaves the cursor at or past the end, with start and end at that position; every other token moves the cursor strictly forward; ignored whitespace and comments never come back as tokens |
| Scanner.ScanUnquotedString | src/Dotcss/Scanner.cs:160-178 | it fails (the source throws) exactly when no unquoted character is at the cursor; otherwise an `UnquotedString` token over the maximal run |
| Stream.Run | test/Dotcss.Sample/Program.cs:38-42 | for a step that never stalls, the loop terminates; its first token is the step's token and its last is an `EOF` |
| Stream.RunSingleEof | test/Dotcss.Sample/Program.cs:38-42 | the loop stops at the first `EOF`: no earlier token is one |
| Stream.RunCount | test/Dotcss.Sample/Program.cs:38-42 | from a cursor before the limit the loop returns at most one token per remaining position, plus the `EOF` |
| Stream.RunInOrder | test/Dotcss.Sample/Program.cs:38-42 | when each token lies between the cursors before and after its step, the tokens of the loop never overlap and come in order |
| Stream.RunAll | test/Dotcss.Sample/Program.cs:38-42 | a property of every token the step can return holds of every token of the loop |
| Stream.ScanProgresses | src/Dotcss/Scanner.cs:180-195 | `Scan` never stalls: only a cursor before the end gives a token other than `EOF`, and that token moves the cursor forward |
| Stream.Tokenize | test/Dotcss.Sample/Program.cs:38-42 | the scan-until-`EOF` loop terminates and its last token is the `EOF` |
| Stream.TokenizeShape | test/Dotcss.Sample/Program.cs:38-42 | the stream has exactly one `EOF`, the last token, at most as many tokens as characters left plus one, and from the end on it is the `EOF` alone |
| Stream.ScanWithin | src/Dotcss/Scanner.cs:180-195 | each token `Scan` returns starts no earlier than the cursor it was given and ends no later than the cursor it returns |
| Stream.TokensInOrder | src/Dotcss/Scanner.cs:180-195 | tokens of the stream start no earlier than the starting position and never overlap: each ends before the next starts |
| Stream.ScanAdmitted | src/Dotcss/Scanner.cs:180-195 | each token `Scan` returns is well formed and respects the ignore switches |
| Stream.TokensAdmitted | src/Dotcss/Scanner.cs:180-195 | every token of the stream has its line fields 0, `Start <= End`, the payload its kind prescribes, and is not an ignored whitespace or comment token |
| Stream.ValueOfScannedToken | src/Dotcss/Token.cs:70-79 | a token the scanner builds never has a kind it never emits, so `Value` is its stored payload |
| Stream.StreamValues | src/Dotcss/Token.cs:70-79 | no token of a stream is of a never-emitted kind, and `Value` of each is its stored payload |
| Dispatch.CdoComesFirst | src/Dotcss/Scanner.cs:199-202 | `<!--` is a `CDO` token of four characters |
| Dispatch.CdcBeforeIdentifier | src/Dotcss/Scanner.cs:204-207 | `-->` is a `CDC` token although `--` also starts an identifier |
| Dispatch.IdentifierAfterMarkers | src/Dotcss/Scanner.cs:209-213 | without CDO or CDC, a successful identifier scan gives an `Ident` carrying the text consumed |
| Dispatch.AtSignDispatch | src/Dotcss/Scanner.cs:215-230 | `@` goes to the at-keyword branch with the cursor past it |
| Dispatch.HashDispatch | src/Dotcss/Scanner.cs:232-241 | `#` goes to the hash branch with the cursor past it |
| Dispatch.BangDispatch | src/Dotcss/Scanner.cs:243-246 | `!` is a one-character `Exclamation` |
| Dispatch.NumberDispatch | src/Dotcss/Scanner.cs:248-286 | a digit, or a dot before a digit, goes to the numeric branch after the number |
| Dispatch.StringDispatch | src/Dotcss/Scanner.cs:288-292 | a closed string is a `String` token carrying both quotes |
| Dispatch.PunctuationNext | src/Dotcss/Scanner.cs:294-311 | a character the punctuation switch recognises at the cursor, after every earlier alternative has failed, is a one-character token of the switch's kind |
| Dispatch.PunctuationDispatch | src/Dotcss/Scanner.cs:294-311 | each of the nine punctuation characters at the cursor is a one-character token without payload, of the kind its case of the switch names |
| Dispatch.OperatorDispatch | src/Dotcss/Scanner.cs:313-342 | each of `~=`, `\|=`, `*=`, `^=` and `$=` at the cursor is a two-character token carrying its text, of the kind its comparison names |
| Dispatch.DelimOtherwise | src/Dotcss/Scanner.cs:344-345 | a character that no alternative accepts (not a marker, identifier start, `@`, `#`, `!`, number start, quote, punctuation or operator) is a one-character `Delim` with no payload, and the cursor moves past it |
| Dispatch.UnclosedStringDispatch | src/Dotcss/Scanner.cs:288-345 | a quote that opens no closed string is a one-character `Delim` with no payload, and the cursor ends one past where the failed string scan stopped |
| Dispatch.OvershotIdentifierDispatch | src/Dotcss/Scanner.cs:209-345 | an identifier start whose name loop overshoots at a trailing backslash gives no identifier but a one-character `Delim`, with the cursor two past the end of the buffer |
| Examples.CharsetIgnoresCase | src/Dotcss/Scanner.cs:224-229 | `@CHARSET` is a `Charset` token over the whole input |
| Examples.LoneAtSign | src/Dotcss/Scanner.cs:218-221 | a lone `@` is a zero-width `Delim` while the cursor moves to 1 |
| Examples.HashCarriesName | src/Dotcss/Scanner.cs:232-241 | `#fff` is a `Hash` token whose payload is `fff` |
| Examples.IdentifierSwallowsCdcDashes | test/Dotcss.Sample/Program.cs:8 | `red-->` is `Ident` `red--`, then a `Delim`, then `EOF` |
| Examples.BackslashBeforeNewlineJoinsIdentifier | src/Dotcss/Scanner.cs:407-417 | in `a\` + newline + `b`, the first token is the identifier `a\` |
| Examples.EmUnit | test/Dotcss.Sample/Program.cs:26 | `4em` is an `EMS` token carrying `4em` |
| Examples.PercentageHasNoPayload | test/Dotcss.Sample/Program.cs:25 | `100%` is a `Percentage` token over `[0, 4)` with no payload |
| Examples.FiveUnitKinds | src/Dotcss/Scanner.cs:258-281 | no case of the unit switch is `deg`, so it selects `Dimension`; `DEC` lower-cases to `dec`, an `Angle` |
| Examples.DegIsDimension | src/Dotcss/Scanner.cs:269 | `5deg` is a `Dimension`, since the table has no `deg` |
| Examples.DecIsAngle | src/Dotcss/Scanner.cs:269 | `5DEC` is an `Angle` |
| Examples.TrailingBackslashOvershoots | src/Dotcss/Scanner.cs:407-411 | `1a\` is a `Num` token over `[0, 4)`, ending past the buffer |
| Examples.TrailingBackslashLosesIdentifier | src/Dotcss/Scanner.cs:348-376 | `a\` is a `Delim` over `[0, 1)` that leaves the cursor at 4 |
| Examples.UnterminatedStringSkipsText | src/Dotcss/Scanner.cs:549-563 | `'abc` is a `Delim` over `[0, 1)` leaving the cursor at 5, and the next token is `EOF` at 5 |
| Examples.CommentToken | src/Dotcss/Scanner.cs:477-502 | by default `/* c */x` starts with a `Comment` token over the comment; with comments ignored it starts with `Ident` `x` |
| Examples.BareCommentOpenAtEnd | src/Dotcss/Scanner.cs:519-533 | a bare `/*` is consumed and the scan returns `EOF` at 2 |
| Examples.LoneQuoteOvershootsByTwo | src/Dotcss/Scanner.cs:557-563 | a lone quote is a `Delim` over `[0, 1)` that leaves the cursor at 3, two past the end |
| Examples.SemicolonToken | src/Dotcss/Scanner.cs:294-311 | `;` is a `SemiColon` token over `[0, 1)` with no payload |
| Examples.IncludesToken | src/Dotcss/Scanner.cs:313-318 | `~=` is an `Includes` token over `[0, 2)` carrying `~=` |
| Examples.LongHexEscape | src/Dotcss/Scanner.cs:391-405 | `\1234567 x` is one identifier: the escape takes all seven hex digits and the space after them |
| Examples.NextCharOnLastReadsNul | src/Dotcss/Scanner.cs:82-87 | `NextChar` on the last character reads NUL and still moves past it; before another character it reads the character |

## Left out

- `ScannerState` is never used, and it depends on an `ArrayList<string>` that is not part of this model.
- `LookbackChar` and `GoBack` are never called, so they are not modelled.
- `Position` and `Advance` are not separate members. The position is an argument, and `Advance` is addition.
- `Substring(from)` is `Substring(from, position)` with the position passed explicitly.
- `GoBackTo` is the same: the old position is returned instead.
- `ExceptionHelper.ThrowArgumentNullException` is not part of this model. `ScanUnquotedString` returns `None` where the source throws.
- Culture-aware text handling is not modelled: `InvariantCultureIgnoreCase` and `ToLowerInvariant` are ASCII case folding here.
- Scanner.UnitKind: a non-ASCII unit that .NET lower-cases to an ASCII unit is not recognised here. The Kelvin sign in `5Khz` is an example.
- Scanner.AtKeywordToken: .NET's invariant-culture comparison ignores some characters, such as the soft hyphen. The ASCII comparison here does not.
- The payload is `Text` whether the source stores a `string` or a `ReadOnlyMemory<char>`.
- `ValueHolder` is reduced to the `Held` payload. A failed cast or null dereference in `Value` is `None`.
- The byte values of `TokenType` are not modelled, including `Extension = 255`. Only the order of the kinds is kept.
- `MethodImpl` attributes are not modelled, because they have no effect on behaviour.
- Positions are unbounded. The source's `int` cannot overflow for any buffer a string can hold.
- File reading and console output in the sample program are not modelled.
