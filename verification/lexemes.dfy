/**
  The sub-scanners of `Scanner`: each one starts at a cursor position and
  returns the span it recognised together with the cursor position it leaves
  behind. An empty lexeme means "no match"; whether the position was rolled
  back in that case differs from one sub-scanner to the next, exactly as in
  the source, and each contract says which.
 */
module Lexemes {
  import opened Chars
  import opened Cursor

  /** A recognised span (empty when nothing matched) and the cursor position afterwards. */
  datatype Scanned = Scanned(lexeme: seq<CodeUnit>, pos: nat)

  /** `r` carries exactly the text from `p` to where it left the cursor. */
  predicate Spans(s: seq<CodeUnit>, p: nat, r: Scanned) {
    p <= r.pos <= |s| && r.lexeme == s[p..r.pos]
  }

  const CRLF: seq<CodeUnit> := [CR, LF]
  const COMMENT_OPEN: seq<CodeUnit> := [SLASH, STAR]

  /**
    The cursor stands one past the end because the buffer's last character
    was a backslash that `ScanEscape` stepped over.
   */
  predicate Overshot(s: seq<CodeUnit>, q: nat) {
    q == |s| + 1 && |s| > 0 && s[|s| - 1] == BACKSLASH
  }

  // ---------------------------------------------------------------------------
  // Single characters, newlines and escapes
  // ---------------------------------------------------------------------------

  /** `ScanIdentChar`: one identifier-continuation character. */
  function ScanIdentChar(s: seq<CodeUnit>, p: nat): (r: Scanned)
    ensures p < |s| && IsIdentChar(s[p]) ==> r == Scanned([s[p]], p + 1)
    ensures !(p < |s| && IsIdentChar(s[p])) ==> r == Scanned([], p)
  {
    if IsIdentChar(Peek(s, p)) then Scanned(Substring(s, p, p + 1), p + 1) else Scanned([], p)
  }

  /** `ScanIdentFirstChar`: one identifier-opening character. */
  function ScanIdentFirstChar(s: seq<CodeUnit>, p: nat): (r: Scanned)
    ensures p < |s| && IsIdentFirstChar(s[p]) ==> r == Scanned([s[p]], p + 1)
    ensures !(p < |s| && IsIdentFirstChar(s[p])) ==> r == Scanned([], p)
  {
    if IsIdentFirstChar(Peek(s, p)) then Scanned(Substring(s, p, p + 1), p + 1) else Scanned([], p)
  }

  /**
    `ScanNewline`: the maximal run of `\n`, `\f`, `\r`. The source then tries
    to consume a literal `\r\n`, which can never match right after such a run,
    so the result is the run alone. `ok` reports whether anything was consumed.
   */
  function ScanNewline(s: seq<CodeUnit>, p: nat): (r: Step)
    ensures p <= |s| ==> MaximalRun(s, p, r.pos, IsNewline)
    ensures p > |s| ==> r.pos == p
    ensures r.ok <==> p < r.pos
  {
    var run := AdvanceWhile(s, p, IsNewline);
    var crlf := AdvanceIfChars(s, run, CRLF);
    assert run + 2 <= |s| ==> s[run..run + 2][0] == s[run];
    assert !crlf.ok;
    Step(Substring(s, p, crlf.pos) != [], crlf.pos)
  }

  /**
    The text `ScanEscape` consumed after a backslash at `p`, when the
    character after the backslash is a hex digit: every hex digit that follows
    (there is no limit of six), then one space or tab, or else a whole newline
    run. The lexeme is the digits alone.
   */
  ghost predicate HexEscape(s: seq<CodeUnit>, p: nat, r: Scanned) {
    var e := p + 1 + |r.lexeme|;
    && |r.lexeme| >= 1
    && MaximalRun(s, p + 1, e, IsHex)
    && r.lexeme == s[p + 1..e]
    && if e < |s| && (s[e] == SPACE || s[e] == TAB) then r.pos == e + 1
       else MaximalRun(s, e, r.pos, IsNewline)
  }

  /**
    The end of a hex escape whose digits run from `p + 1` to `afterHex`: the
    digits are the lexeme, and one space or tab, or else a newline run, is
    skipped after them.
   */
  function HexTail(s: seq<CodeUnit>, p: nat, afterHex: nat): (r: Scanned)
    requires p + 1 < afterHex && MaximalRun(s, p + 1, afterHex, IsHex)
    ensures HexEscape(s, p, r)
    ensures p + 1 < r.pos <= |s|
  {
    var hexValue := Substring(s, p + 1, afterHex);
    var c := Peek(s, afterHex);
    var end := if c == SPACE || c == TAB then afterHex + 1 else ScanNewline(s, afterHex).pos;
    Scanned(hexValue, end)
  }

  /**
    `ScanEscape`: a backslash escape at `p`; the lexeme is the escaped text
    without the backslash. A backslash before a newline counts only when
    `includeNewLines` holds; otherwise the cursor is left just past the
    backslash (it is not rolled back). A backslash that is the last character
    moves the cursor one past the end of the buffer.
   */
  function ScanEscape(s: seq<CodeUnit>, p: nat, includeNewLines: bool): (r: Scanned)
    ensures p <= r.pos
    ensures Peek(s, p) != BACKSLASH ==> r == Scanned([], p)
    ensures Peek(s, p) == BACKSLASH && p + 1 == |s| ==> r == Scanned([], p + 2)
    ensures Peek(s, p) == BACKSLASH && p + 1 < |s| && IsHex(s[p + 1]) ==> HexEscape(s, p, r)
    ensures Peek(s, p) == BACKSLASH && p + 1 < |s| && !IsHex(s[p + 1]) && !IsNewline(s[p + 1]) ==>
      r == Scanned([s[p + 1]], p + 2)
    ensures Peek(s, p) == BACKSLASH && p + 1 < |s| && IsNewline(s[p + 1]) && !includeNewLines ==>
      r == Scanned([], p + 1)
    ensures Peek(s, p) == BACKSLASH && p + 1 < |s| && IsNewline(s[p + 1]) && includeNewLines ==>
      MaximalRun(s, p + 1, r.pos, IsNewline) && Spans(s, p + 1, r)
    ensures r.lexeme != [] <==>
      Peek(s, p) == BACKSLASH && p + 1 < |s| && (includeNewLines || !IsNewline(s[p + 1]))
    ensures r.lexeme != [] ==> p + 1 < r.pos <= |s|
  {
    if Peek(s, p) != BACKSLASH then Scanned([], p)
    else
      var from := p + 1;
      var afterHex := AdvanceWhile(s, from, IsHex);
      if afterHex - from > 0 then HexTail(s, p, afterHex)
      else if !IsNewline(Peek(s, from)) then
        Scanned(Substring(s, from, from + 1), from + 1)
      else if includeNewLines then
        var q := ScanNewline(s, from).pos;
        Scanned(Substring(s, from, q), q)
      else
        Scanned(Substring(s, from, from), from)
  }

  // ---------------------------------------------------------------------------
  // Names and identifiers
  // ---------------------------------------------------------------------------

  /**
    The loop `while (ScanIdentChar() or ScanEscape(false)) {}` shared by
    `ScanIdentity` and `ScanName`: where the cursor stops. It stops in front
    of a character that is neither an identifier character nor a backslash,
    at the end of the buffer, or one past the end after a trailing backslash.
   */
  function NameRun(s: seq<CodeUnit>, p: nat): (q: nat)
    decreases |s| - p
    ensures p <= q
    ensures p > |s| ==> q == p
    ensures p <= |s| ==> q <= |s| || Overshot(s, q)
    ensures q < |s| ==> !IsIdentChar(s[q]) && s[q] != BACKSLASH
  {
    var c := ScanIdentChar(s, p);
    if c.lexeme != [] then NameRun(s, c.pos)
    else
      var e := ScanEscape(s, c.pos, false);
      if e.lexeme != [] then NameRun(s, e.pos) else e.pos
  }

  /**
    Without escapes, the name loop stops exactly at the end of the maximal
    run of identifier characters.
   */
  lemma {:induction false} NameRunPlain(s: seq<CodeUnit>, p: nat, q: nat)
    requires MaximalRun(s, p, q, IsIdentChar)
    requires q < |s| ==> s[q] != BACKSLASH
    decreases q - p
    ensures NameRun(s, p) == q
  {
    if p < q {
      assert ScanIdentChar(s, p) == Scanned([s[p]], p + 1);
      NameRunPlain(s, p + 1, q);
    } else {
      assert ScanIdentChar(s, p).lexeme == [];
      assert ScanEscape(s, p, false).lexeme == [];
    }
  }

  /** A backslash at `i` that `ScanEscape(false)` accepts. */
  predicate ValidEscapeAt(s: seq<CodeUnit>, i: nat) {
    i + 1 < |s| && s[i] == BACKSLASH && !IsNewline(s[i + 1])
  }

  /**
    The test `ScanIdentity` applies before committing to an identifier: an
    optional `-`, then a second `-`, an opening character or a valid escape.
   */
  predicate IdentStart(s: seq<CodeUnit>, p: nat) {
    if Peek(s, p) == DASH then
      Peek(s, p + 1) == DASH || IsIdentFirstChar(Peek(s, p + 1)) || ValidEscapeAt(s, p + 1)
    else
      IsIdentFirstChar(Peek(s, p)) || ValidEscapeAt(s, p)
  }

  /** The name loop from `p`, reporting the span from `from`. */
  function NameFrom(s: seq<CodeUnit>, from: nat, p: nat): (r: Scanned)
    requires from <= p
    ensures r.pos == NameRun(s, p)
    ensures r.lexeme != [] <==> from < r.pos <= |s|
    ensures r.lexeme != [] ==> Spans(s, from, r)
  {
    var q := NameRun(s, p);
    Scanned(Substring(s, from, q), q)
  }

  /**
    `ScanIdentity`. When `IdentStart` holds the cursor always moves and the
    lexeme is the source text from `p` to the new position; it is empty only
    when that position overshot the end after a trailing backslash. When
    `IdentStart` fails (a lone `-`, `-` before a digit, ...) nothing moves.
   */
  function ScanIdentity(s: seq<CodeUnit>, p: nat): (r: Scanned)
    ensures IdentStart(s, p) <==> p < r.pos
    ensures !IdentStart(s, p) ==> r == Scanned([], p)
    ensures r.lexeme != [] ==> Spans(s, p, r)
    ensures r.lexeme == [] && p < r.pos ==> Overshot(s, r.pos)
    ensures r.lexeme != [] && r.pos < |s| ==> !IsIdentChar(s[r.pos]) && s[r.pos] != BACKSLASH
  {
    if Peek(s, p) == DASH then
      var p1 := p + 1;
      if Peek(s, p1) == DASH then NameFrom(s, p, p1)
      else
        var first := ScanIdentFirstChar(s, p1);
        if first.lexeme != [] then NameFrom(s, p, first.pos)
        else
          var esc := ScanEscape(s, p1, false);
          if esc.lexeme != [] then NameFrom(s, p, esc.pos) else Scanned([], p)
    else
      var first := ScanIdentFirstChar(s, p);
      if first.lexeme != [] then NameFrom(s, p, first.pos)
      else
        var esc := ScanEscape(s, p, false);
        if esc.lexeme != [] then NameFrom(s, p, esc.pos) else Scanned([], p)
  }

  /**
    `ScanName`: identifier characters and escapes, with no opening-character
    rule. It moves exactly when the next character is an identifier character
    or a backslash; its lexeme is empty when it did not move or overshot.
   */
  function ScanName(s: seq<CodeUnit>, p: nat): (r: Scanned)
    ensures p < r.pos <==> p < |s| && (IsIdentChar(s[p]) || s[p] == BACKSLASH)
    ensures r.lexeme != [] ==> p < r.pos && Spans(s, p, r)
    ensures r.lexeme == [] ==> r.pos == p || Overshot(s, r.pos)
    ensures r.lexeme != [] && r.pos < |s| ==> !IsIdentChar(s[r.pos]) && s[r.pos] != BACKSLASH
  {
    NameFrom(s, p, p)
  }

  // ---------------------------------------------------------------------------
  // The grammar of names
  // ---------------------------------------------------------------------------

  /**
    A hex escape whose backslash is at `i`: its digits run to `e`, and the
    escape ends at `m`, past one space or tab after them, or else past the
    (possibly empty) newline run there.
   */
  ghost predicate HexSpan(s: seq<CodeUnit>, i: nat, e: nat, m: nat) {
    && i + 1 < e
    && MaximalRun(s, i + 1, e, IsHex)
    && if e < |s| && (s[e] == SPACE || s[e] == TAB) then m == e + 1
       else MaximalRun(s, e, m, IsNewline)
  }

  /** An escape that may appear inside a name spans `[i, m)`. */
  ghost predicate EscapeStep(s: seq<CodeUnit>, i: nat, m: nat) {
    && ValidEscapeAt(s, i)
    && if IsHex(s[i + 1]) then exists e: nat :: HexSpan(s, i, e, m) else m == i + 2
  }

  /** One unit of a name over `[i, m)`: an identifier character or an escape. */
  ghost predicate NameStep(s: seq<CodeUnit>, i: nat, m: nat) {
    || (i < |s| && IsIdentChar(s[i]) && m == i + 1)
    || EscapeStep(s, i, m)
  }

  /** `[p, k)` is a sequence of name units. */
  ghost predicate NameBody(s: seq<CodeUnit>, p: nat, k: nat)
    decreases k - p
  {
    p == k || (p < k && exists m: nat :: p < m <= k && NameStep(s, p, m) && NameBody(s, m, k))
  }

  /**
    Where the name loop leaves the cursor once the units end at `k`: at `k`,
    when no character follows or the next one neither continues a name nor
    is a backslash; or just past a backslash that opens no escape, which is
    one past the end of the buffer when that backslash is the last character.
   */
  ghost predicate NameStop(s: seq<CodeUnit>, k: nat, q: nat) {
    || (q == k && (k >= |s| || (!IsIdentChar(s[k]) && s[k] != BACKSLASH)))
    || (k < |s| && s[k] == BACKSLASH && !ValidEscapeAt(s, k) && q == (if k + 1 == |s| then k + 2 else k + 1))
  }

  /**
    The opening of an identifier at `p`, ending at `h`: `--`, `-` and an
    opening character, or an opening character, each followed by nothing
    more; or an optional `-` followed by an escape.
   */
  ghost predicate IdentOpening(s: seq<CodeUnit>, p: nat, h: nat) {
    if p < |s| && s[p] == DASH then
      (p + 1 < |s| && (s[p + 1] == DASH || IsIdentFirstChar(s[p + 1])) && h == p + 2) || EscapeStep(s, p + 1, h)
    else
      (p < |s| && IsIdentFirstChar(s[p]) && h == p + 1) || EscapeStep(s, p, h)
  }

  /** An escape step is exactly what `ScanEscape(false)` accepts and where it stops. */
  lemma EscapeStepScans(s: seq<CodeUnit>, i: nat, m: nat)
    requires EscapeStep(s, i, m)
    ensures ScanEscape(s, i, false).lexeme != [] && ScanEscape(s, i, false).pos == m
  {
    var r := ScanEscape(s, i, false);
    if IsHex(s[i + 1]) {
      var e: nat :| HexSpan(s, i, e, m);
      assert HexEscape(s, i, r);
      var e' := i + 1 + |r.lexeme|;
      AdvanceWhileUnique(s, i + 1, e, IsHex);
      AdvanceWhileUnique(s, i + 1, e', IsHex);
      if !(e < |s| && (s[e] == SPACE || s[e] == TAB)) {
        AdvanceWhileUnique(s, e, m, IsNewline);
        AdvanceWhileUnique(s, e, r.pos, IsNewline);
      }
    }
  }

  /** Conversely, every escape `ScanEscape(false)` accepts is an escape step. */
  lemma ScanEscapeSteps(s: seq<CodeUnit>, i: nat)
    requires ScanEscape(s, i, false).lexeme != []
    ensures EscapeStep(s, i, ScanEscape(s, i, false).pos)
  {
    var r := ScanEscape(s, i, false);
    if IsHex(s[i + 1]) {
      assert HexSpan(s, i, i + 1 + |r.lexeme|, r.pos);
    }
  }

  /** A name body followed by a stop fixes where the name loop ends. */
  lemma {:induction false} NameRunFromBody(s: seq<CodeUnit>, p: nat, k: nat, q: nat)
    requires NameBody(s, p, k) && NameStop(s, k, q)
    ensures NameRun(s, p) == q
    decreases k - p
  {
    if p == k {
      assert ScanIdentChar(s, p).lexeme == [];
    } else {
      var m: nat :| p < m <= k && NameStep(s, p, m) && NameBody(s, m, k);
      NameRunFromBody(s, m, k, q);
      if p < |s| && IsIdentChar(s[p]) {
        assert ScanIdentChar(s, p) == Scanned([s[p]], p + 1);
      } else {
        EscapeStepScans(s, p, m);
      }
    }
  }

  /** Wherever the name loop ends, the text it passed over is a name body followed by a stop. */
  lemma {:induction false} NameRunHasBody(s: seq<CodeUnit>, p: nat)
    ensures exists k: nat :: NameBody(s, p, k) && NameStop(s, k, NameRun(s, p))
    decreases |s| - p
  {
    var c := ScanIdentChar(s, p);
    if c.lexeme != [] {
      NameRunHasBody(s, p + 1);
      var k: nat :| NameBody(s, p + 1, k) && NameStop(s, k, NameRun(s, p + 1));
      assert NameStep(s, p, p + 1);
      assert NameBody(s, p, k);
    } else {
      var e := ScanEscape(s, p, false);
      if e.lexeme != [] {
        ScanEscapeSteps(s, p);
        NameRunHasBody(s, e.pos);
        var k: nat :| NameBody(s, e.pos, k) && NameStop(s, k, NameRun(s, e.pos));
        assert NameStep(s, p, e.pos);
        assert NameBody(s, p, k);
      } else {
        assert NameBody(s, p, p) && NameStop(s, p, NameRun(s, p));
      }
    }
  }

  /** The name loop ends at `q` exactly when a name body from `p` is followed by a stop at `q`. */
  lemma NameRunGrammar(s: seq<CodeUnit>, p: nat, q: nat)
    ensures NameRun(s, p) == q <==> exists k: nat :: NameBody(s, p, k) && NameStop(s, k, q)
  {
    NameRunHasBody(s, p);
    if exists k: nat :: NameBody(s, p, k) && NameStop(s, k, q) {
      var k: nat :| NameBody(s, p, k) && NameStop(s, k, q);
      NameRunFromBody(s, p, k, q);
    }
  }

  /** `IdentStart` holds exactly when an identifier opening is present. */
  lemma IdentStartOpens(s: seq<CodeUnit>, p: nat)
    ensures IdentStart(s, p) <==> exists h: nat :: IdentOpening(s, p, h)
  {
    var i := if p < |s| && s[p] == DASH then p + 1 else p;
    if ValidEscapeAt(s, i) {
      ScanEscapeSteps(s, i);
      assert IdentOpening(s, p, ScanEscape(s, i, false).pos);
    } else if IdentStart(s, p) {
      assert IdentOpening(s, p, i + 1);
    }
  }

  /**
    `ScanIdentity` reads the opening, the name body and the stop: its
    lexeme is the text from `p` to the stop, empty only when the stop
    overshot the end of the buffer.
   */
  lemma IdentityExtent(s: seq<CodeUnit>, p: nat, h: nat, k: nat, q: nat)
    requires IdentOpening(s, p, h) && NameBody(s, h, k) && NameStop(s, k, q)
    ensures p < q
    ensures ScanIdentity(s, p) == Scanned(if q <= |s| then s[p..q] else [], q)
  {
    NameRunFromBody(s, h, k, q);
    if p < |s| && s[p] == DASH {
      if p + 1 < |s| && s[p + 1] == DASH {
        assert ScanIdentChar(s, p + 1) == Scanned([s[p + 1]], p + 2);
      } else if !(p + 1 < |s| && IsIdentFirstChar(s[p + 1])) {
        EscapeStepScans(s, p + 1, h);
      }
    } else if !(p < |s| && IsIdentFirstChar(s[p])) {
      EscapeStepScans(s, p, h);
    }
  }

  /** `ScanName` reads the name body and the stop, from `p` on. */
  lemma NameExtent(s: seq<CodeUnit>, p: nat, k: nat, q: nat)
    requires NameBody(s, p, k) && NameStop(s, k, q)
    ensures ScanName(s, p) == Scanned(if q <= |s| then s[p..q] else [], q)
  {
    NameRunFromBody(s, p, k, q);
  }

  /**
    An identifier without escapes: an opening character, or `-` before an
    opening character or a second `-`, then identifier characters up to one
    that is not a backslash. The lexeme is exactly that run.
   */
  lemma PlainIdentity(s: seq<CodeUnit>, p: nat, q: nat)
    requires p < |s|
    requires IsIdentFirstChar(s[p]) || (s[p] == DASH && p + 1 < |s| && (IsIdentFirstChar(s[p + 1]) || s[p + 1] == DASH))
    requires MaximalRun(s, p, q, IsIdentChar)
    requires q < |s| ==> s[q] != BACKSLASH
    ensures ScanIdentity(s, p) == Scanned(s[p..q], q)
  {
    if s[p] == DASH && s[p + 1] != DASH {
      NameRunPlain(s, p + 2, q);
    } else {
      NameRunPlain(s, p + 1, q);
    }
  }

  /** A name without escapes is the maximal run of identifier characters. */
  lemma PlainName(s: seq<CodeUnit>, p: nat, q: nat)
    requires MaximalRun(s, p, q, IsIdentChar)
    requires q < |s| ==> s[q] != BACKSLASH
    ensures ScanName(s, p) == Scanned(s[p..q], q)
  {
    NameRunPlain(s, p, q);
  }

  // ---------------------------------------------------------------------------
  // Numbers
  // ---------------------------------------------------------------------------

  /** A number as `ScanNumber` reads it: `.` then digits, or a digit then digits and dots. */
  predicate IsNumberLexeme(l: seq<CodeUnit>) {
    || (|l| >= 2 && l[0] == DOT && forall i :: 1 <= i < |l| ==> IsDigit(l[i]))
    || (|l| >= 1 && IsDigit(l[0]) && forall i :: 1 <= i < |l| ==> IsDigit(l[i]) || l[i] == DOT)
  }

  /** A number begins at `p`: a digit, or a dot followed by a digit. */
  predicate NumberStart(s: seq<CodeUnit>, p: nat) {
    p < |s| && (IsDigit(s[p]) || (s[p] == DOT && p + 1 < |s| && IsDigit(s[p + 1])))
  }

  /**
    `ScanNumber`: the longest number lexeme at `p`, with no sign and no
    exponent. When nothing matches the position is unchanged.
   */
  function ScanNumber(s: seq<CodeUnit>, p: nat): (r: Scanned)
    ensures r.lexeme != [] <==> NumberStart(s, p)
    ensures r.lexeme == [] ==> r.pos == p
    ensures p <= r.pos
    ensures r.lexeme != [] ==> p < r.pos && Spans(s, p, r) && IsNumberLexeme(r.lexeme)
    ensures r.lexeme != [] && r.pos < |s| ==> !IsDigit(s[r.pos]) && (s[p] == DOT || s[r.pos] != DOT)
  {
    var npeek := if Peek(s, p) == DOT then 1 else 0;
    if IsDigit(Peek(s, p + npeek)) then
      var q := AdvanceWhile(s, p + npeek + 1, (c: CodeUnit) => IsDigit(c) || (npeek == 0 && c == DOT));
      Scanned(Substring(s, p, q), q)
    else Scanned([], p)
  }

  // ---------------------------------------------------------------------------
  // Whitespace and comments
  // ---------------------------------------------------------------------------

  /** `ScanWhitespace`: the maximal run of space, tab, `\n`, `\f`, `\r`. */
  function ScanWhitespace(s: seq<CodeUnit>, p: nat): (r: Scanned)
    ensures p <= |s| ==> MaximalRun(s, p, r.pos, IsWhitespace) && Spans(s, p, r)
    ensures p > |s| ==> r == Scanned([], p)
    ensures r.lexeme != [] <==> p < |s| && IsWhitespace(s[p])
  {
    var q := AdvanceWhile(s, p, IsWhitespace);
    Scanned(Substring(s, p, q), q)
  }

  // `/*` starts at `p`.
  predicate OpensComment(s: seq<CodeUnit>, p: nat) {
    p + 1 < |s| && s[p] == SLASH && s[p + 1] == STAR
  }

  // `*/` starts at `k`.
  predicate ClosesAt(s: seq<CodeUnit>, k: int) {
    0 <= k && k + 1 < |s| && s[k] == STAR && s[k + 1] == SLASH
  }

  // `[p, e)` is a comment: it runs from the `/*` at `p` through the first
  // `*/` that starts at or after `p + 2`, or to the end of the buffer when
  // there is none.
  ghost predicate CommentSpan(s: seq<CodeUnit>, p: nat, e: nat) {
    && (forall k :: p + 2 <= k < e - 2 ==> !ClosesAt(s, k))
    && ((p + 4 <= e && ClosesAt(s, e - 2))
        || (e == |s| && forall k :: p + 2 <= k < |s| ==> !ClosesAt(s, k)))
  }

  /**
    The run `AdvanceWhileChar(IsEndofComment)` of `ScanComment`, whose
    predicate keeps the state `hot` ("the previous character was `*`") in a
    closure. It stops on a `/` that follows a `*` of the run (`ok`), or at
    the end of the buffer.
   */
  function CommentRun(s: seq<CodeUnit>, p: nat, hot: bool): (r: Step)
    decreases |s| - p
    ensures p <= r.pos
    ensures r.ok ==> r.pos < |s| && s[r.pos] == SLASH && (if r.pos == p then hot else s[r.pos - 1] == STAR)
    ensures !r.ok ==> r.pos == (if p <= |s| then |s| else p)
    ensures !r.ok ==> !(hot && p < |s| && s[p] == SLASH)
    ensures forall k :: p <= k && k + 1 < r.pos ==> !ClosesAt(s, k)
  {
    if p >= |s| then Step(false, p)
    else if hot && s[p] == SLASH then Step(true, p)
    else CommentRun(s, p + 1, s[p] == STAR)
  }

  // `ScanComment`: after a `/*` at `p`, the comment text up to and including
  // the closing `*/`, or to the end of the buffer. The lexeme leaves out the
  // opening `/*`, so a `/*` at the very end is consumed but reported empty.
  function ScanComment(s: seq<CodeUnit>, p: nat): (r: Scanned)
    ensures !OpensComment(s, p) ==> r == Scanned([], p)
    ensures OpensComment(s, p) ==> Spans(s, p + 2, r)
    ensures OpensComment(s, p) ==> CommentSpan(s, p, r.pos)
  {
    var open := AdvanceIfChars(s, p, COMMENT_OPEN);
    if !open.ok then Scanned([], p)
    else
      var from := open.pos;
      var run := CommentRun(s, from, false);
      var q := if run.ok then run.pos + 1 else run.pos;
      Scanned(Substring(s, from, q), q)
  }

  // ---------------------------------------------------------------------------
  // Quoted strings
  // ---------------------------------------------------------------------------

  /** A character that may appear between the quotes of a string opened by `quote`. */
  predicate IsStringBody(quote: CodeUnit, c: CodeUnit) {
    c != quote && c != BACKSLASH && !IsNewline(c)
  }

  /** `[p, e)` is a quoted string: a quote, body characters, and the same quote. */
  ghost predicate ClosedString(s: seq<CodeUnit>, p: nat, e: nat) {
    && p + 2 <= e <= |s|
    && IsQuote(s[p])
    && s[e - 1] == s[p]
    && forall i :: p < i < e - 1 ==> IsStringBody(s[p], s[i])
  }

  /**
    `ScanString`. It succeeds only when the body run ends at a copy of the
    opening quote. On failure it returns an empty lexeme WITHOUT rolling back:
    the cursor is left where the body run stopped, or one past the end when
    the quote was the buffer's last character (`NextChar` then reads the
    sentinel as closing quote, and the closing slice falls outside the buffer).
   */
  function ScanString(s: seq<CodeUnit>, p: nat): (r: Scanned)
    ensures p <= r.pos
    ensures !IsQuote(Peek(s, p)) ==> r == Scanned([], p)
    ensures r.lexeme != [] ==> ClosedString(s, p, r.pos) && Spans(s, p, r)
    ensures IsQuote(Peek(s, p)) && p + 1 == |s| ==> r == Scanned([], |s| + 1)
    ensures IsQuote(Peek(s, p)) && p + 1 < |s| && r.lexeme == [] ==> p < r.pos <= |s|
    ensures IsQuote(Peek(s, p)) && p + 1 < |s| && r.lexeme == [] ==>
      forall i :: p < i < r.pos ==> IsStringBody(s[p], s[i])
    ensures IsQuote(Peek(s, p)) && p + 1 < |s| && r.lexeme == [] && r.pos < |s| ==>
      !IsStringBody(s[p], s[r.pos]) && s[r.pos] != s[p]
  {
    if !IsQuote(Peek(s, p)) then Scanned([], p)
    else
      var next := NextChar(s, p);
      var closeQuote := next.unit;
      var q := AdvanceWhile(s, next.pos, (c: CodeUnit) => c != closeQuote && !(c == BACKSLASH || IsNewline(c)));
      if Peek(s, q) != closeQuote then Scanned([], q)
      else Scanned(Substring(s, p, q + 1), q + 1)
  }

  /** A quoted string is recognised up to its first closing quote. */
  lemma StringClosesAtFirstQuote(s: seq<CodeUnit>, p: nat, e: nat)
    requires ClosedString(s, p, e)
    ensures ScanString(s, p) == Scanned(s[p..e], e)
  {
    var quote := s[p];
    var cond := (c: CodeUnit) => c != quote && !(c == BACKSLASH || IsNewline(c));
    assert NextChar(s, p).unit == quote;
    AdvanceWhileUnique(s, p + 1, e - 1, cond);
  }

  /**
    A backslash or a newline ends the body run: the string fails there and
    the cursor stays on it, so the source supports neither escapes nor line
    continuations inside strings.
   */
  lemma StringStopsAtBackslashOrNewline(s: seq<CodeUnit>, p: nat, i: nat)
    requires p < i < |s| && IsQuote(s[p])
    requires forall j :: p < j < i ==> IsStringBody(s[p], s[j])
    requires s[i] == BACKSLASH || IsNewline(s[i])
    ensures ScanString(s, p) == Scanned([], i)
  {
    var quote := s[p];
    var cond := (c: CodeUnit) => c != quote && !(c == BACKSLASH || IsNewline(c));
    assert NextChar(s, p).unit == quote;
    AdvanceWhileUnique(s, p + 1, i, cond);
  }

  // ---------------------------------------------------------------------------
  // Unicode ranges (not called by the dispatcher)
  // ---------------------------------------------------------------------------

  /**
    `TryScanUnicode`: `+`, hex digits then question marks (1 to 6 in all),
    and optionally `-` with 1 to 6 hex digits. Any failure, including a `-`
    not followed by 1 to 6 hex digits, rolls the whole match back.
   */
  function TryScanUnicode(s: seq<CodeUnit>, p: nat): (r: Scanned)
    ensures !(p < |s| && s[p] == PLUS) ==> r == Scanned([], p)
    ensures r.lexeme == [] ==> r.pos == p
    ensures r.lexeme != [] ==> Spans(s, p, r) && p + 2 <= r.pos <= p + 14
  {
    if !EOS(s, p) && Peek(s, p) == PLUS then
      var h := AdvanceWhile(s, p + 1, IsHex);
      var q := AdvanceWhile(s, h, IsQuestionMark);
      var codePoints := (h - (p + 1)) + (q - h);
      if 1 <= codePoints <= 6 then
        if Peek(s, q) == DASH then
          var d := AdvanceWhile(s, q + 1, IsHex);
          if 1 <= d - (q + 1) <= 6 then Scanned(Substring(s, p, d), d) else Scanned([], p)
        else Scanned(Substring(s, p, q), q)
      else Scanned([], p)
    else Scanned([], p)
  }

  /** `+`, hex digits and question marks (1 to 6), not followed by `-`: accepted. */
  lemma UnicodeRangeAccepted(s: seq<CodeUnit>, p: nat, h: nat, q: nat)
    requires p < |s| && s[p] == PLUS
    requires MaximalRun(s, p + 1, h, IsHex) && MaximalRun(s, h, q, IsQuestionMark)
    requires 1 <= q - (p + 1) <= 6
    requires q == |s| || s[q] != DASH
    ensures TryScanUnicode(s, p) == Scanned(s[p..q], q)
  {
    AdvanceWhileUnique(s, p + 1, h, IsHex);
    AdvanceWhileUnique(s, h, q, IsQuestionMark);
  }

  /** ... followed by `-` and 1 to 6 hex digits: accepted through the second bound. */
  lemma UnicodeRangeWithEndAccepted(s: seq<CodeUnit>, p: nat, h: nat, q: nat, d: nat)
    requires p < |s| && s[p] == PLUS
    requires MaximalRun(s, p + 1, h, IsHex) && MaximalRun(s, h, q, IsQuestionMark)
    requires 1 <= q - (p + 1) <= 6
    requires q < |s| && s[q] == DASH
    requires MaximalRun(s, q + 1, d, IsHex) && 1 <= d - (q + 1) <= 6
    ensures TryScanUnicode(s, p) == Scanned(s[p..d], d)
  {
    AdvanceWhileUnique(s, p + 1, h, IsHex);
    AdvanceWhileUnique(s, h, q, IsQuestionMark);
    AdvanceWhileUnique(s, q + 1, d, IsHex);
  }

  /** Too few or too many code points, or a bad second bound: nothing is consumed. */
  lemma UnicodeRangeRollsBack(s: seq<CodeUnit>, p: nat, h: nat, q: nat, d: nat)
    requires p < |s| && s[p] == PLUS
    requires MaximalRun(s, p + 1, h, IsHex) && MaximalRun(s, h, q, IsQuestionMark)
    requires q - (p + 1) == 0 || q - (p + 1) > 6 || (q < |s| && s[q] == DASH &&
      MaximalRun(s, q + 1, d, IsHex) && !(1 <= d - (q + 1) <= 6))
    ensures TryScanUnicode(s, p) == Scanned([], p)
  {
    AdvanceWhileUnique(s, p + 1, h, IsHex);
    AdvanceWhileUnique(s, h, q, IsQuestionMark);
    if 1 <= q - (p + 1) <= 6 {
      AdvanceWhileUnique(s, q + 1, d, IsHex);
    }
  }
}
