/**
  `MultiLineStream`: a read cursor over an immutable buffer of code units.

  The buffer is a `seq<CodeUnit>` and the cursor position a `nat` that every
  operation takes and returns. Positions are NOT bounded by the buffer
  length: `Advance` is unconditional in the source, and the scanner does
  step past the end (see `ScanEscape`).
 */
module Cursor {
  import opened Chars

  /** Outcome of an operation that reports whether it matched, and the new position. */
  datatype Step = Step(ok: bool, pos: nat)

  /** Outcome of `NextChar`: the character read and the new position. */
  datatype Read = Read(unit: CodeUnit, pos: nat)

  /** `PeekChar(step)`: the character at offset `i`, or the `'\0'` sentinel outside the buffer. */
  function Peek(s: seq<CodeUnit>, i: nat): (c: CodeUnit)
    ensures i < |s| ==> c == s[i]
    ensures i >= |s| ==> c == NUL
  {
    var span := Substring(s, i, i + 1);
    if span == [] then NUL else span[0]
  }

  /**
    `Substring(from, to)`: the slice `[from, to)`, or empty when `to` lies
    beyond the buffer. The source's `Slice` faults when `from > to`.
   */
  function Substring(s: seq<CodeUnit>, from: nat, to: nat): (r: seq<CodeUnit>)
    requires from <= to
    ensures to <= |s| ==> r == s[from..to]
    ensures to > |s| ==> r == []
    ensures r != [] <==> from < to <= |s|
  {
    if to > |s| then [] else s[from..to]
  }

  /** `EOS`: the position is at or beyond the end of the buffer. */
  predicate EOS(s: seq<CodeUnit>, p: nat) {
    |s| <= p
  }

  /**
    At or beyond the end every read yields the sentinel or nothing, and
    advancing keeps the cursor there.
   */
  lemma EosReadsNothing(s: seq<CodeUnit>, p: nat)
    ensures EOS(s, p) ==> Peek(s, p) == NUL && NextChar(s, p).unit == NUL && EOS(s, NextChar(s, p).pos)
    ensures EOS(s, p) ==> Substring(s, p, p + 1) == []
    ensures EOS(s, p) ==> forall c :: AdvanceIfChar(s, p, c).ok ==> c == NUL
    ensures EOS(s, p) ==> AdvanceIfChar(s, p, NUL) == Step(true, p + 1)
    ensures !EOS(s, p) ==> Peek(s, p) == s[p]
  {
  }

  /**
    `NextChar`. The source evaluates `Substring(position++, position + 1)`,
    so it slices `[p, p + 2)`: it agrees with `Peek` except on the last
    character of the buffer, where it yields the sentinel. It always advances
    by one.
   */
  function NextChar(s: seq<CodeUnit>, p: nat): (r: Read)
    ensures r.pos == p + 1
    ensures p + 1 < |s| ==> r.unit == Peek(s, p)
    ensures p + 1 >= |s| ==> r.unit == NUL
  {
    var span := Substring(s, p, p + 2);
    Read(if span == [] then NUL else span[0], p + 1)
  }

  /**
    `AdvanceIfChar`: consume one character when it equals `c`. Since the
    peek reads NUL at or past the end, asking for NUL there succeeds and
    moves the cursor further beyond the buffer.
   */
  function AdvanceIfChar(s: seq<CodeUnit>, p: nat, c: CodeUnit): (r: Step)
    ensures r.ok <==> (p < |s| && s[p] == c) || (|s| <= p && c == NUL)
    ensures r.ok <==> Peek(s, p) == c
    ensures r.pos == if r.ok then p + 1 else p
  {
    if Peek(s, p) == c then Step(true, p + 1) else Step(false, p)
  }

  /** The comparison loop of `AdvanceIfChars`, from literal index `i` on. */
  function MatchesFrom(s: seq<CodeUnit>, p: nat, lit: seq<CodeUnit>, i: nat): (b: bool)
    requires i <= |lit|
    requires p + |lit| <= |s|
    decreases |lit| - i
    ensures b <==> forall j :: i <= j < |lit| ==> s[p + j] == lit[j]
  {
    if i == |lit| then true
    else if Peek(s, p + i) != lit[i] then false
    else MatchesFrom(s, p, lit, i + 1)
  }

  /**
    `AdvanceIfChars`: consume the literal when it is the next text, and
    nothing otherwise (also when fewer characters remain than it has).
   */
  function AdvanceIfChars(s: seq<CodeUnit>, p: nat, lit: seq<CodeUnit>): (r: Step)
    ensures r.ok <==> p + |lit| <= |s| && s[p..p + |lit|] == lit
    ensures r.pos == if r.ok then p + |lit| else p
  {
    if p + |lit| > |s| then Step(false, p)
    else if MatchesFrom(s, p, lit, 0) then
      assert s[p..p + |lit|] == lit by {
        forall j | 0 <= j < |lit| ensures s[p..p + |lit|][j] == lit[j] { }
      }
      Step(true, p + |lit|)
    else Step(false, p)
  }

  /**
    `AdvanceWhileChar`: the end of the maximal run of characters satisfying
    `cond` that starts at `p`. It never moves past the end of the buffer
    (and does not move at all from a position already beyond it); the
    source's return value is the distance `q - p`.
   */
  function AdvanceWhile(s: seq<CodeUnit>, p: nat, cond: CodeUnit -> bool): (q: nat)
    decreases |s| - p
    ensures p <= q
    ensures p <= |s| ==> q <= |s|
    ensures p >= |s| ==> q == p
    ensures forall i :: p <= i < q ==> i < |s| && cond(s[i])
    ensures q < |s| ==> !cond(s[q])
  {
    if p < |s| && cond(s[p]) then AdvanceWhile(s, p + 1, cond) else p
  }

  /** `[a, b)` is a run of `cond` characters that cannot be extended to the right. */
  ghost predicate MaximalRun(s: seq<CodeUnit>, a: nat, b: nat, cond: CodeUnit -> bool) {
    && a <= b <= |s|
    && (forall i :: a <= i < b ==> cond(s[i]))
    && (b == |s| || !cond(s[b]))
  }

  /** Any position ending a maximal `cond`-run from `p` is where `AdvanceWhile` stops. */
  lemma {:induction false} AdvanceWhileUnique(s: seq<CodeUnit>, p: nat, q: nat, cond: CodeUnit -> bool)
    requires MaximalRun(s, p, q, cond)
    ensures AdvanceWhile(s, p, cond) == q
    decreases q - p
  {
    if p < q {
      AdvanceWhileUnique(s, p + 1, q, cond);
    }
  }
}
