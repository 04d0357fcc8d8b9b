/**
  `Stream`: the token stream a client gets by calling `Scan` until it
  returns `EOF`, and the properties of that stream as a whole.

  The loop is first stated for any step function from a cursor to a token
  and the cursor after it (`Run`), with the properties the loop needs of the
  step as explicit assumptions; `Tokenize` is that loop with `Scan` as the
  step, and the `Scan...` lemmas show that `Scan` has those properties.
 */
module Stream {
  import opened Wrappers
  import opened Chars
  import opened Tokens
  import opened Scanner

  /**
    The step never stalls: a token other than `EOF` moves the cursor
    forward, and only cursors before `end` give one.
   */
  ghost predicate Progresses(step: nat -> Lexed, end: nat) {
    forall q: nat :: !step(q).token.kind.EOF? ==> q < end && q < step(q).pos
  }

  /**
    The client loop: the tokens `step` returns from `p` on, up to and
    including the first `EOF`.
   */
  function Run(step: nat -> Lexed, end: nat, p: nat): (ts: seq<Token>)
    requires Progresses(step, end)
    decreases end - p
    ensures 1 <= |ts| && ts[|ts| - 1].kind.EOF?
    ensures ts[0] == step(p).token
  {
    var r := step(p);
    if r.token.kind.EOF? then [r.token]
    else [r.token] + Run(step, end, r.pos)
  }

  /** The loop stops at the first `EOF`: no token before the last is one. */
  lemma {:induction false} RunSingleEof(step: nat -> Lexed, end: nat, p: nat)
    requires Progresses(step, end)
    decreases end - p
    ensures forall i :: 0 <= i < |Run(step, end, p)| - 1 ==> !Run(step, end, p)[i].kind.EOF?
  {
    var r := step(p);
    if !r.token.kind.EOF? {
      RunSingleEof(step, end, r.pos);
      var ts := Run(step, end, p);
      var rest := Run(step, end, r.pos);
      assert ts == [r.token] + rest;
      forall i | 0 < i < |ts| - 1
        ensures !ts[i].kind.EOF?
      {
        assert ts[i] == rest[i - 1];
      }
    }
  }

  /** From `p <= end` the loop returns at most `end - p` tokens besides the `EOF`. */
  lemma {:induction false} RunCount(step: nat -> Lexed, end: nat, p: nat)
    requires Progresses(step, end)
    decreases end - p
    ensures p <= end ==> |Run(step, end, p)| <= end - p + 1
  {
    var r := step(p);
    if !r.token.kind.EOF? {
      RunCount(step, end, r.pos);
      if r.pos > end {
        assert step(r.pos).token.kind.EOF?;
      }
    }
  }

  /**
    When each token the step returns lies between the cursor it was given
    and the cursor it returns, the tokens of the loop come in order: the
    first starts at or after `p` and each ends before the next begins.
   */
  lemma {:induction false} RunInOrder(step: nat -> Lexed, end: nat, p: nat)
    requires Progresses(step, end)
    requires forall q: nat :: q <= step(q).token.start <= step(q).token.end <= step(q).pos
    decreases end - p
    ensures p <= Run(step, end, p)[0].start
    ensures forall i :: 0 <= i < |Run(step, end, p)| - 1 ==>
      Run(step, end, p)[i].end <= Run(step, end, p)[i + 1].start
  {
    var r := step(p);
    if !r.token.kind.EOF? {
      RunInOrder(step, end, r.pos);
      var ts := Run(step, end, p);
      var rest := Run(step, end, r.pos);
      assert ts == [r.token] + rest;
      forall i | 0 <= i < |ts| - 1
        ensures ts[i].end <= ts[i + 1].start
      {
        if i > 0 {
          assert ts[i] == rest[i - 1] && ts[i + 1] == rest[i];
        }
      }
    }
  }

  /** A property every token of the step has, every token of the loop has. */
  lemma {:induction false} RunAll(step: nat -> Lexed, end: nat, p: nat, ok: Token -> bool)
    requires Progresses(step, end)
    requires forall q: nat :: ok(step(q).token)
    decreases end - p
    ensures forall i :: 0 <= i < |Run(step, end, p)| ==> ok(Run(step, end, p)[i])
  {
    var r := step(p);
    var ts := Run(step, end, p);
    if !r.token.kind.EOF? {
      RunAll(step, end, r.pos, ok);
      var rest := Run(step, end, r.pos);
      assert ts == [r.token] + rest;
      forall i | 0 < i < |ts|
        ensures ok(ts[i])
      {
        assert ts[i] == rest[i - 1];
      }
    }
  }

  // ---------------------------------------------------------------------------
  // The loop over `Scan`
  // ---------------------------------------------------------------------------

  /** `Scan` under `cfg` as a step function. */
  function ScanStep(cfg: Config, s: seq<CodeUnit>): nat -> Lexed {
    (q: nat) => Scan(cfg, s, q)
  }

  /** `Scan` never stalls: only a cursor before the end gives a token other than `EOF`, and that token moves the cursor. */
  lemma ScanProgresses(cfg: Config, s: seq<CodeUnit>)
    ensures Progresses(ScanStep(cfg, s), |s|)
  {
    forall q: nat
      ensures !Scan(cfg, s, q).token.kind.EOF? ==> q < |s| && q < Scan(cfg, s, q).pos
    {
    }
  }

  /**
    The tokens `Scan` returns from position `p` on, the `EOF` included, as
    the sample program's loop collects them. The stream is finite because
    `Scan` never stalls; it ends with the `EOF`.
   */
  function Tokenize(cfg: Config, s: seq<CodeUnit>, p: nat): (ts: seq<Token>)
    ensures 1 <= |ts| && ts[|ts| - 1].kind.EOF?
  {
    ScanProgresses(cfg, s);
    Run(ScanStep(cfg, s), |s|, p)
  }

  /**
    The stream has exactly one `EOF`, the last token, and at most as many
    tokens as characters left plus one; at or past the end it is the `EOF`
    alone, at the cursor.
   */
  lemma TokenizeShape(cfg: Config, s: seq<CodeUnit>, p: nat)
    ensures forall i :: 0 <= i < |Tokenize(cfg, s, p)| - 1 ==> !Tokenize(cfg, s, p)[i].kind.EOF?
    ensures p <= |s| ==> |Tokenize(cfg, s, p)| <= |s| - p + 1
    ensures p >= |s| ==> Tokenize(cfg, s, p) == [Make(EOF, Null, p, p)]
  {
    ScanProgresses(cfg, s);
    RunSingleEof(ScanStep(cfg, s), |s|, p);
    RunCount(ScanStep(cfg, s), |s|, p);
    if p >= |s| {
      assert Scan(cfg, s, p) == Lexed(Make(EOF, Null, p, p), p);
    }
  }

  /** Each token `Scan` returns lies between the cursor it was given and the one it returns. */
  lemma ScanWithin(cfg: Config, s: seq<CodeUnit>)
    ensures forall q: nat :: q <= ScanStep(cfg, s)(q).token.start <= ScanStep(cfg, s)(q).token.end <= ScanStep(cfg, s)(q).pos
  {
    forall q: nat
      ensures q <= Scan(cfg, s, q).token.start <= Scan(cfg, s, q).token.end <= Scan(cfg, s, q).pos
    {
    }
  }

  /** The first token starts at or after `p`, and each token ends before the next begins. */
  lemma TokensInOrder(cfg: Config, s: seq<CodeUnit>, p: nat)
    ensures p <= Tokenize(cfg, s, p)[0].start
    ensures forall i :: 0 <= i < |Tokenize(cfg, s, p)| - 1 ==>
      Tokenize(cfg, s, p)[i].end <= Tokenize(cfg, s, p)[i + 1].start
  {
    ScanProgresses(cfg, s);
    ScanWithin(cfg, s);
    RunInOrder(ScanStep(cfg, s), |s|, p);
  }

  /**
    What `Scan` guarantees of each token it returns under `cfg`: the token is
    well formed for the buffer, and it is not a whitespace or comment token
    that the configuration says to ignore.
   */
  ghost predicate Admitted(cfg: Config, s: seq<CodeUnit>, t: Token) {
    && WellFormed(s, t)
    && !(cfg.ignoreWhitespace && t.kind.Whitespace?)
    && !(cfg.ignoreComment && t.kind.Comment?)
  }

  /** Each token `Scan` returns is `Admitted`. */
  lemma ScanAdmitted(cfg: Config, s: seq<CodeUnit>, p: nat)
    ensures Admitted(cfg, s, Scan(cfg, s, p).token)
  {
  }

  /** Every token of the stream is `Admitted`. */
  lemma TokensAdmitted(cfg: Config, s: seq<CodeUnit>, p: nat)
    ensures forall i :: 0 <= i < |Tokenize(cfg, s, p)| ==> Admitted(cfg, s, Tokenize(cfg, s, p)[i])
  {
    ScanProgresses(cfg, s);
    var ok := (t: Token) => Admitted(cfg, s, t);
    forall q: nat
      ensures ok(ScanStep(cfg, s)(q).token)
    {
      ScanAdmitted(cfg, s, q);
    }
    RunAll(ScanStep(cfg, s), |s|, p, ok);
  }

  /** A well-formed token is never an `Extension`, so `Value()` is its stored payload. */
  lemma ValueOfScannedToken(s: seq<CodeUnit>, t: Token)
    requires WellFormed(s, t)
    ensures !NeverEmitted(t.kind) && !t.kind.Extension?
    ensures t.Value() == Some(t.stored)
  {
  }

  /**
    No token of the stream has a kind the scanner never emits, so `Value()`
    of each is its stored payload.
   */
  lemma StreamValues(cfg: Config, s: seq<CodeUnit>, p: nat)
    ensures forall i :: 0 <= i < |Tokenize(cfg, s, p)| ==>
      && !NeverEmitted(Tokenize(cfg, s, p)[i].kind)
      && Tokenize(cfg, s, p)[i].Value() == Some(Tokenize(cfg, s, p)[i].stored)
  {
    var ts := Tokenize(cfg, s, p);
    TokensAdmitted(cfg, s, p);
    forall i | 0 <= i < |ts|
      ensures !NeverEmitted(ts[i].kind) && ts[i].Value() == Some(ts[i].stored)
    {
      ValueOfScannedToken(s, ts[i]);
    }
  }
}
