// The driver's own scanner, which finds statements and transaction control in
// a batch before DuckDB sees it.
module Transactions {
  import opened Text

  // ---- Tokens ----

  datatype TokenKind = Eof | Word | QuotedWord | LeftParen | RightParen | Comma | Semicolon | Other | Skipped

  // text is what stands in a word or between the quotes of a quoted word.
  datatype Token = Token(kind: TokenKind, text: Bytes)

  datatype Turn = Turn(token: Token, length: nat)

  predicate WordStart(c: int) { Letter(c) || c == 95 }

  predicate WordContinue(c: int) { WordStart(c) || Digit(c) || c == 36 }

  function DriverWordLength(r: Bytes): (n: nat)
    ensures n <= |r|
  {
    if r == [] || !WordContinue(r[0]) then 0 else 1 + DriverWordLength(r[1..])
  }

  // Whether the quoted text whose opening quote has been read is closed.
  predicate Closes(r: Bytes, quote: byte)
  {
    r != []
    && (if r[0] == quote then (|r| > 1 && r[1] == quote ==> Closes(r[2..], quote)) else Closes(r[1..], quote))
  }

  lemma {:induction false} ClosedLength(r: Bytes, quote: byte)
    ensures Closes(r, quote) ==> QuotedLength(r, quote, false) > 0
    decreases |r|
  {
    if r != [] {
      if r[0] == quote {
        if |r| > 1 && r[1] == quote {
          ClosedLength(r[2..], quote);
        }
      } else {
        ClosedLength(r[1..], quote);
      }
    }
  }

  function Mark(c: byte): TokenKind
  {
    if c == 40 then LeftParen else if c == 41 then RightParen else if c == 44 then Comma
    else if c == SEMICOLON then Semicolon else Other
  }

  // One turn of pdo_duckdb_sql_next_token: white text or a token.
  function TurnOf(r: Bytes): (t: Turn)
    ensures t.length <= |r| && (t.length > 0 <==> r != []) && (t.token.kind == Eof <==> r == [])
    ensures t.token.kind == Skipped <==> TriviaStep(r) > 0
  {
    if r == [] then Turn(Token(Eof, []), 0)
    else if TriviaStep(r) > 0 then Turn(Token(Skipped, []), TriviaStep(r))
    else if (r[0] == 69 || r[0] == 101) && |r| > 1 && r[1] == QUOTE then
      Turn(Token(Other, []), 2 + QuotedLength(r[2..], QUOTE, true))
    else if r[0] == QUOTE then Turn(Token(Other, []), 1 + QuotedLength(r[1..], QUOTE, false))
    else if r[0] == DOUBLE_QUOTE then
      var n := 1 + QuotedLength(r[1..], DOUBLE_QUOTE, false);
      Turn(if Closes(r[1..], DOUBLE_QUOTE) && n > 1 then Token(QuotedWord, r[1..n - 1]) else Token(Other, []), n)
    else if r[0] == DOLLAR && DollarQuotedLength(r) > 0 then Turn(Token(Other, []), DollarQuotedLength(r))
    else if WordStart(r[0]) then
      var n := 1 + DriverWordLength(r[1..]);
      Turn(Token(Word, r[..n]), n)
    else Turn(Token(Mark(r[0]), []), 1)
  }

  // pdo_duckdb_sql_next_token: the next token and all that was read for it.
  function Next(r: Bytes): (t: Turn)
    ensures t.length <= |r| && (t.token.kind != Eof ==> t.length > 0) && t.token.kind != Skipped
    decreases |r|
  {
    var white := TriviaStep(r);
    if white == 0 then TurnOf(r)
    else
      var u := Next(r[white..]);
      Turn(u.token, white + u.length)
  }

  lemma NextStep(r: Bytes)
    ensures r != [] && TriviaStep(r) == 0 ==> Next(r) == TurnOf(r)
    ensures TriviaStep(r) > 0 ==>
              var rest := r[TriviaStep(r)..];
              Next(r).token == Next(rest).token && r[Next(r).length..] == rest[Next(rest).length..]
  {
  }

  // ---- Keywords ----

  function Upper(c: byte): byte { if 97 <= c <= 122 then c - 32 else c }

  predicate Keyword(text: Bytes, keyword: Bytes)
  {
    |text| == |keyword| && forall i :: 0 <= i < |text| ==> Upper(text[i]) == keyword[i]
  }

  const BEGIN: Bytes := [66, 69, 71, 73, 78]
  const START: Bytes := [83, 84, 65, 82, 84]
  const COMMIT: Bytes := [67, 79, 77, 77, 73, 84]
  const END: Bytes := [69, 78, 68]
  const ROLLBACK: Bytes := [82, 79, 76, 76, 66, 65, 67, 75]
  const ABORT: Bytes := [65, 66, 79, 82, 84]
  const EXPLAIN: Bytes := [69, 88, 80, 76, 65, 73, 78]
  const ANALYZE: Bytes := [65, 78, 65, 76, 89, 90, 69]
  const ANALYSE: Bytes := [65, 78, 65, 76, 89, 83, 69]

  predicate IsKeyword(t: Token, keyword: Bytes, allowQuoted: bool)
  {
    (t.kind == Word || (allowQuoted && t.kind == QuotedWord)) && Keyword(t.text, keyword)
  }

  predicate IsAnalyze(t: Token, allowQuoted: bool)
  {
    IsKeyword(t, ANALYZE, allowQuoted) || IsKeyword(t, ANALYSE, allowQuoted)
  }

  datatype Effect = NoEffect | Opens | Ends

  function EffectOf(t: Token): Effect
  {
    if IsKeyword(t, BEGIN, false) || IsKeyword(t, START, false) then Opens
    else if IsKeyword(t, COMMIT, false) || IsKeyword(t, END, false) || IsKeyword(t, ROLLBACK, false)
            || IsKeyword(t, ABORT, false) then Ends
    else NoEffect
  }

  // All tokens of a text, without the end.
  function TokensOf(r: Bytes): seq<Token>
    decreases |r|
  {
    var t := Next(r);
    if t.token.kind == Eof then [] else [t.token] + TokensOf(r[t.length..])
  }

  // ---- Statements ----

  function First(ts: seq<Token>): Token { if ts == [] then Token(Eof, []) else ts[0] }

  function Rest(ts: seq<Token>): (rest: seq<Token>)
    ensures ts != [] ==> |rest| < |ts|
    ensures |rest| <= |ts|
  {
    if ts == [] then [] else ts[1..]
  }

  // What scanning EXPLAIN's front comes to: the first token of the explained
  // statement, whether it is run (ANALYZE), and the tokens that are left.
  datatype Scanned = Scanned(broke: bool, token: Token, analyze: bool, rest: seq<Token>)

  // Inside the parentheses of EXPLAIN: how deep, whether an option begins here,
  // and whether one so far asked for ANALYZE.
  datatype OptionState = OptionState(depth: nat, optionStart: bool, analyze: bool)

  function AfterOption(o: OptionState, t: Token): OptionState
    requires o.depth > 0
  {
    if t.kind == LeftParen then o.(depth := o.depth + 1)
    else if t.kind == RightParen then o.(depth := o.depth - 1)
    else if o.depth == 1 && t.kind == Comma then o.(optionStart := true)
    else if o.depth == 1 && o.optionStart then OptionState(1, false, o.analyze || IsAnalyze(t, true))
    else o
  }

  // The options in parentheses; an end or a semicolon breaks them off.
  function Options(ts: seq<Token>, o: OptionState): (s: Scanned)
    ensures |s.rest| <= |ts|
    decreases |ts|
  {
    var t := First(ts);
    if o.depth == 0 then Scanned(false, Token(Eof, []), o.analyze, ts)
    else if ts == [] || t.kind == Eof || t.kind == Semicolon then Scanned(true, t, o.analyze, Rest(ts))
    else Options(Rest(ts), AfterOption(o, t))
  }

  // pdo_duckdb_sql_scan_explain; the token may be the semicolon that ends an
  // empty EXPLAIN, which is read all the same.
  function Explained(ts: seq<Token>): (s: Scanned)
    ensures |s.rest| <= |ts|
  {
    var analyze := IsAnalyze(First(ts), false);
    var us := if analyze then Rest(ts) else ts;
    if First(us).kind != LeftParen then Scanned(false, First(us), analyze, Rest(us))
    else
      var o := Options(Rest(us), OptionState(1, true, analyze));
      if o.broke then o else Scanned(false, First(o.rest), o.analyze, Rest(o.rest))
  }

  // pdo_duckdb_sql_skip_statement: what is left after the semicolon outside
  // parentheses.
  function Skip(ts: seq<Token>, depth: nat): (rest: seq<Token>)
    ensures |rest| <= |ts|
    decreases |ts|
  {
    var t := First(ts);
    if ts == [] || t.kind == Eof then Rest(ts)
    else if t.kind == Semicolon && depth == 0 then Rest(ts)
    else Skip(Rest(ts), if t.kind == LeftParen then depth + 1 else if t.kind == RightParen && depth > 0 then depth - 1 else depth)
  }

  datatype Statement = Statement(effect: Effect, explained: bool)

  function Depth(t: Token): nat { if t.kind == LeftParen then 1 else 0 }

  // The statement that begins with the token first, and what follows it.
  function StatementAt(first: Token, ts: seq<Token>): (p: (Statement, seq<Token>))
    ensures |p.1| <= |ts|
  {
    if EffectOf(first) != NoEffect then (Statement(EffectOf(first), false), Skip(ts, Depth(first)))
    else if IsKeyword(first, EXPLAIN, false) then
      var s := Explained(ts);
      (Statement(if s.analyze then EffectOf(s.token) else NoEffect, true), Skip(s.rest, Depth(s.token)))
    else (Statement(NoEffect, false), Skip(ts, Depth(first)))
  }

  // The statements of a batch.
  function StatementsOf(ts: seq<Token>): seq<Statement>
    decreases |ts|
  {
    if ts == [] then []
    else if ts[0].kind == Semicolon then StatementsOf(ts[1..])
    else
      var (s, rest) := StatementAt(ts[0], ts[1..]);
      [s] + StatementsOf(rest)
  }

  // The effect of the first statement alone, with no look at the others.
  function FirstEffect(ts: seq<Token>): Effect
    decreases |ts|
  {
    var t := First(ts);
    if ts != [] && t.kind == Semicolon then FirstEffect(Rest(ts))
    else if EffectOf(t) != NoEffect then EffectOf(t)
    else if IsKeyword(t, EXPLAIN, false) && Explained(Rest(ts)).analyze then EffectOf(Explained(Rest(ts)).token)
    else NoEffect
  }

  lemma {:induction false} FirstEffectIsFirst(ts: seq<Token>)
    ensures FirstEffect(ts) == if StatementsOf(ts) == [] then NoEffect else StatementsOf(ts)[0].effect
    decreases |ts|
  {
    if ts != [] && ts[0].kind == Semicolon {
      FirstEffectIsFirst(ts[1..]);
    }
  }

  // ---- A batch of one statement is seen without scanning ----

  // No byte of r ends a second statement's doubt: only blanks and semicolons.
  predicate OnlyBlanks(r: Bytes)
    decreases |r|
  {
    var space := UnicodeSpaceLength(r);
    r == []
    || (if space > 0 then OnlyBlanks(r[space..])
        else (r[0] == SEMICOLON || Blank(r[0])) && OnlyBlanks(r[1..]))
  }

  function AfterSemicolon(r: Bytes): (n: nat)
    ensures n <= |r|
  {
    if r == [] then 0 else if r[0] == SEMICOLON then 1 else 1 + AfterSemicolon(r[1..])
  }

  // pdo_duckdb_sql_may_have_multiple_statements
  predicate MayHaveMultiple(r: Bytes) { SEMICOLON in r && !OnlyBlanks(r[AfterSemicolon(r)..]) }

  lemma BlankStep(r: Bytes)
    requires OnlyBlanks(r) && r != []
    ensures TriviaStep(r) > 0 ==> OnlyBlanks(r[TriviaStep(r)..])
    ensures TriviaStep(r) == 0 ==> TurnOf(r) == Turn(Token(Semicolon, []), 1) && OnlyBlanks(r[1..])
  {
  }

  lemma {:induction false} BlankNext(r: Bytes)
    requires OnlyBlanks(r)
    ensures Next(r).token.kind == Eof || Next(r).token.kind == Semicolon
    ensures OnlyBlanks(r[Next(r).length..])
    decreases |r|
  {
    if r != [] {
      BlankStep(r);
      NextStep(r);
      if TriviaStep(r) > 0 {
        BlankNext(r[TriviaStep(r)..]);
      }
    }
  }

  // Every semicolon in blank text begins blank text again: a Unicode space
  // holds no byte of ASCII, so the two readings keep in step.
  lemma {:induction false} BlanksAfterSemicolon(r: Bytes, k: nat)
    requires OnlyBlanks(r) && k < |r| && r[k] == SEMICOLON
    ensures OnlyBlanks(r[k + 1..])
    decreases |r|
  {
    var space := UnicodeSpaceLength(r);
    var n := if space > 0 then space else 1;
    if k >= n {
      BlanksAfterSemicolon(r[n..], k - n);
      assert r[n..][k - n + 1..] == r[k + 1..];
    }
  }

  // After any semicolon of a text that may not hold several statements there
  // is nothing more.
  lemma BlankTail(r: Bytes, k: nat)
    requires !MayHaveMultiple(r) && k < |r| && r[k] == SEMICOLON
    ensures OnlyBlanks(r[k + 1..])
  {
    var first := AfterSemicolon(r);
    FirstSemicolon(r, k);
    if first <= k {
      BlanksAfterSemicolon(r[first..], k - first);
      assert r[first..][k - first + 1..] == r[k + 1..];
    }
  }

  lemma {:induction false} FirstSemicolon(r: Bytes, k: nat)
    requires k < |r| && r[k] == SEMICOLON
    ensures AfterSemicolon(r) <= k + 1 && SEMICOLON in r
  {
    if r[0] != SEMICOLON {
      FirstSemicolon(r[1..], k - 1);
    }
  }

  // A semicolon token is a semicolon byte, the last byte read for it.
  lemma {:induction false} SemicolonRead(r: Bytes)
    requires Next(r).token.kind == Semicolon
    ensures var n := Next(r).length; n > 0 && r[n - 1] == SEMICOLON
    decreases |r|
  {
    var t := TurnOf(r);
    if t.token.kind == Skipped {
      SemicolonRead(r[t.length..]);
    }
  }

  lemma BlankTurn(r: Bytes, t: Turn, rest: Bytes)
    requires OnlyBlanks(r) && t == Next(r) && rest == r[t.length..]
    ensures t.token.kind == Eof ==> TokensOf(r) == []
    ensures t.token.kind != Eof ==>
              && t.token.kind == Semicolon && OnlyBlanks(rest) && |rest| < |r| && TokensOf(r) == [t.token] + TokensOf(rest)
  {
    BlankNext(r);
  }

  // Blank text holds no token but semicolons.
  lemma {:induction false} BlankTokens(r: Bytes)
    requires OnlyBlanks(r)
    ensures AllSemicolons(TokensOf(r))
    decreases |r|
  {
    var t := Next(r);
    var rest := r[t.length..];
    BlankTurn(r, t, rest);
    if t.token.kind == Semicolon {
      BlankTokens(rest);
    }
  }

  predicate AllSemicolons(ts: seq<Token>) { forall i :: 0 <= i < |ts| ==> ts[i].kind == Semicolon }

  // Once a semicolon has been read, nothing but semicolons follows.
  ghost predicate OneStatement(ts: seq<Token>)
  {
    forall i :: 0 <= i < |ts| && ts[i].kind == Semicolon ==> AllSemicolons(ts[i..])
  }

  // What follows the first semicolon token of such a text is semicolons.
  lemma SemicolonsFollow(sql: Bytes, k: nat, r: Bytes, n: nat)
    requires !MayHaveMultiple(sql) && k <= |sql| && r == sql[k..] && 0 < n <= |r| && r[n - 1] == SEMICOLON
    ensures AllSemicolons(TokensOf(r[n..]))
  {
    assert r[n - 1] == sql[k + n - 1] && r[n..] == sql[k + n - 1 + 1..];
    BlankTail(sql, k + n - 1);
    BlankTokens(r[n..]);
  }

  // A text that may not hold several statements holds at most one.
  lemma {:induction false} TokensOfOne(sql: Bytes, k: nat, r: Bytes)
    requires !MayHaveMultiple(sql) && k <= |sql| && r == sql[k..]
    ensures OneStatement(TokensOf(r))
    decreases |r|
  {
    var t := Next(r);
    if t.token.kind != Eof {
      var rest := r[t.length..];
      assert rest == sql[k + t.length..];
      TokensOfOne(sql, k + t.length, rest);
      if t.token.kind == Semicolon {
        SemicolonRead(r);
        SemicolonsFollow(sql, k, r, t.length);
      }
      OneMore(t.token, TokensOf(rest));
    }
  }

  lemma OneMore(t: Token, ts: seq<Token>)
    requires OneStatement(ts) && (t.kind == Semicolon ==> AllSemicolons(ts))
    ensures OneStatement([t] + ts)
  {
    var all := [t] + ts;
    forall i | 0 <= i < |all| && all[i].kind == Semicolon
      ensures AllSemicolons(all[i..])
    {
      if i > 0 {
        assert all[i..] == ts[i - 1..] && ts[i - 1].kind == Semicolon;
      }
    }
  }

  // What is left of ts is a suffix of it, behind a semicolon or at the end.
  ghost predicate Behind(ts: seq<Token>, rest: seq<Token>)
  {
    |rest| <= |ts| && rest == ts[|ts| - |rest|..] && (rest != [] ==> |rest| < |ts| && ts[|ts| - |rest| - 1].kind == Semicolon)
  }

  lemma {:induction false} SkipBehind(ts: seq<Token>, depth: nat)
    requires forall i :: 0 <= i < |ts| ==> ts[i].kind != Eof
    ensures Behind(ts, Skip(ts, depth))
    decreases |ts|
  {
    if ts != [] {
      var t := ts[0];
      if !(t.kind == Semicolon && depth == 0) {
        var d := if t.kind == LeftParen then depth + 1 else if t.kind == RightParen && depth > 0 then depth - 1 else depth;
        SkipBehind(ts[1..], d);
      }
    }
  }

  lemma {:induction false} OptionsSuffix(ts: seq<Token>, o: OptionState)
    ensures var rest := Options(ts, o).rest; rest == ts[|ts| - |rest|..]
    decreases |ts|
  {
    var t := First(ts);
    if o.depth > 0 && ts != [] && t.kind != Eof && t.kind != Semicolon {
      OptionsSuffix(ts[1..], AfterOption(o, t));
    }
  }

  lemma ExplainedSuffix(ts: seq<Token>)
    ensures var rest := Explained(ts).rest; rest == ts[|ts| - |rest|..]
  {
    var analyze := IsAnalyze(First(ts), false);
    var us := if analyze then Rest(ts) else ts;
    OptionsSuffix(Rest(us), OptionState(1, true, analyze));
  }

  lemma StatementBehind(first: Token, ts: seq<Token>)
    requires forall i :: 0 <= i < |ts| ==> ts[i].kind != Eof
    ensures Behind(ts, StatementAt(first, ts).1)
  {
    if EffectOf(first) == NoEffect && IsKeyword(first, EXPLAIN, false) {
      var s := Explained(ts);
      ExplainedSuffix(ts);
      SkipBehind(s.rest, Depth(s.token));
    } else {
      SkipBehind(ts, Depth(first));
    }
  }

  lemma {:induction false} SemicolonsHoldNothing(ts: seq<Token>)
    requires AllSemicolons(ts)
    ensures StatementsOf(ts) == []
  {
    if ts != [] {
      SemicolonsHoldNothing(ts[1..]);
    }
  }

  lemma AtMostOne(ts: seq<Token>)
    requires OneStatement(ts) && forall i :: 0 <= i < |ts| ==> ts[i].kind != Eof
    ensures |StatementsOf(ts)| <= 1
  {
    if ts == [] {
    } else if ts[0].kind == Semicolon {
      assert ts[0..] == ts;
      SemicolonsHoldNothing(ts);
    } else {
      var rest := StatementAt(ts[0], ts[1..]).1;
      StatementBehind(ts[0], ts[1..]);
      if rest != [] {
        var k := |ts| - |rest|;
        assert ts[k - 1] == ts[1..][|ts[1..]| - |rest| - 1];
        assert AllSemicolons(ts[k - 1..]);
        assert forall i :: 0 <= i < |rest| ==> rest[i] == ts[k - 1..][i + 1];
      }
      SemicolonsHoldNothing(rest);
    }
  }

  lemma {:induction false} NoEndInside(r: Bytes)
    ensures forall i :: 0 <= i < |TokensOf(r)| ==> TokensOf(r)[i].kind != Eof
    decreases |r|
  {
    var t := Next(r);
    if t.token.kind != Eof {
      NoEndInside(r[t.length..]);
    }
  }

  // A batch in which scanning finds two statements is never taken for one.
  lemma ManyAreNoticed(sql: Bytes)
    requires |StatementsOf(TokensOf(sql))| >= 2
    ensures MayHaveMultiple(sql)
  {
    if !MayHaveMultiple(sql) {
      assert sql[0..] == sql;
      TokensOfOne(sql, 0, sql);
      NoEndInside(sql);
      AtMostOne(TokensOf(sql));
    }
  }

  // ---- The connection's transaction flag ----

  // pdo_duckdb_apply_transaction_effect
  function Applied(inTransaction: bool, e: Effect): bool
  {
    if e == Opens then true else if e == Ends then false else inTransaction
  }

  // What applying every effect of a run of statements leaves.
  function FoldEffects(inTransaction: bool, effects: seq<Effect>): bool
    decreases |effects|
  {
    if effects == [] then inTransaction else FoldEffects(Applied(inTransaction, effects[0]), effects[1..])
  }

  // The last effect of a run that is one.
  function LastEffect(effects: seq<Effect>): Effect
  {
    if effects == [] then NoEffect
    else if effects[|effects| - 1] != NoEffect then effects[|effects| - 1]
    else LastEffect(effects[..|effects| - 1])
  }

  lemma {:induction false} FoldAppend(inTransaction: bool, effects: seq<Effect>, e: Effect)
    ensures FoldEffects(inTransaction, effects + [e]) == Applied(FoldEffects(inTransaction, effects), e)
    decreases |effects|
  {
    if effects == [] {
      assert [] + [e] == [e];
    } else {
      assert (effects + [e])[1..] == effects[1..] + [e];
      FoldAppend(Applied(inTransaction, effects[0]), effects[1..], e);
    }
  }

  // The bridge reports only the last effect; applying it is applying them all.
  lemma {:induction false} LastEffectSuffices(inTransaction: bool, effects: seq<Effect>)
    ensures Applied(inTransaction, LastEffect(effects)) == FoldEffects(inTransaction, effects)
    decreases |effects|
  {
    if effects != [] {
      var init, last := effects[..|effects| - 1], effects[|effects| - 1];
      assert effects == init + [last];
      FoldAppend(inTransaction, init, last);
      LastEffectSuffices(inTransaction, init);
    }
  }

  datatype Outcome = Completed | NotEntered | NotPrepared | NotExecuted

  // How far a batch gets: through its first failing statement, exclusive.
  function CompletedCount(outcomes: seq<Outcome>): (n: nat)
    ensures n <= |outcomes| && (n < |outcomes| ==> outcomes[n] != Completed)
    ensures forall i :: 0 <= i < n ==> outcomes[i] == Completed
  {
    if outcomes == [] || outcomes[0] != Completed then 0 else 1 + CompletedCount(outcomes[1..])
  }

  // pdo_duckdb_exec_transaction_multi: each effect as its statement completes.
  method ExecuteEach(effects: seq<Effect>, outcomes: seq<Outcome>, inTransaction: bool) returns (ok: bool, after: bool)
    requires |effects| == |outcomes|
    ensures ok == (CompletedCount(outcomes) == |outcomes|)
    ensures after == FoldEffects(inTransaction, effects[..CompletedCount(outcomes)])
  {
    after := inTransaction;
    var i := 0;
    while i < |outcomes|
      invariant 0 <= i <= |outcomes|
      invariant i + CompletedCount(outcomes[i..]) == CompletedCount(outcomes)
      invariant after == FoldEffects(inTransaction, effects[..i])
    {
      if outcomes[i] != Completed {
        return false, after;
      }
      assert effects[..i + 1] == effects[..i] + [effects[i]];
      FoldAppend(inTransaction, effects[..i], effects[i]);
      after := Applied(after, effects[i]);
      i := i + 1;
    }
    ok := true;
    assert outcomes[i..] == [];
  }

  // pdd_bridge_exec_batch and pdo_duckdb_exec_bridge_locked: only the last
  // effect is kept while statements complete, and it is applied at the end.
  method ExecuteBatch(effects: seq<Effect>, outcomes: seq<Outcome>, inTransaction: bool) returns (ok: bool, after: bool)
    requires |effects| == |outcomes|
    ensures ok == (CompletedCount(outcomes) == |outcomes|)
    ensures after == FoldEffects(inTransaction, effects[..CompletedCount(outcomes)])
  {
    var last := NoEffect;
    var i := 0;
    ok := true;
    while i < |outcomes| && ok
      invariant 0 <= i <= |outcomes|
      invariant ok ==> i + CompletedCount(outcomes[i..]) == CompletedCount(outcomes)
      invariant !ok ==> i == CompletedCount(outcomes) < |outcomes|
      invariant last == LastEffect(effects[..i])
      decreases |outcomes| - i, ok
    {
      if outcomes[i] != Completed {
        ok := false;
      } else {
        assert effects[..i + 1][..i] == effects[..i];
        if effects[i] != NoEffect {
          last := effects[i];
        }
        i := i + 1;
      }
    }
    LastEffectSuffices(inTransaction, effects[..i]);
    after := Applied(inTransaction, last);
  }
}
