// The loops of the driver's scanner: an object whose position they advance.
module TransactionScan {
  import opened Text
  import opened Transactions

  lemma BlockStep(r: Bytes, depth: nat)
    requires r != [] && depth > 0
    ensures var n := if OpensComment(r) || ClosesComment(r) then 2 else 1;
            var d := if OpensComment(r) then depth + 1 else if ClosesComment(r) then depth - 1 else depth;
            r[BlockLength(r, depth)..] == r[n..][BlockLength(r[n..], d)..]
  {
  }

  class Scanner {
    const sql: Bytes
    var pos: nat
    ghost var rest: Bytes

    constructor (sql: Bytes)
      ensures Valid() && this.sql == sql && rest == sql
    {
      this.sql, pos, rest := sql, 0, sql;
    }

    // rest is what is still to be read.
    ghost predicate Valid()
      reads this
    {
      pos <= |sql| && rest == sql[pos..]
    }

    method Advance(n: nat)
      requires Valid() && n <= |rest|
      modifies this
      ensures Valid() && rest == old(rest)[n..] && pos == old(pos) + n
    {
      pos := pos + n;
      rest := rest[n..];
    }

    method SkipLine()
      requires Valid()
      modifies this
      ensures Valid() && rest == old(rest)[LineLength(old(rest))..]
    {
      while pos < |sql| && sql[pos] != 10 && sql[pos] != 13
        invariant Valid() && rest[LineLength(rest)..] == old(rest)[LineLength(old(rest))..]
      {
        Advance(1);
      }
    }

    method SkipBlock()
      requires Valid()
      modifies this
      ensures Valid() && rest == old(rest)[BlockLength(old(rest), 1)..]
    {
      var depth: nat := 1;
      while pos < |sql| && depth > 0
        invariant Valid() && rest[BlockLength(rest, depth)..] == old(rest)[BlockLength(old(rest), 1)..]
        decreases |sql| - pos
      {
        var n: nat := 1;
        BlockStep(rest, depth);
        if pos + 1 < |sql| && sql[pos] == 47 && sql[pos + 1] == 42 {
          depth := depth + 1;
          n := 2;
        } else if pos + 1 < |sql| && sql[pos] == 42 && sql[pos + 1] == 47 {
          depth := depth - 1;
          n := 2;
        }
        Advance(n);
      }
    }

    // pdo_duckdb_sql_skip_quoted, past the opening quote.
    method SkipQuoted(quote: byte, escapes: bool)
      requires Valid()
      modifies this
      ensures Valid() && rest == old(rest)[QuotedLength(old(rest), quote, escapes)..]
    {
      while pos < |sql|
        invariant Valid() && rest[QuotedLength(rest, quote, escapes)..] == old(rest)[QuotedLength(old(rest), quote, escapes)..]
        decreases |sql| - pos
      {
        var c := sql[pos];
        if escapes && c == BACKSLASH && pos + 1 < |sql| {
          Advance(2);
        } else if c == quote {
          if pos + 1 < |sql| && sql[pos + 1] == quote {
            Advance(2);
          } else {
            Advance(1);
            return;
          }
        } else {
          Advance(1);
        }
      }
    }

    // A quoted word; unlike a string it is told apart from an unclosed one.
    method SkipQuotedWord() returns (closed: bool)
      requires Valid()
      modifies this
      ensures Valid() && rest == old(rest)[QuotedLength(old(rest), DOUBLE_QUOTE, false)..]
      ensures closed == Closes(old(rest), DOUBLE_QUOTE)
    {
      while pos < |sql|
        invariant Valid()
        invariant rest[QuotedLength(rest, DOUBLE_QUOTE, false)..]
               == old(rest)[QuotedLength(old(rest), DOUBLE_QUOTE, false)..]
        invariant Closes(rest, DOUBLE_QUOTE) == Closes(old(rest), DOUBLE_QUOTE)
        decreases |sql| - pos
      {
        if sql[pos] == DOUBLE_QUOTE {
          if pos + 1 < |sql| && sql[pos + 1] == DOUBLE_QUOTE {
            Advance(2);
          } else {
            Advance(1);
            return true;
          }
        } else {
          Advance(1);
        }
      }
      return false;
    }

    // The length of the $tag$ here, or 0.
    method TagLengthHere() returns (length: nat)
      requires Valid() && pos < |sql| && sql[pos] == DOLLAR
      ensures length == DelimiterLength(rest)
    {
      var end := pos + 1;
      while end < |sql| && (IdentifierStart(sql[end]) || (end > pos + 1 && Digit(sql[end])))
        invariant pos < end <= |sql|
        invariant end > pos + 1 ==> IdentifierStart(sql[pos + 1])
        invariant end > pos + 1 ==> end + TagLength(sql[end..]) == pos + 2 + TagLength(sql[pos + 2..])
      {
        end := end + 1;
      }
      assert |sql| > pos + 1 ==> rest[2..] == sql[pos + 2..];
      if end >= |sql| || sql[end] != DOLLAR {
        return 0;
      }
      return end + 1 - pos;
    }

    method FindMark(mark: Bytes)
      requires Valid() && 0 < |mark| <= |sql|
      modifies this
      ensures Valid() && rest == old(rest)[FindLength(old(rest), mark)..]
    {
      while pos <= |sql| - |mark|
        invariant Valid() && rest[FindLength(rest, mark)..] == old(rest)[FindLength(old(rest), mark)..]
      {
        assert rest[..|mark|] == sql[pos..pos + |mark|];
        if sql[pos..pos + |mark|] == mark {
          Advance(|mark|);
          return;
        }
        Advance(1);
      }
      Advance(|sql| - pos);
    }

    // pdo_duckdb_sql_skip_dollar_quote
    method SkipDollarQuote() returns (skipped: bool)
      requires Valid() && pos < |sql| && sql[pos] == DOLLAR
      modifies this
      ensures Valid() && skipped == (DollarQuotedLength(old(rest)) > 0)
      ensures rest == old(rest)[DollarQuotedLength(old(rest))..] && (!skipped ==> pos == old(pos))
    {
      var length := TagLengthHere();
      if length == 0 {
        return false;
      }
      var mark := sql[pos..pos + length];
      assert rest[..length] == mark;
      Advance(length);
      FindMark(mark);
      return true;
    }

    method SkipWord()
      requires Valid()
      modifies this
      ensures Valid() && rest == old(rest)[DriverWordLength(old(rest))..]
    {
      while pos < |sql| && WordContinue(sql[pos])
        invariant Valid() && rest[DriverWordLength(rest)..] == old(rest)[DriverWordLength(old(rest))..]
      {
        Advance(1);
      }
    }

    method SkipWhite() returns (skipped: bool)
      requires Valid() && pos < |sql|
      modifies this
      ensures Valid() && rest == old(rest)[TriviaStep(old(rest))..] && skipped == (TriviaStep(old(rest)) > 0)
    {
      var c := sql[pos];
      var space := UnicodeSpaceLength(sql[pos..]);
      skipped := true;
      if Blank(c) {
        Advance(1);
      } else if space > 0 {
        Advance(space);
      } else if c == 45 && pos + 1 < |sql| && sql[pos + 1] == 45 {
        Advance(2);
        SkipLine();
      } else if c == 47 && pos + 1 < |sql| && sql[pos + 1] == 42 {
        Advance(2);
        SkipBlock();
      } else {
        skipped := false;
      }
    }

    // A quoted word, or what an unclosed one leaves.
    method ReadQuotedWord() returns (token: Token)
      requires Valid() && pos < |sql| && sql[pos] == DOUBLE_QUOTE
      modifies this
      ensures Valid() && token == TurnOf(old(rest)).token && rest == old(rest)[TurnOf(old(rest)).length..]
    {
      ghost var r := rest;
      var start := pos;
      Advance(1);
      var closed := SkipQuotedWord();
      ClosedLength(r[1..], DOUBLE_QUOTE);
      assert |r| - |rest| == pos - start == TurnOf(r).length;
      assert closed ==> r[1..pos - start - 1] == sql[start + 1..pos - 1];
      return if closed then Token(QuotedWord, sql[start + 1..pos - 1]) else Token(Other, []);
    }

    method ReadWord() returns (token: Token)
      requires Valid() && pos < |sql| && WordStart(sql[pos])
      modifies this
      ensures var n := 1 + DriverWordLength(old(rest)[1..]);
              Valid() && token == Token(Word, old(rest)[..n]) && rest == old(rest)[n..]
    {
      ghost var r := rest;
      var start := pos;
      Advance(1);
      SkipWord();
      assert |r| - |rest| == pos - start;
      assert r[..pos - start] == sql[start..pos];
      return Token(Word, sql[start..pos]);
    }

    // A token, at a place where nothing white stands.
    method ReadToken() returns (token: Token)
      requires Valid() && pos < |sql| && TriviaStep(rest) == 0
      modifies this
      ensures Valid() && token == TurnOf(old(rest)).token && rest == old(rest)[TurnOf(old(rest)).length..]
    {
      var c := sql[pos];
      token := Token(Other, []);
      if (c == 69 || c == 101) && pos + 1 < |sql| && sql[pos + 1] == QUOTE {
        Advance(2);
        SkipQuoted(QUOTE, true);
        return;
      }
      if c == QUOTE {
        Advance(1);
        SkipQuoted(c, false);
        return;
      }
      if c == DOUBLE_QUOTE {
        token := ReadQuotedWord();
        return;
      }
      if c == DOLLAR {
        var skipped := SkipDollarQuote();
        if skipped {
          return;
        }
      }
      if WordStart(c) {
        token := ReadWord();
        return;
      }
      Advance(1);
      return Token(Mark(c), []);
    }

    // pdo_duckdb_sql_next_token
    method ReadNext() returns (token: Token)
      requires Valid()
      modifies this
      ensures Valid() && token == Next(old(rest)).token && rest == old(rest)[Next(old(rest)).length..]
    {
      while pos < |sql|
        invariant Valid()
        invariant Next(rest).token == Next(old(rest)).token
        invariant rest[Next(rest).length..] == old(rest)[Next(old(rest)).length..]
        decreases |sql| - pos
      {
        NextStep(rest);
        var skipped := SkipWhite();
        if !skipped {
          token := ReadToken();
          return;
        }
      }
      return Token(Eof, []);
    }
  }

  lemma TokensStep(r: Bytes)
    ensures First(TokensOf(r)) == (if Next(r).token.kind == Eof then Token(Eof, []) else Next(r).token)
    ensures TokensOf(r[Next(r).length..]) == Rest(TokensOf(r))
    ensures Next(r).token.kind == Eof ==> Next(r).token == Token(Eof, [])
  {
    EofRead(r);
  }

  lemma {:induction false} EofRead(r: Bytes)
    ensures Next(r).token.kind == Eof ==> r[Next(r).length..] == [] && Next(r).token == Token(Eof, [])
    decreases |r|
  {
    if TriviaStep(r) > 0 {
      EofRead(r[TriviaStep(r)..]);
      NextStep(r);
    }
  }

  // The scanner seen as the tokens it has still to give.
  class Tokenizer {
    const scanner: Scanner
    ghost var left: seq<Token>

    constructor (sql: Bytes)
      ensures Valid() && left == TokensOf(sql) && fresh(scanner)
    {
      scanner := new Scanner(sql);
      left := TokensOf(sql);
    }

    ghost predicate Valid()
      reads this, scanner
    {
      scanner.Valid() && left == TokensOf(scanner.rest)
    }

    method NextToken() returns (token: Token)
      requires Valid()
      modifies this, scanner
      ensures Valid() && token == First(old(left)) && left == Rest(old(left))
    {
      TokensStep(scanner.rest);
      token := scanner.ReadNext();
      left := Rest(left);
    }

    // The parenthesized options of EXPLAIN.
    method ScanOptions(analyze: bool) returns (s: Scanned)
      requires Valid()
      modifies this, scanner
      ensures Valid() && s.(rest := left) == Options(old(left), OptionState(1, true, analyze))
    {
      var o := OptionState(1, true, analyze);
      while o.depth > 0
        invariant Valid() && Options(left, o) == Options(old(left), OptionState(1, true, analyze))
        decreases |left|, o.depth
      {
        var token := NextToken();
        if token.kind == Eof || token.kind == Semicolon {
          return Scanned(true, token, o.analyze, []);
        }
        o := AfterOption(o, token);
      }
      return Scanned(false, Token(Eof, []), o.analyze, []);
    }

    // pdo_duckdb_sql_scan_explain
    method ScanExplain() returns (s: Scanned)
      requires Valid()
      modifies this, scanner
      ensures Valid() && s.(rest := left) == Explained(old(left))
    {
      var token := NextToken();
      var analyze := IsAnalyze(token, false);
      if analyze {
        token := NextToken();
      }
      if token.kind == LeftParen {
        var options := ScanOptions(analyze);
        if options.broke {
          return options;
        }
        analyze := options.analyze;
        token := NextToken();
      }
      return Scanned(false, token, analyze, []);
    }

    // pdo_duckdb_sql_skip_statement
    method SkipStatement(depth0: nat)
      requires Valid()
      modifies this, scanner
      ensures Valid() && left == Skip(old(left), depth0)
    {
      var depth := depth0;
      var more := true;
      while more
        invariant Valid() && (more ==> Skip(left, depth) == Skip(old(left), depth0))
        invariant !more ==> left == Skip(old(left), depth0)
        decreases |left|, more
      {
        var token := NextToken();
        if token.kind == Eof {
          more := false;
        } else if token.kind == LeftParen {
          depth := depth + 1;
        } else if token.kind == RightParen {
          if depth > 0 {
            depth := depth - 1;
          }
        } else if token.kind == Semicolon && depth == 0 {
          more := false;
        }
      }
    }

    // The statement that begins with the token first.
    method ScanStatement(first: Token) returns (s: Statement)
      requires Valid()
      modifies this, scanner
      ensures Valid() && (s, left) == StatementAt(first, old(left))
    {
      var effect := EffectOf(first);
      var depth := Depth(first);
      var explained := false;
      if effect == NoEffect && IsKeyword(first, EXPLAIN, false) {
        explained := true;
        var wrapped := ScanExplain();
        if wrapped.analyze {
          effect := EffectOf(wrapped.token);
        }
        depth := Depth(wrapped.token);
      }
      SkipStatement(depth);
      return Statement(effect, explained);
    }

    // The next statement, past semicolons that stand alone.
    method NextStatement() returns (found: bool, s: Statement)
      requires Valid()
      modifies this, scanner
      ensures Valid() && |left| <= |old(left)|
      ensures found == (StatementsOf(old(left)) != [])
      ensures found ==> s == StatementsOf(old(left))[0] && StatementsOf(left) == StatementsOf(old(left))[1..]
      ensures found ==> |left| < |old(left)|
    {
      ghost var ts := left;
      NoEndInside(scanner.rest);
      var first := NextToken();
      while first.kind == Semicolon
        invariant Valid() && first == First(ts) && left == Rest(ts) && StatementsOf(ts) == StatementsOf(old(left))
        invariant |ts| <= |old(left)| && (ts != [] ==> ts[0].kind != Eof)
        decreases |ts|
      {
        ts := left;
        NoEndInside(scanner.rest);
        first := NextToken();
      }
      if first.kind == Eof {
        return false, Statement(NoEffect, false);
      }
      s := ScanStatement(first);
      found := true;
    }
  }

  // pdo_duckdb_sql_first_transaction_effect
  method FirstTransactionEffect(sql: Bytes) returns (effect: Effect)
    ensures effect == FirstEffect(TokensOf(sql))
  {
    var tokens := new Tokenizer(sql);
    ghost var ts := tokens.left;
    var first := tokens.NextToken();
    while first.kind == Semicolon
      invariant tokens.Valid() && fresh(tokens) && fresh(tokens.scanner)
      invariant first == First(ts) && tokens.left == Rest(ts) && FirstEffect(ts) == FirstEffect(TokensOf(sql))
      decreases |ts|
    {
      ts := tokens.left;
      first := tokens.NextToken();
    }
    effect := EffectOf(first);
    if effect == NoEffect && IsKeyword(first, EXPLAIN, false) {
      var wrapped := tokens.ScanExplain();
      if wrapped.analyze {
        effect := EffectOf(wrapped.token);
      }
    }
  }

  datatype Flags = Flags(direct: bool, explainAnalyze: bool, multiple: bool)

  // One statement's share in the flags.
  function WithStatement(flags: Flags, count: nat, s: Statement): Flags
  {
    Flags(flags.direct || (!s.explained && s.effect != NoEffect),
          flags.explainAnalyze || (s.explained && s.effect != NoEffect),
          flags.multiple || count > 1)
  }

  function FlagsOf(statements: seq<Statement>): Flags
  {
    if statements == [] then Flags(false, false, false)
    else WithStatement(FlagsOf(statements[..|statements| - 1]), |statements|, statements[|statements| - 1])
  }

  // Each flag says whether there is a statement of its kind.
  lemma {:induction false} FlagsMean(statements: seq<Statement>)
    ensures var f := FlagsOf(statements);
            && (f.direct <==> exists i :: 0 <= i < |statements| && !statements[i].explained && statements[i].effect != NoEffect)
            && (f.explainAnalyze <==> exists i :: 0 <= i < |statements| && statements[i].explained && statements[i].effect != NoEffect)
            && (f.multiple <==> |statements| > 1)
  {
    if statements != [] {
      var init := statements[..|statements| - 1];
      FlagsMean(init);
      assert forall i :: 0 <= i < |init| ==> init[i] == statements[i];
    }
  }

  function Effects(statements: seq<Statement>): (effects: seq<Effect>)
    ensures |effects| == |statements|
    ensures forall i :: 0 <= i < |statements| ==> effects[i] == statements[i].effect
  {
    seq(|statements|, i requires 0 <= i < |statements| => statements[i].effect)
  }

  function UpTo(effects: seq<Effect>, capacity: nat): seq<Effect>
  {
    effects[..if |effects| < capacity then |effects| else capacity]
  }

  // What has been found out about the statements read so far.
  ghost predicate Tallied(done: seq<Statement>, flags: Flags, effects: seq<Effect>, count: nat, capacity: nat)
  {
    count == |done| && flags == FlagsOf(done) && effects == UpTo(Effects(done), capacity)
  }

  lemma TallyStep(done: seq<Statement>, flags: Flags, effects: seq<Effect>, count: nat, capacity: nat, s: Statement)
    requires Tallied(done, flags, effects, count, capacity)
    ensures Tallied(done + [s], WithStatement(flags, count + 1, s),
                    if count + 1 <= capacity then effects + [s.effect] else effects, count + 1, capacity)
  {
    var all := done + [s];
    assert all[..|all| - 1] == done;
    assert Effects(all) == Effects(done) + [s.effect];
  }

  // One more statement counted.
  method CountStatement(ghost all: seq<Statement>, flags0: Flags, effects0: seq<Effect>, count0: nat, capacity: nat, s: Statement)
      returns (flags: Flags, effects: seq<Effect>, count: nat)
    requires count0 < |all| && s == all[count0] && Tallied(all[..count0], flags0, effects0, count0, capacity)
    ensures count == count0 + 1 && Tallied(all[..count], flags, effects, count, capacity)
  {
    TallyStep(all[..count0], flags0, effects0, count0, capacity, s);
    assert all[..count0 + 1] == all[..count0] + [s];
    count := count0 + 1;
    flags := WithStatement(flags0, count, s);
    effects := if count <= capacity then effects0 + [s.effect] else effects0;
  }

  // pdo_duckdb_sql_transaction_flags: the effects of as many statements as the
  // caller has room for, the number of all, and what kinds there are.
  method TransactionFlags(sql: Bytes, capacity: nat) returns (flags: Flags, effects: seq<Effect>, count: nat)
    ensures var all := StatementsOf(TokensOf(sql));
            count == |all| && flags == FlagsOf(all) && effects == UpTo(Effects(all), capacity)
  {
    var tokens := new Tokenizer(sql);
    flags, effects, count := Flags(false, false, false), [], 0;
    ghost var all := StatementsOf(tokens.left);
    var found, s := tokens.NextStatement();
    while found
      invariant tokens.Valid() && fresh(tokens) && fresh(tokens.scanner)
      invariant count <= |all| && found == (count < |all|)
      invariant found ==> s == all[count] && StatementsOf(tokens.left) == all[count + 1..]
      invariant Tallied(all[..count], flags, effects, count, capacity)
      decreases |tokens.left|, found
    {
      flags, effects, count := CountStatement(all, flags, effects, count, capacity, s);
      found, s := tokens.NextStatement();
    }
    assert all[..count] == all;
  }

  // pdo_duckdb_sql_may_have_multiple_statements
  method MayHaveMultipleStatements(sql: Bytes) returns (may: bool)
    ensures may == MayHaveMultiple(sql)
  {
    var pos := 0;
    while pos < |sql| && sql[pos] != SEMICOLON
      invariant 0 <= pos <= |sql| && SEMICOLON !in sql[..pos]
      invariant pos + AfterSemicolon(sql[pos..]) == AfterSemicolon(sql)
    {
      pos := pos + 1;
    }
    if pos == |sql| {
      assert sql == sql[..pos];
      return false;
    }
    assert sql[pos] == SEMICOLON;
    pos := pos + 1;
    may := HasMore(sql, pos);
  }

  // Whether anything but blanks and semicolons stands at or after start.
  method HasMore(sql: Bytes, start: nat) returns (more: bool)
    requires start <= |sql|
    ensures more == !OnlyBlanks(sql[start..])
  {
    var pos := start;
    while pos < |sql|
      invariant start <= pos <= |sql|
      invariant OnlyBlanks(sql[pos..]) == OnlyBlanks(sql[start..])
    {
      ghost var r := sql[pos..];
      var space := UnicodeSpaceLength(sql[pos..]);
      if space > 0 {
        assert r[space..] == sql[pos + space..];
        pos := pos + space;
      } else if sql[pos] != SEMICOLON && !Blank(sql[pos]) {
        return true;
      } else {
        assert r[1..] == sql[pos + 1..];
        pos := pos + 1;
      }
    }
    return false;
  }
}
