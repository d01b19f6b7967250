// The loops of the placeholder scanner, with the position they advance.
module SqlScan {
  import opened Text
  import opened SqlLexer

  // The byte before pos, as the look-behind test sees it.
  function Before(sql: Bytes, pos: nat): int
    requires pos <= |sql|
  {
    if pos == 0 then -1 else sql[pos - 1]
  }

  method SpaceLength(sql: Bytes, pos: nat) returns (n: nat)
    requires pos <= |sql|
    ensures n == UnicodeSpaceLength(sql[pos..])
  {
    var rest := |sql| - pos;
    if rest >= 2 && sql[pos] == 0xc2 && sql[pos + 1] == 0xa0 {
      return 2;
    }
    if rest >= 3 {
      if sql[pos] == 0xe2 && sql[pos + 1] == 0x80 && (0x80 <= sql[pos + 2] <= 0x8a || sql[pos + 2] == 0xaf) {
        return 3;
      }
      if (sql[pos] == 0xe2 && sql[pos + 1] == 0x81 && sql[pos + 2] == 0x9f)
         || (sql[pos] == 0xe3 && sql[pos + 1] == 0x80 && sql[pos + 2] == 0x80)
         || (sql[pos] == 0xef && sql[pos + 1] == 0xbb && sql[pos + 2] == 0xbf) {
        return 3;
      }
    }
    return 0;
  }

  method SkipString(sql: Bytes, start: nat, quote: byte, escapes: bool) returns (pos: nat)
    requires start < |sql|
    ensures pos == start + 1 + QuotedLength(sql[start + 1..], quote, escapes)
  {
    pos := start + 1;
    while pos < |sql|
      invariant start < pos <= |sql|
      invariant pos + QuotedLength(sql[pos..], quote, escapes)
             == start + 1 + QuotedLength(sql[start + 1..], quote, escapes)
    {
      if escapes && sql[pos] == BACKSLASH && pos + 1 < |sql| {
        pos := pos + 2;
      } else if sql[pos] == quote {
        if pos + 1 < |sql| && sql[pos + 1] == quote {
          pos := pos + 2;
        } else {
          return pos + 1;
        }
      } else {
        pos := pos + 1;
      }
    }
  }

  method SkipLine(sql: Bytes, start: nat) returns (pos: nat)
    requires start <= |sql|
    ensures pos == start + LineLength(sql[start..])
  {
    pos := start;
    while pos < |sql| && sql[pos] != 13 && sql[pos] != 10
      invariant start <= pos <= |sql|
      invariant pos + LineLength(sql[pos..]) == start + LineLength(sql[start..])
    {
      pos := pos + 1;
    }
  }

  method SkipBlock(sql: Bytes, start: nat) returns (pos: nat)
    requires start <= |sql|
    ensures pos == start + BlockLength(sql[start..], 1)
  {
    pos := start;
    var depth: nat := 1;
    while pos < |sql| && depth > 0
      invariant start <= pos <= |sql|
      invariant pos + BlockLength(sql[pos..], depth) == start + BlockLength(sql[start..], 1)
    {
      if pos + 1 < |sql| && sql[pos] == 47 && sql[pos + 1] == 42 {
        depth := depth + 1;
        pos := pos + 2;
      } else if pos + 1 < |sql| && sql[pos] == 42 && sql[pos + 1] == 47 {
        depth := depth - 1;
        pos := pos + 2;
      } else {
        pos := pos + 1;
      }
    }
  }

  // One white item: a space, or a whole comment.
  method SkipWhite(sql: Bytes, start: nat) returns (pos: nat)
    requires start < |sql|
    ensures pos == start + TriviaStep(sql[start..])
  {
    var space := SpaceLength(sql, start);
    if space > 0 {
      pos := start + space;
    } else if Blank(sql[start]) {
      pos := start + 1;
    } else if start + 1 < |sql| && sql[start] == 45 && sql[start + 1] == 45 {
      pos := SkipLine(sql, start + 2);
      assert sql[start..][2..] == sql[start + 2..];
    } else if start + 1 < |sql| && sql[start] == 47 && sql[start + 1] == 42 {
      pos := SkipBlock(sql, start + 2);
      assert sql[start..][2..] == sql[start + 2..];
    } else {
      pos := start;
    }
  }

  method SkipTrivia(sql: Bytes, start: nat) returns (pos: nat)
    requires start <= |sql|
    ensures pos == start + TriviaLength(sql[start..])
  {
    pos := start;
    while pos < |sql|
      invariant start <= pos <= |sql|
      invariant pos + TriviaLength(sql[pos..]) == start + TriviaLength(sql[start..])
    {
      var next := SkipWhite(sql, pos);
      if next == pos {
        return;
      }
      TriviaTurn(sql, pos, next);
      pos := next;
    }
  }

  lemma TriviaTurn(sql: Bytes, pos: nat, next: nat)
    requires pos < next <= |sql| && next == pos + TriviaStep(sql[pos..])
    ensures pos + TriviaLength(sql[pos..]) == next + TriviaLength(sql[next..])
  {
    assert sql[pos..][next - pos..] == sql[next..];
  }

  // The position after the $tag$ at start, or start without one.
  method ScanDelimiter(sql: Bytes, start: nat) returns (pos: nat)
    requires start < |sql| && sql[start] == DOLLAR
    ensures pos == start + DelimiterLength(sql[start..])
  {
    var end := start + 1;
    if end < |sql| && sql[end] != DOLLAR {
      if !IdentifierStart(sql[end]) {
        return start;
      }
      end := end + 1;
      while end < |sql| && (IdentifierStart(sql[end]) || Digit(sql[end]))
        invariant start + 2 <= end <= |sql|
        invariant end + TagLength(sql[end..]) == start + 2 + TagLength(sql[start + 2..])
      {
        end := end + 1;
      }
      assert sql[start..][2..] == sql[start + 2..];
    }
    if end == |sql| || sql[end] != DOLLAR {
      return start;
    }
    return end + 1;
  }

  // The position after the first mark at or after start, or the end of sql.
  method FindMark(sql: Bytes, start: nat, mark: Bytes) returns (pos: nat)
    requires start <= |sql| && 0 < |mark| <= |sql|
    ensures pos == start + FindLength(sql[start..], mark)
  {
    pos := start;
    while pos <= |sql| - |mark|
      invariant start <= pos <= |sql|
      invariant pos + FindLength(sql[pos..], mark) == start + FindLength(sql[start..], mark)
    {
      assert sql[pos..][..|mark|] == sql[pos..pos + |mark|];
      if sql[pos..pos + |mark|] == mark {
        return pos + |mark|;
      }
      pos := pos + 1;
    }
    pos := |sql|;
  }

  // The position after the dollar-quoted text at start, or start without one.
  method SkipDollarString(sql: Bytes, start: nat) returns (pos: nat)
    requires start < |sql| && sql[start] == DOLLAR
    ensures pos == start + DollarQuotedLength(sql[start..])
  {
    var end := ScanDelimiter(sql, start);
    if end == start {
      return start;
    }
    ghost var r := sql[start..];
    assert r[..end - start] == sql[start..end] && r[end - start..] == sql[end..];
    pos := FindMark(sql, end, sql[start..end]);
  }

  method ScanNumber(sql: Bytes, start: nat) returns (pos: nat)
    requires start < |sql| && Digit(sql[start])
    ensures pos == start + NumberLength(sql[start..], false)
  {
    pos := start;
    while pos < |sql|
      invariant start <= pos <= |sql|
      invariant pos + NumberLength(sql[pos..], pos > start && Digit(sql[pos - 1]))
             == start + NumberLength(sql[start..], false)
    {
      if Digit(sql[pos]) {
        pos := pos + 1;
      } else if sql[pos] == UNDERSCORE && pos > start && pos + 1 < |sql| && Digit(sql[pos - 1]) && Digit(sql[pos + 1]) {
        pos := pos + 1;
      } else {
        break;
      }
    }
  }

  method ScanPlainName(sql: Bytes, start: nat) returns (pos: nat)
    requires start <= |sql|
    ensures pos == start + NameLength(sql[start..])
  {
    pos := start;
    while pos < |sql| && (ParameterChar(sql[pos]) || sql[pos] >= 128)
      invariant start <= pos <= |sql|
      invariant pos + NameLength(sql[pos..]) == start + NameLength(sql[start..])
    {
      pos := pos + 1;
    }
  }

  lemma Slice(s: Bytes, start: nat, a: nat, b: nat)
    requires start <= |s| && a <= b <= |s| - start
    ensures s[start..][a..b] == s[start + a..start + b]
  {
  }

  method ScanQuotedName(sql: Bytes, start: nat) returns (kind: Kind, pos: nat)
    requires start < |sql| && QuotesIdentifier(sql[start])
    ensures start <= pos <= |sql| && Lexeme(kind, pos - start) == LexName(sql[start..])
  {
    var quote := sql[start];
    pos := SkipString(sql, start, quote, false);
    assert sql[start..][1..] == sql[start + 1..];
    var end := if sql[pos - 1] == quote then pos - 1 else pos;
    if end > start + 1 {
      kind := Native(sql[start + 1..end], false, quote);
      Slice(sql, start, 1, end - start);
    } else {
      kind := EmptyName;
    }
  }

  // What follows a $ that starts no dollar-quoted text.
  method ScanName(sql: Bytes, start: nat) returns (kind: Kind, pos: nat)
    requires start <= |sql|
    ensures start <= pos <= |sql| && Lexeme(kind, pos - start) == LexName(sql[start..])
  {
    ghost var x := sql[start..];
    if start < |sql| && Digit(sql[start]) {
      pos := ScanNumber(sql, start);
      kind := Native(sql[start..pos], true, 0);
      assert x[..pos - start] == sql[start..pos];
    } else if start < |sql| && QuotesIdentifier(sql[start]) {
      kind, pos := ScanQuotedName(sql, start);
    } else {
      pos := ScanPlainName(sql, start);
      assert x[..pos - start] == sql[start..pos];
      kind := if pos > start then Native(sql[start..pos], false, 0) else BareDollar;
    }
  }

  method ScanDollar(sql: Bytes, start: nat) returns (kind: Kind, pos: nat)
    requires start < |sql| && sql[start] == DOLLAR
    ensures start < pos <= |sql| && Lexeme(kind, pos - start) == LexDollar(sql[start..])
  {
    ghost var r := sql[start..];
    pos := SkipDollarString(sql, start);
    if pos != start {
      kind := DollarQuoted;
    } else {
      var name := start + 1;
      if name < |sql| && sql[name] < 128 {
        name := SkipTrivia(sql, name);
        assert r[1..] == sql[start + 1..];
      }
      assert name == start + NameStart(r) && r[NameStart(r)..] == sql[name..];
      kind, pos := ScanName(sql, name);
    }
  }

  // The position after the bytes from start on that are all c.
  method SkipRun(sql: Bytes, start: nat, c: byte) returns (pos: nat)
    requires start <= |sql|
    ensures pos == start + RunLength(sql[start..], c)
  {
    pos := start;
    while pos < |sql| && sql[pos] == c
      invariant start <= pos <= |sql|
      invariant pos + RunLength(sql[pos..], c) == start + RunLength(sql[start..], c)
    {
      pos := pos + 1;
    }
  }

  method ScanWord(sql: Bytes, start: nat) returns (pos: nat)
    requires start <= |sql|
    ensures pos == start + WordLength(sql[start..])
  {
    pos := start;
    while pos < |sql| && IdentifierContinue(sql[pos])
      invariant start <= pos <= |sql|
      invariant pos + WordLength(sql[pos..]) == start + WordLength(sql[start..])
    {
      pos := pos + 1;
    }
  }

  method ScanParameter(sql: Bytes, start: nat) returns (pos: nat)
    requires start <= |sql|
    ensures pos == start + ParameterLength(sql[start..])
  {
    pos := start;
    while pos < |sql| && ParameterChar(sql[pos])
      invariant start <= pos <= |sql|
      invariant pos + ParameterLength(sql[pos..]) == start + ParameterLength(sql[start..])
    {
      pos := pos + 1;
    }
  }

  // One turn of the scanning loop.
  method ScanToken(sql: Bytes, pos: nat, seen: bool) returns (kind: Kind, next: nat)
    requires pos < |sql|
    ensures pos < next <= |sql| && Lexeme(kind, next - pos) == Lex(Before(sql, pos), sql[pos..], seen)
  {
    ghost var r := sql[pos..];
    assert r[1..] == sql[pos + 1..];
    var c := sql[pos];
    var more := pos + 1 < |sql|;
    next := SkipWhite(sql, pos);
    if next != pos {
      return White, next;
    }
    if c == SEMICOLON && !seen {
      return White, pos + 1;
    }
    if (c == 101 || c == 69) && more && sql[pos + 1] == QUOTE {
      next := SkipString(sql, pos + 1, QUOTE, true);
      assert r[2..] == sql[pos + 2..];
      return Escaped, next;
    } else if c == QUOTE || QuotesIdentifier(c) {
      next := SkipString(sql, pos, c, false);
      return Quoted, next;
    } else if c == DOLLAR {
      kind, next := ScanDollar(sql, pos);
      return;
    } else if IdentifierStart(c) {
      next := ScanWord(sql, pos + 1);
      return Word, next;
    } else if c == COLON && more && sql[pos + 1] == COLON {
      next := SkipRun(sql, pos + 1, COLON);
      return Cast, next;
    } else if c == COLON && more && ParameterChar(sql[pos + 1])
              && (pos == 0 || !IdentifierContinue(sql[pos - 1])) {
      next := ScanParameter(sql, pos + 1);
      return Named, next;
    } else if c == QUESTION && more && sql[pos + 1] == QUESTION {
      next := SkipRun(sql, pos + 1, QUESTION);
      return QuestionRun, next;
    } else if c == QUESTION {
      return Positional, pos + 1;
    }
    return Other, pos + 1;
  }
}
