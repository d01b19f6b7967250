// What the scanner reads after placeholders have been replaced in a statement.
module Rescan {
  import opened Text
  import opened SqlLexer

  // ---- How far ahead a token looks ----

  predicate OpensEdit(c: byte) { c == QUESTION || c == COLON || c == DOLLAR }

  // What a replacement starts with: the blank put around it, or the $ of a number.
  type Edge = c: byte | c == SPACE || c == DOLLAR witness SPACE

  // r and s agree on k bytes; after them both end, or r starts a placeholder where s
  // has the edge of a replacement.
  ghost predicate Agree(edge: Edge, r: Bytes, s: Bytes, k: nat)
  {
    && k <= |r| && k <= |s|
    && (forall i :: 0 <= i < k ==> r[i] == s[i])
    && ((k == |r| && k == |s|) || (k < |r| && k < |s| && OpensEdit(r[k]) && s[k] == edge))
  }

  lemma AgreeDrop(edge: Edge, r: Bytes, s: Bytes, k: nat, n: nat)
    requires Agree(edge, r, s, k) && n <= k
    ensures Agree(edge, r[n..], s[n..], k - n)
  {
  }

  lemma {:induction false} LineAgree(edge: Edge, r: Bytes, s: Bytes, k: nat)
    requires Agree(edge, r, s, k) && LineLength(r) <= k
    ensures LineLength(s) == LineLength(r)
  {
    if r != [] && !(r[0] == 13 || r[0] == 10) {
      AgreeDrop(edge, r, s, k, 1);
      LineAgree(edge, r[1..], s[1..], k - 1);
    }
  }

  lemma {:induction false} BlockAgree(edge: Edge, r: Bytes, s: Bytes, k: nat, depth: nat)
    requires Agree(edge, r, s, k) && BlockLength(r, depth) <= k
    ensures BlockLength(s, depth) == BlockLength(r, depth)
    decreases |r|
  {
    if r != [] && depth != 0 {
      if OpensComment(r) {
        AgreeDrop(edge, r, s, k, 2);
        BlockAgree(edge, r[2..], s[2..], k - 2, depth + 1);
      } else if ClosesComment(r) {
        AgreeDrop(edge, r, s, k, 2);
        BlockAgree(edge, r[2..], s[2..], k - 2, depth - 1);
      } else {
        AgreeDrop(edge, r, s, k, 1);
        BlockAgree(edge, r[1..], s[1..], k - 1, depth);
      }
    }
  }

  lemma {:induction false} QuotedAgree(edge: Edge, r: Bytes, s: Bytes, k: nat, quote: byte, escapes: bool)
    requires Agree(edge, r, s, k) && QuotedLength(r, quote, escapes) <= k
    requires quote == QUOTE || QuotesIdentifier(quote)
    ensures QuotedLength(s, quote, escapes) == QuotedLength(r, quote, escapes)
    decreases |r|
  {
    if r != [] {
      var n := if |r| > 1 && ((escapes && r[0] == BACKSLASH) || (r[0] == quote && r[1] == quote)) then 2 else 1;
      if n == 2 || r[0] != quote {
        AgreeDrop(edge, r, s, k, n);
        QuotedAgree(edge, r[n..], s[n..], k - n, quote, escapes);
      }
    }
  }

  lemma {:induction false} FindAgree(edge: Edge, r: Bytes, s: Bytes, k: nat, mark: Bytes)
    requires Agree(edge, r, s, k) && FindLength(r, mark) <= k && mark != []
    ensures FindLength(s, mark) == FindLength(r, mark)
    decreases |r|
  {
    if |r| >= |mark| {
      FindBound(r, mark);
      assert s[..|mark|] == r[..|mark|];
      if r[..|mark|] != mark {
        AgreeDrop(edge, r, s, k, 1);
        FindAgree(edge, r[1..], s[1..], k - 1, mark);
      }
    }
  }

  lemma {:induction false} FindBound(r: Bytes, mark: Bytes)
    requires mark != []
    ensures FindLength(r, mark) == |r| || FindLength(r, mark) >= |mark|
  {
    if |r| >= |mark| && r[..|mark|] != mark && r != [] {
      FindBound(r[1..], mark);
    }
  }

  lemma {:induction false} TagAgree(edge: Edge, r: Bytes, s: Bytes, k: nat)
    requires Agree(edge, r, s, k) && TagLength(r) <= k
    ensures TagLength(s) == TagLength(r)
  {
    if r != [] && (IdentifierStart(r[0]) || Digit(r[0])) {
      AgreeDrop(edge, r, s, k, 1);
      TagAgree(edge, r[1..], s[1..], k - 1);
    }
  }

  lemma {:induction false} WordAgree(edge: Edge, r: Bytes, s: Bytes, k: nat)
    requires Agree(edge, r, s, k) && WordLength(r) <= k
    requires edge == SPACE || WordLength(r) < k || k == |r|
    ensures WordLength(s) == WordLength(r)
  {
    if r != [] && IdentifierContinue(r[0]) {
      AgreeDrop(edge, r, s, k, 1);
      WordAgree(edge, r[1..], s[1..], k - 1);
    }
  }

  lemma {:induction false} ParameterAgree(edge: Edge, r: Bytes, s: Bytes, k: nat)
    requires Agree(edge, r, s, k) && ParameterLength(r) <= k
    ensures ParameterLength(s) == ParameterLength(r)
  {
    if r != [] && ParameterChar(r[0]) {
      AgreeDrop(edge, r, s, k, 1);
      ParameterAgree(edge, r[1..], s[1..], k - 1);
    }
  }

  lemma {:induction false} RunAgree(edge: Edge, r: Bytes, s: Bytes, k: nat, c: byte)
    requires Agree(edge, r, s, k) && RunLength(r, c) <= k && c != SPACE && c != DOLLAR
    ensures RunLength(s, c) == RunLength(r, c)
  {
    if r != [] && r[0] == c {
      AgreeDrop(edge, r, s, k, 1);
      RunAgree(edge, r[1..], s[1..], k - 1, c);
    }
  }

  lemma {:induction false} NameAgree(edge: Edge, r: Bytes, s: Bytes, k: nat)
    requires Agree(edge, r, s, k) && NameLength(r) <= k
    ensures NameLength(s) == NameLength(r)
  {
    if r != [] && (ParameterChar(r[0]) || r[0] >= 128) {
      AgreeDrop(edge, r, s, k, 1);
      NameAgree(edge, r[1..], s[1..], k - 1);
    }
  }

  lemma {:induction false} NumberAgree(edge: Edge, r: Bytes, s: Bytes, k: nat, afterDigit: bool)
    requires Agree(edge, r, s, k) && NumberLength(r, afterDigit) <= k
    ensures NumberLength(s, afterDigit) == NumberLength(r, afterDigit)
  {
    if r != [] {
      if Digit(r[0]) {
        AgreeDrop(edge, r, s, k, 1);
        NumberAgree(edge, r[1..], s[1..], k - 1, true);
      } else if r[0] == UNDERSCORE && afterDigit && |r| > 1 && Digit(r[1]) {
        AgreeDrop(edge, r, s, k, 1);
        NumberAgree(edge, r[1..], s[1..], k - 1, false);
      }
    }
  }

  lemma SpaceAgree(edge: Edge, r: Bytes, s: Bytes, k: nat)
    requires Agree(edge, r, s, k) && (k > 0 || k == |r|)
    ensures UnicodeSpaceLength(s) == UnicodeSpaceLength(r) <= k
  {
  }

  lemma TriviaStepAgree(edge: Edge, r: Bytes, s: Bytes, k: nat)
    requires Agree(edge, r, s, k) && TriviaStep(r) <= k && (k > 0 || k == |r|)
    ensures TriviaStep(s) == TriviaStep(r)
  {
    SpaceAgree(edge, r, s, k);
    if k > 0 && UnicodeSpaceLength(r) == 0 && !Blank(r[0]) {
      if OpensLineComment(r) {
        AgreeDrop(edge, r, s, k, 2);
        LineAgree(edge, r[2..], s[2..], k - 2);
      } else if OpensComment(r) {
        AgreeDrop(edge, r, s, k, 2);
        BlockAgree(edge, r[2..], s[2..], k - 2, 1);
      }
    }
  }

  // Blanks end in s where they end in r, or run on into the replacement.
  lemma {:induction false} TriviaAgree(edge: Edge, r: Bytes, s: Bytes, k: nat)
    requires Agree(edge, r, s, k) && TriviaLength(r) <= k
    ensures TriviaLength(s) == TriviaLength(r) + TriviaLength(s[TriviaLength(r)..])
    ensures TriviaLength(r) < k || k == |r| ==> TriviaLength(s[TriviaLength(r)..]) == 0
    decreases |r|
  {
    var n := TriviaStep(r);
    if k == 0 && k < |r| {
      assert n == 0;
      assert s[0..] == s;
    } else {
      TriviaStepAgree(edge, r, s, k);
      if n > 0 {
        AgreeDrop(edge, r, s, k, n);
        TriviaAgree(edge, r[n..], s[n..], k - n);
        assert s[n..][TriviaLength(r[n..])..] == s[TriviaLength(r)..];
      } else {
        assert s[0..] == s;
      }
    }
  }

  lemma {:induction false} TagStops(edge: Edge, r: Bytes, s: Bytes, k: nat)
    requires Agree(edge, r, s, k)
    ensures TagLength(r) <= k
  {
    if k > 0 {
      AgreeDrop(edge, r, s, k, 1);
      TagStops(edge, r[1..], s[1..], k - 1);
    }
  }

  // At k, a further $ would complete a dollar quote.
  predicate TagOpen(r: Bytes, k: nat)
  {
    k < |r| && (k == 1 || (k > 1 && IdentifierStart(r[1]) && 2 + TagLength(r[2..]) == k))
  }

  lemma DelimiterAgree(edge: Edge, r: Bytes, s: Bytes, k: nat)
    requires Agree(edge, r, s, k) && k > 0 && r[0] == DOLLAR && DelimiterLength(r) <= k
    requires edge == SPACE || !TagOpen(r, k)
    ensures DelimiterLength(s) == DelimiterLength(r)
  {
    if k > 1 && r[1] != DOLLAR && IdentifierStart(r[1]) {
      AgreeDrop(edge, r, s, k, 2);
      TagStops(edge, r[2..], s[2..], k - 2);
      TagAgree(edge, r[2..], s[2..], k - 2);
    }
  }

  lemma DollarQuotedAgree(edge: Edge, r: Bytes, s: Bytes, k: nat)
    requires Agree(edge, r, s, k) && k > 0 && r[0] == DOLLAR && DollarQuotedLength(r) <= k
    requires edge == SPACE || !TagOpen(r, k)
    ensures DollarQuotedLength(s) == DollarQuotedLength(r)
  {
    DelimiterAgree(edge, r, s, k);
    var d := DelimiterLength(r);
    if d > 0 {
      AgreeDrop(edge, r, s, k, d);
      assert r[..d] == s[..d];
      FindAgree(edge, r[d..], s[d..], k - d, r[..d]);
    }
  }

  lemma NameLexAgree(edge: Edge, x: Bytes, y: Bytes, k: nat)
    requires Agree(edge, x, y, k) && (k > 0 || k == |x|) && LexName(x).length <= k
    ensures LexName(y) == LexName(x)
  {
    var n := LexName(x).length;
    assert x[..n] == y[..n];
    if x != [] {
      AgreeDrop(edge, x, y, k, 1);
      if Digit(x[0]) {
        NumberAgree(edge, x, y, k, false);
      } else if QuotesIdentifier(x[0]) {
        QuotedAgree(edge, x[1..], y[1..], k - 1, x[0], false);
        var end := if x[n - 1] == x[0] then n - 1 else n;
        assert end > 1 ==> x[1..end] == y[1..end];
      } else {
        NameAgree(edge, x, y, k);
      }
    }
  }

  lemma BlankThenQuote(s: Bytes)
    requires |s| > 1 && s[0] == SPACE && s[1] == QUOTE
    ensures TriviaLength(s) == 1
  {
    assert TriviaStep(s) == 1;
    assert TriviaStep(s[1..]) == 0;
  }

  // The blanks after $ end in s where they end in r, or run on.
  lemma NameStartMore(edge: Edge, r: Bytes, s: Bytes, k: nat)
    requires Agree(edge, r, s, k) && k > 0 && r[0] == DOLLAR && NameStart(r) <= k
    ensures var t := NameStart(r);
            && (|r| > 1 && r[1] < 128 ==> t <= |s| && NameStart(s) == t + TriviaLength(s[t..]))
            && (|r| > 1 && r[1] < 128 && (t < k || k == |r|) ==> TriviaLength(s[t..]) == 0)
            && (|r| == 1 || r[1] >= 128 ==> NameStart(s) == t)
  {
    AgreeDrop(edge, r, s, k, 1);
    if |r| > 1 && r[1] < 128 {
      TriviaFurther(edge, r[1..], s, k - 1);
    }
  }

  lemma TriviaFurther(edge: Edge, x: Bytes, s: Bytes, k: nat)
    requires s != [] && Agree(edge, x, s[1..], k) && TriviaLength(x) <= k
    ensures var t := 1 + TriviaLength(x);
            && 1 + TriviaLength(s[1..]) == t + TriviaLength(s[t..])
            && (t <= k || k == |x| ==> TriviaLength(s[t..]) == 0)
  {
    TriviaAgree(edge, x, s[1..], k);
    assert s[1..][TriviaLength(x)..] == s[1 + TriviaLength(x)..];
  }

  lemma NameStartAgree(edge: Edge, r: Bytes, s: Bytes, k: nat)
    requires Agree(edge, r, s, k) && k > 0 && r[0] == DOLLAR && NameStart(r) <= k
    ensures NameStart(r) < k || k == |r| ==> NameStart(s) == NameStart(r)
    ensures NameStart(r) == k < |r| && edge == DOLLAR ==> NameStart(s) == k
    ensures NameStart(r) == k < |r| && edge == SPACE && k + 1 < |s| && s[k + 1] == QUOTE ==> NameStart(s) == k + 1
  {
    NameStartMore(edge, r, s, k);
    if NameStart(r) == k < |r| {
      if edge == DOLLAR {
        assert TriviaStep(s[k..]) == 0;
      } else if k + 1 < |s| && s[k + 1] == QUOTE {
        BlankThenQuote(s[k..]);
      }
    }
  }

  // A $ item that stops before the replacement is read alike; a nameless one
  // that touches it also takes the blank in front of a quoted replacement.
  lemma LexDollarAgree(edge: Edge, r: Bytes, s: Bytes, k: nat)
    requires Agree(edge, r, s, k) && k > 0 && r[0] == DOLLAR && LexDollar(r).length <= k
    requires edge == SPACE || !TagOpen(r, k)
    ensures var l := LexDollar(r);
            (l.kind != BareDollar || l.length < k || k == |r| || edge == DOLLAR) ==> LexDollar(s) == l
    ensures var l := LexDollar(r);
            (l.kind == BareDollar && l.length == k < |r| && edge == SPACE && k + 1 < |s| && s[k + 1] == QUOTE) ==>
              LexDollar(s) == Lexeme(BareDollar, k + 1)
  {
    DollarQuotedAgree(edge, r, s, k);
    if DollarQuotedLength(r) == 0 {
      var start := NameStart(r);
      NameStartAgree(edge, r, s, k);
      AgreeDrop(edge, r, s, k, start);
      if start < k || k == |r| {
        NameLexAgree(edge, r[start..], s[start..], k - start);
      } else {
        assert OpensEdit(r[start..][0]);
        assert LexName(r[start..]) == Lexeme(BareDollar, 0);
        if k + 1 < |s| && s[k + 1] == QUOTE {
          assert s[k + 1..][0] == QUOTE;
        }
      }
    }
  }

  // A nameless $ that touches a replacement takes the blank in front of it, and
  // then the name an unquoted one opens with.
  lemma DollarSwallows(prev: int, prev': int, r: Bytes, s: Bytes, k: nat, seen: bool)
    requires Agree(SPACE, r, s, k) && 0 < k < |r| && k + 1 < |s| && s[k] == SPACE && Letter(s[k + 1])
    requires Lex(prev, r, seen) == Lexeme(BareDollar, k)
    ensures Lex(prev', s, seen).kind.Native?
  {
    assert r[0] == DOLLAR && LexDollar(r) == Lexeme(BareDollar, k);
    DollarQuotedAgree(SPACE, r, s, k);
    assert NameStart(r) == k;
    NameStartTaken(r, s, k);
    assert s[k + 1..][0] == s[k + 1];
    assert LexName(s[k + 1..]).kind.Native?;
  }

  lemma NameStartTaken(r: Bytes, s: Bytes, k: nat)
    requires Agree(SPACE, r, s, k) && 0 < k < |r| && r[0] == DOLLAR && NameStart(r) == k
    requires k + 1 < |s| && s[k] == SPACE && Letter(s[k + 1])
    ensures NameStart(s) == k + 1
  {
    NameStartMore(SPACE, r, s, k);
    BlankThenName(s[k..]);
  }

  lemma BlankThenName(s: Bytes)
    requires |s| > 1 && s[0] == SPACE && Letter(s[1])
    ensures TriviaLength(s) == 1
  {
    assert TriviaStep(s) == 1;
    assert TriviaStep(s[1..]) == 0;
  }

  // An item that a $ directly behind it would change.
  predicate Sticky(i: Item)
  {
    || i.kind == Word
    || (i.kind == BareDollar && i.text == [DOLLAR])
    || (i.kind.Native? && !i.kind.numeric && i.kind.quote == 0 && |i.text| == 1 + |i.kind.name|)
  }

  // The first item of r does not touch what comes at k, or may.
  predicate Loose(prev: int, r: Bytes, k: nat, seen: bool)
    requires r != []
  {
    var l := Lex(prev, r, seen);
    l.length != k || k == |r| || !Sticky(Item(l.kind, r[..l.length]))
  }

  lemma {:induction false} NameIsTag(x: Bytes)
    ensures NameLength(x) == TagLength(x)
  {
    if x != [] && (ParameterChar(x[0]) || x[0] >= 128) {
      NameIsTag(x[1..]);
    }
  }

  lemma TagIsSticky(prev: int, r: Bytes, k: nat, seen: bool)
    requires r != [] && r[0] == DOLLAR && TriviaStep(r) == 0 && TagOpen(r, k) && Lex(prev, r, seen).length <= k
    ensures !Loose(prev, r, k, seen)
  {
    assert Lex(prev, r, seen) == LexDollar(r);
    if k > 1 {
      NameIsTag(r[1..]);
      assert r[1..][1..] == r[2..];
      assert NameStart(r) == 1;
    }
  }

  lemma LexTriviaAgree(edge: Edge, prev: int, prev': int, r: Bytes, s: Bytes, k: nat, seen: bool)
    requires Agree(edge, r, s, k) && k > 0 && Lex(prev, r, seen).length <= k
    requires TriviaStep(r) > 0 || r[0] == SEMICOLON || r[0] == DOLLAR
    requires edge == SPACE || Loose(prev, r, k, seen)
    ensures var l := Lex(prev, r, seen);
            (l.kind != BareDollar || l.length < k || k == |r| || edge == DOLLAR) ==> Lex(prev', s, seen) == l
    ensures var l := Lex(prev, r, seen);
            (l.kind == BareDollar && l.length == k < |r| && edge == SPACE && k + 1 < |s| && s[k + 1] == QUOTE) ==>
              Lex(prev', s, seen) == Lexeme(BareDollar, k + 1)
  {
    TriviaStepAgree(edge, r, s, k);
    if TriviaStep(r) == 0 && r[0] == DOLLAR {
      if edge == DOLLAR && TagOpen(r, k) {
        TagIsSticky(prev, r, k, seen);
      }
      LexDollarAgree(edge, r, s, k);
    }
  }

  lemma LexQuotedAgree(edge: Edge, prev: int, prev': int, r: Bytes, s: Bytes, k: nat, seen: bool)
    requires Agree(edge, r, s, k) && k > 0 && Lex(prev, r, seen).length <= k
    requires TriviaStep(r) == 0 && (Lex(prev, r, seen).kind == Escaped || Lex(prev, r, seen).kind == Quoted)
    ensures Lex(prev', s, seen) == Lex(prev, r, seen)
  {
    var c := r[0];
    TriviaStepAgree(edge, r, s, k);
    if Lex(prev, r, seen).kind == Escaped {
      AgreeDrop(edge, r, s, k, 2);
      QuotedAgree(edge, r[2..], s[2..], k - 2, QUOTE, true);
    } else {
      AgreeDrop(edge, r, s, k, 1);
      QuotedAgree(edge, r[1..], s[1..], k - 1, c, false);
    }
  }

  lemma LexTextAgree(edge: Edge, prev: int, prev': int, r: Bytes, s: Bytes, k: nat, seen: bool)
    requires Agree(edge, r, s, k) && k > 0 && Lex(prev, r, seen).length <= k
    requires TriviaStep(r) == 0 && r[0] != SEMICOLON && r[0] != DOLLAR
    requires edge == SPACE || Loose(prev, r, k, seen)
    requires IdentifierContinue(prev) == IdentifierContinue(prev') || !OpensNamed(r)
    ensures Lex(prev', s, seen) == Lex(prev, r, seen)
  {
    var c, l := r[0], Lex(prev, r, seen);
    if l.kind == Escaped || l.kind == Quoted {
      LexQuotedAgree(edge, prev, prev', r, s, k, seen);
    } else {
      TriviaStepAgree(edge, r, s, k);
      AgreeDrop(edge, r, s, k, 1);
      if l.kind == Word {
        WordAgree(edge, r[1..], s[1..], k - 1);
      } else if l.kind == Cast {
        RunAgree(edge, r[1..], s[1..], k - 1, COLON);
      } else if l.kind == Named {
        ParameterAgree(edge, r[1..], s[1..], k - 1);
      } else if l.kind == QuestionRun {
        RunAgree(edge, r[1..], s[1..], k - 1, QUESTION);
      }
    }
  }

  // One token of r that ends before the replacement is the same token of s.
  lemma LexAgree(edge: Edge, prev: int, prev': int, r: Bytes, s: Bytes, k: nat, seen: bool)
    requires Agree(edge, r, s, k) && k > 0 && Lex(prev, r, seen).length <= k
    requires edge == SPACE || Loose(prev, r, k, seen)
    requires IdentifierContinue(prev) == IdentifierContinue(prev') || !OpensNamed(r)
    ensures var l := Lex(prev, r, seen);
            (l.kind != BareDollar || l.length < k || k == |r| || edge == DOLLAR) ==> Lex(prev', s, seen) == l
    ensures var l := Lex(prev, r, seen);
            (l.kind == BareDollar && l.length == k < |r| && edge == SPACE && k + 1 < |s| && s[k + 1] == QUOTE) ==>
              Lex(prev', s, seen) == Lexeme(BareDollar, k + 1)
  {
    if TriviaStep(r) > 0 || r[0] == SEMICOLON || r[0] == DOLLAR {
      LexTriviaAgree(edge, prev, prev', r, s, k, seen);
    } else {
      LexTextAgree(edge, prev, prev', r, s, k, seen);
    }
  }
}
