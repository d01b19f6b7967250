// Batches written from statements, and the statements found in them again, with
// the keywords they begin with in any spelling.
module Batches {
  import O = Options
  import opened Text
  import opened Transactions

  // ---- Keywords ----

  // text is a word of lower-case letters, but for case.
  predicate Spells(text: Bytes, word: string)
  {
    |text| == |word|
    && forall i :: 0 <= i < |word| ==> text[i] == word[i] as int || text[i] == word[i] as int - 32
  }

  predicate Capital(keyword: Bytes, word: string)
  {
    |keyword| == |word| && forall i :: 0 <= i < |word| ==> 'a' <= word[i] <= 'z' && keyword[i] == word[i] as int - 32
  }

  lemma KeywordSpells(text: Bytes, keyword: Bytes, word: string)
    requires Capital(keyword, word)
    ensures Keyword(text, keyword) <==> Spells(text, word)
  {
    if Spells(text, word) {
      forall i | 0 <= i < |text|
        ensures Upper(text[i]) == keyword[i]
      {
        assert keyword[i] == word[i] as int - 32;
      }
    }
    if Keyword(text, keyword) {
      forall i | 0 <= i < |text|
        ensures text[i] == word[i] as int || text[i] == word[i] as int - 32
      {
        assert Upper(text[i]) == keyword[i] == word[i] as int - 32;
      }
    }
  }

  predicate Opening(t: Token) { t.kind == Word && (Spells(t.text, "begin") || Spells(t.text, "start")) }

  predicate Ending(t: Token)
  {
    t.kind == Word
    && (Spells(t.text, "commit") || Spells(t.text, "end") || Spells(t.text, "rollback") || Spells(t.text, "abort"))
  }

  predicate Explaining(t: Token) { t.kind == Word && Spells(t.text, "explain") }

  predicate Analyzing(t: Token, quoted: bool)
  {
    (t.kind == Word || (quoted && t.kind == QuotedWord)) && (Spells(t.text, "analyze") || Spells(t.text, "analyse"))
  }

  // BEGIN and START open a transaction, COMMIT, END, ROLLBACK and ABORT end one, in
  // any case, and nothing else does either.
  lemma EffectMeans(t: Token)
    ensures EffectOf(t) == Opens <==> Opening(t)
    ensures EffectOf(t) == Ends <==> Ending(t)
    ensures Opening(t) ==> !Ending(t)
  {
    KeywordSpells(t.text, BEGIN, "begin");
    KeywordSpells(t.text, START, "start");
    KeywordSpells(t.text, COMMIT, "commit");
    KeywordSpells(t.text, END, "end");
    KeywordSpells(t.text, ROLLBACK, "rollback");
    KeywordSpells(t.text, ABORT, "abort");
    if Opening(t) && Ending(t) {
      FirstLetters(t.text);
    }
  }

  lemma FirstLetters(text: Bytes)
    ensures Spells(text, "begin") || Spells(text, "start") ==>
              !Spells(text, "commit") && !Spells(text, "end") && !Spells(text, "rollback") && !Spells(text, "abort")
  {
    if Spells(text, "abort") {
      assert text[0] == 97 || text[0] == 65;
    }
  }

  lemma ExplainMeans(t: Token, quoted: bool)
    ensures IsKeyword(t, EXPLAIN, false) <==> Explaining(t)
    ensures IsAnalyze(t, quoted) <==> Analyzing(t, quoted)
    ensures Explaining(t) ==> EffectOf(t) == NoEffect
  {
    KeywordSpells(t.text, EXPLAIN, "explain");
    KeywordSpells(t.text, ANALYZE, "analyze");
    KeywordSpells(t.text, ANALYSE, "analyse");
  }

  // What a transaction is after each of these words.
  lemma AppliedMeans(inTransaction: bool, t: Token)
    ensures Applied(inTransaction, EffectOf(t)) == if Opening(t) then true else if Ending(t) then false else inTransaction
  {
    EffectMeans(t);
  }

  // ---- Statements ----

  // A choice in the parentheses of EXPLAIN.
  datatype Choice = Choice(name: Token, args: seq<Token>)

  datatype Written =
    | Plain(first: Token, body: seq<Token>)
    | Explain(word: Token, analyze: seq<Token>, choices: O.Option<seq<Choice>>, first: Token, body: seq<Token>)

  const LEFT := Token(LeftParen, [])
  const RIGHT := Token(RightParen, [])
  const COMMA := Token(Comma, [])
  const STOP := Token(Semicolon, [])

  function Listed(cs: seq<Choice>): seq<Token>
  {
    if cs == [] then []
    else if |cs| == 1 then [cs[0].name] + cs[0].args
    else [cs[0].name] + (cs[0].args + ([COMMA] + Listed(cs[1..])))
  }

  function ChoiceTokens(choices: O.Option<seq<Choice>>): seq<Token>
  {
    if choices.None? then [] else [LEFT] + (Listed(choices.value) + [RIGHT])
  }

  function TokensIn(w: Written): (ts: seq<Token>)
    ensures ts != []
  {
    match w
    case Plain(first, body) => [first] + body
    case Explain(word, analyze, choices, first, body) => [word] + (analyze + (ChoiceTokens(choices) + ([first] + body)))
  }

  // ts, begun at a depth, has no semicolon outside parentheses and no end; it closes
  // every parenthesis.
  predicate Closed(ts: seq<Token>, depth: nat)
  {
    if ts == [] then depth == 0
    else
      && ts[0].kind != Eof && (ts[0].kind == Semicolon ==> depth > 0)
      && Closed(ts[1..], if ts[0].kind == LeftParen then depth + 1
                         else if ts[0].kind == RightParen && depth > 0 then depth - 1 else depth)
  }

  // The same inside the parentheses of EXPLAIN, up to the end of the choice.
  predicate Inside(ts: seq<Token>, depth: nat)
  {
    if ts == [] then depth == 1
    else
      && ts[0].kind != Eof && ts[0].kind != Semicolon
      && (depth == 1 ==> ts[0].kind != Comma && ts[0].kind != RightParen)
      && depth > 0
      && Inside(ts[1..], if ts[0].kind == LeftParen then depth + 1
                         else if ts[0].kind == RightParen then depth - 1 else depth)
  }

  predicate ChoiceValid(c: Choice)
  {
    c.name.kind !in {Eof, Semicolon, LeftParen, RightParen, Comma} && Inside(c.args, 1)
  }

  predicate WrittenValid(w: Written)
  {
    && w.first.kind !in {Eof, Semicolon} && Closed(w.body, Depth(w.first))
    && match w
       case Plain(first, _) => !Explaining(first)
       case Explain(word, analyze, choices, first, _) =>
         && Explaining(word) && |analyze| <= 1 && (analyze != [] ==> Analyzing(analyze[0], false))
         && match choices
            case None => first.kind != LeftParen && (analyze == [] ==> !Analyzing(first, false))
            case Some(cs) => forall i :: 0 <= i < |cs| ==> ChoiceValid(cs[i])
  }

  ghost predicate Heard(cs: seq<Choice>) { exists i :: 0 <= i < |cs| && Analyzing(cs[i].name, true) }

  // Whether what is explained is run.
  ghost predicate Runs(w: Written)
    requires w.Explain?
  {
    w.analyze != [] || (w.choices.Some? && Heard(w.choices.value))
  }

  function EffectIn(t: Token): Effect { if Opening(t) then Opens else if Ending(t) then Ends else NoEffect }

  ghost function Meaning(w: Written): Statement
  {
    match w
    case Plain(first, _) => Statement(EffectIn(first), false)
    case Explain(_, _, _, first, _) => Statement(if Runs(w) then EffectIn(first) else NoEffect, true)
  }

  // ---- Reading them ----

  lemma {:induction false} SkipClosed(body: seq<Token>, depth: nat, rest: seq<Token>)
    requires Closed(body, depth)
    ensures Skip(body + ([STOP] + rest), depth) == rest
    decreases |body|
  {
    var ts := body + ([STOP] + rest);
    if body == [] {
      assert ts == [STOP] + rest;
      assert ts[1..] == rest;
    } else {
      var t := body[0];
      var next := if t.kind == LeftParen then depth + 1 else if t.kind == RightParen && depth > 0 then depth - 1 else depth;
      assert ts[0] == t && ts[1..] == body[1..] + ([STOP] + rest);
      SkipClosed(body[1..], next, rest);
    }
  }

  lemma {:induction false} SkipToEnd(body: seq<Token>, depth: nat)
    requires Closed(body, depth)
    ensures Skip(body, depth) == []
    decreases |body|
  {
    if body != [] {
      var t := body[0];
      SkipToEnd(body[1..], if t.kind == LeftParen then depth + 1
                           else if t.kind == RightParen && depth > 0 then depth - 1 else depth);
    }
  }

  // The arguments of a choice change nothing.
  lemma {:induction false} ArgsPassed(args: seq<Token>, depth: nat, analyze: bool, rest: seq<Token>)
    requires Inside(args, depth) && depth > 0
    ensures Options(args + rest, OptionState(depth, false, analyze)) == Options(rest, OptionState(1, false, analyze))
    decreases |args|
  {
    if args == [] {
      assert args + rest == rest;
    } else {
      var t, ts := args[0], args + rest;
      var next := if t.kind == LeftParen then depth + 1 else if t.kind == RightParen then depth - 1 else depth;
      assert ts[0] == t && ts[1..] == args[1..] + rest;
      assert AfterOption(OptionState(depth, false, analyze), t) == OptionState(next, false, analyze);
      InsideStays(args[1..], next);
      ArgsPassed(args[1..], next, analyze, rest);
    }
  }

  lemma InsideStays(ts: seq<Token>, depth: nat)
    requires Inside(ts, depth)
    ensures depth > 0
  {
  }

  lemma ChoicePassed(c: Choice, analyze: bool, rest: seq<Token>)
    requires ChoiceValid(c)
    ensures Options([c.name] + (c.args + rest), OptionState(1, true, analyze))
         == Options(rest, OptionState(1, false, analyze || Analyzing(c.name, true)))
  {
    var ts := [c.name] + (c.args + rest);
    ExplainMeans(c.name, true);
    assert ts[0] == c.name && ts[1..] == c.args + rest;
    assert AfterOption(OptionState(1, true, analyze), c.name) == OptionState(1, false, analyze || Analyzing(c.name, true));
    ArgsPassed(c.args, 1, analyze || Analyzing(c.name, true), rest);
  }

  lemma CommaPassed(analyze: bool, rest: seq<Token>)
    ensures Options([COMMA] + rest, OptionState(1, false, analyze)) == Options(rest, OptionState(1, true, analyze))
  {
    assert ([COMMA] + rest)[1..] == rest;
  }

  lemma RightPassed(optionStart: bool, analyze: bool, rest: seq<Token>)
    ensures Options([RIGHT] + rest, OptionState(1, optionStart, analyze)) == Scanned(false, Token(Eof, []), analyze, rest)
  {
    assert ([RIGHT] + rest)[1..] == rest;
  }

  // The choices are passed to the closing parenthesis, and each is heard.
  lemma {:induction false} ChoicesPassed(cs: seq<Choice>, analyze: bool, rest: seq<Token>)
    requires forall i :: 0 <= i < |cs| ==> ChoiceValid(cs[i])
    ensures Options(Listed(cs) + ([RIGHT] + rest), OptionState(1, true, analyze))
         == Scanned(false, Token(Eof, []), analyze || Heard(cs), rest)
  {
    if cs == [] {
      assert Listed(cs) + ([RIGHT] + rest) == [RIGHT] + rest;
      RightPassed(true, analyze, rest);
    } else {
      var heard := analyze || Analyzing(cs[0].name, true);
      HeardSomewhere(cs);
      if |cs| == 1 {
        LastListed(cs[0], [RIGHT] + rest);
        ChoicePassed(cs[0], analyze, [RIGHT] + rest);
        RightPassed(false, heard, rest);
      } else {
        ChoicesPassed(cs[1..], heard, rest);
        MoreListed(cs, [RIGHT] + rest);
        ChoicePassed(cs[0], analyze, [COMMA] + (Listed(cs[1..]) + ([RIGHT] + rest)));
        CommaPassed(heard, Listed(cs[1..]) + ([RIGHT] + rest));
      }
    }
  }

  lemma LastListed(c: Choice, rest: seq<Token>)
    ensures Listed([c]) + rest == [c.name] + (c.args + rest)
  {
  }

  lemma MoreListed(cs: seq<Choice>, rest: seq<Token>)
    requires |cs| > 1
    ensures Listed(cs) + rest == [cs[0].name] + (cs[0].args + ([COMMA] + (Listed(cs[1..]) + rest)))
  {
    Regrouped([cs[0].name], cs[0].args, [COMMA], Listed(cs[1..]), rest);
  }

  lemma Regrouped(a: seq<Token>, b: seq<Token>, c: seq<Token>, d: seq<Token>, e: seq<Token>)
    ensures (a + (b + (c + d))) + e == a + (b + (c + (d + e)))
  {
    assert (c + d) + e == c + (d + e);
    assert (b + (c + d)) + e == b + ((c + d) + e);
  }

  lemma HeardSomewhere(cs: seq<Choice>)
    requires cs != []
    ensures Heard(cs) <==> Analyzing(cs[0].name, true) || Heard(cs[1..])
  {
    if i :| 0 <= i < |cs| && Analyzing(cs[i].name, true) {
      assert i > 0 ==> cs[1..][i - 1] == cs[i];
    }
    if i :| 0 <= i < |cs[1..]| && Analyzing(cs[1..][i].name, true) {
      assert cs[i + 1] == cs[1..][i];
    }
  }

  // What stands behind the word EXPLAIN.
  lemma ExplainRead(w: Written, rest: seq<Token>)
    requires WrittenValid(w) && w.Explain?
    ensures Explained(w.analyze + (ChoiceTokens(w.choices) + ([w.first] + rest))) == Scanned(false, w.first, Runs(w), rest)
  {
    var behind := ChoiceTokens(w.choices) + ([w.first] + rest);
    var ts := w.analyze + behind;
    if w.analyze != [] {
      ExplainMeans(w.analyze[0], false);
      assert ts[0] == w.analyze[0] && ts[1..] == behind;
    } else {
      assert ts == behind;
      ExplainMeans(behind[0], false);
    }
    ChoicesRead(w, rest, behind);
  }

  lemma ChoicesRead(w: Written, rest: seq<Token>, behind: seq<Token>)
    requires WrittenValid(w) && w.Explain? && behind == ChoiceTokens(w.choices) + ([w.first] + rest)
    ensures behind != [] && (w.choices.None? ==> behind[0] == w.first && behind[1..] == rest)
    ensures w.choices.Some? ==>
              behind[0] == LEFT
              && Options(behind[1..], OptionState(1, true, w.analyze != [])) == Scanned(false, Token(Eof, []), Runs(w), [w.first] + rest)
    ensures ([w.first] + rest)[1..] == rest
  {
    if w.choices.Some? {
      BehindLeft(Listed(w.choices.value), [w.first] + rest, behind);
      ChoicesPassed(w.choices.value, w.analyze != [], [w.first] + rest);
    }
  }

  lemma BehindLeft(listed: seq<Token>, rest: seq<Token>, behind: seq<Token>)
    requires behind == [LEFT] + (listed + [RIGHT]) + rest
    ensures behind[1..] == listed + ([RIGHT] + rest)
  {
  }

  lemma StatementFirst(first: Token, behind: seq<Token>, s: Statement, rest: seq<Token>)
    requires first.kind != Semicolon && StatementAt(first, behind) == (s, rest)
    ensures StatementsOf([first] + behind) == [s] + StatementsOf(rest)
  {
    assert ([first] + behind)[1..] == behind;
  }

  // What follows a statement: the end, or a semicolon and more.
  function Following(rest: seq<Token>, last: bool): seq<Token> { if last then [] else [STOP] + rest }

  lemma BodySkipped(w: Written, rest: seq<Token>, last: bool)
    requires WrittenValid(w) && (last ==> rest == [])
    ensures Skip(w.body + Following(rest, last), Depth(w.first)) == rest
  {
    if last {
      SkipToEnd(w.body, Depth(w.first));
      assert w.body + [] == w.body;
    } else {
      SkipClosed(w.body, Depth(w.first), rest);
    }
  }

  lemma PlainParts(first: Token, body: seq<Token>, behind: seq<Token>)
    ensures TokensIn(Plain(first, body)) + behind == [first] + (body + behind)
  {
  }

  lemma ExplainParts(w: Written, behind: seq<Token>)
    requires w.Explain?
    ensures TokensIn(w) + behind == [w.word] + (w.analyze + (ChoiceTokens(w.choices) + ([w.first] + (w.body + behind))))
  {
  }

  // One statement of a batch, before a semicolon or at the end.
  lemma WrittenRead(w: Written, rest: seq<Token>, last: bool)
    requires WrittenValid(w) && (last ==> rest == [])
    ensures StatementsOf(TokensIn(w) + Following(rest, last)) == [Meaning(w)] + StatementsOf(rest)
  {
    var body := w.body + Following(rest, last);
    BodySkipped(w, rest, last);
    EffectMeans(w.first);
    match w
    case Plain(first, _) =>
      ExplainMeans(first, false);
      PlainParts(first, w.body, Following(rest, last));
      StatementFirst(first, body, Meaning(w), rest);
    case Explain(word, analyze, choices, first, _) =>
      ExplainMeans(word, false);
      ExplainParts(w, Following(rest, last));
      ExplainRead(w, body);
      StatementFirst(word, analyze + (ChoiceTokens(choices) + ([first] + body)), Meaning(w), rest);
  }

  function Batch(ws: seq<Written>): seq<Token>
  {
    if ws == [] then [] else TokensIn(ws[0]) + ([STOP] + Batch(ws[1..]))
  }

  ghost function Meanings(ws: seq<Written>): seq<Statement>
  {
    if ws == [] then [] else [Meaning(ws[0])] + Meanings(ws[1..])
  }

  // The statements of a batch are those it was written from, each with the effect its
  // first word, or the word it explains and runs, has.
  lemma {:induction false} BatchRead(ws: seq<Written>)
    requires forall i :: 0 <= i < |ws| ==> WrittenValid(ws[i])
    ensures StatementsOf(Batch(ws)) == Meanings(ws)
  {
    if ws != [] {
      BatchRead(ws[1..]);
      WrittenRead(ws[0], Batch(ws[1..]), false);
    }
  }

  lemma BatchFirst(ws: seq<Written>, end: seq<Token>)
    requires ws != []
    ensures Batch(ws) + end == TokensIn(ws[0]) + Following(Batch(ws[1..]) + end, false)
  {
  }

  // The last semicolon may be left out.
  lemma {:induction false} BatchReadToEnd(ws: seq<Written>, last: Written)
    requires (forall i :: 0 <= i < |ws| ==> WrittenValid(ws[i])) && WrittenValid(last)
    ensures StatementsOf(Batch(ws) + TokensIn(last)) == Meanings(ws) + [Meaning(last)]
  {
    if ws == [] {
      WrittenRead(last, [], true);
      assert Batch(ws) + TokensIn(last) == TokensIn(last) + Following([], true);
    } else {
      var rest := Batch(ws[1..]) + TokensIn(last);
      BatchReadToEnd(ws[1..], last);
      WrittenRead(ws[0], rest, false);
      BatchFirst(ws, TokensIn(last));
    }
  }
}
