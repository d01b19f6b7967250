// Statements written from parts, and the two SQL scanners taking them apart again.
module Writing {
  import opened Text
  import opened Digits
  import opened SqlLexer
  import opened Rescan
  import opened Replace
  import opened Inlining
  import opened Numbering
  import opened Plan
  import opened Lexemes
  import T = Transactions

  const BREAK: byte := 10

  // What a statement can be written from; each part stands on a line of its own.
  datatype Part =
    | Literal(data: Bytes)                       // '...'
    | Escape(e: byte, data: Bytes)               // E'...'
    | Name(data: Bytes)                          // "..."
    | Dollars(tag: Bytes, body: Bytes)           // $tag$...$tag$
    | Line(text: Bytes)                          // --...
    | Block(comment: Comment)                    // /*...*/
    | Identifier(word: Bytes)
    | Mark(c: byte)                              // ( ) ,
    | Stop                                       // ;
    | Question                                   // ?
    | Parameter(name: Bytes)                     // :name
    | Number(n: nat)                             // $n
    | DollarName(name: Bytes)                    // $name
    | QuotedDollar(data: Bytes)                  // $"..."
    | Colons(more: nat)                          // :: and more of them
    | Questions(more: nat)                       // ?? and more of them

  predicate PartValid(p: Part)
  {
    match p
    case Escape(e, _) => e == 69 || e == 101
    case Dollars(tag, body) => TagValid(tag) && OnlyAtEnd(body, Delimiter(tag))
    case Line(text) => OneLine(text)
    case Block(comment) => CommentValid(comment)
    case Identifier(word) =>
      word != [] && (Letter(word[0]) || word[0] == 95) && forall i :: 0 <= i < |word| ==> T.WordContinue(word[i])
    case Mark(c) => c == 40 || c == 41 || c == 44
    case Parameter(name) => name != [] && forall i :: 0 <= i < |name| ==> ParameterChar(name[i])
    case DollarName(name) => name != [] && !Digit(name[0]) && forall i :: 0 <= i < |name| ==> ParameterChar(name[i])
    case QuotedDollar(data) => data != []
    case _ => true
  }

  function Spell(p: Part): (text: Bytes)
    ensures text != []
  {
    match p
    case Literal(data) => Quotation(data, QUOTE)
    case Escape(e, data) => EscapeLiteral(e, data)
    case Name(data) => Quotation(data, DOUBLE_QUOTE)
    case Dollars(tag, body) => DollarText(tag, body)
    case Line(text) => [45, 45] + text
    case Block(comment) => [47, 42] + CommentText(comment)
    case Identifier(word) => if word == [] then [95] else word
    case Mark(c) => [c]
    case Stop => [SEMICOLON]
    case Question => [QUESTION]
    case Parameter(name) => [COLON] + name
    case Number(n) => [DOLLAR] + DigitsOf(n)
    case DollarName(name) => [DOLLAR] + name
    case QuotedDollar(data) => [DOLLAR] + Quotation(data, DOUBLE_QUOTE)
    case Colons(more) => Run(COLON, more + 2)
    case Questions(more) => Run(QUESTION, more + 2)
  }

  function Run(c: byte, n: nat): (r: Bytes)
    ensures |r| == n && forall i :: 0 <= i < n ==> r[i] == c
  {
    seq(n, _ => c)
  }

  function Written(parts: seq<Part>): Bytes
  {
    if parts == [] then [] else Spell(parts[0]) + ([BREAK] + Written(parts[1..]))
  }

  ghost predicate AllValid(parts: seq<Part>) { forall i :: 0 <= i < |parts| ==> PartValid(parts[i]) }

  // ---- The placeholder scanner ----

  function KindOf(p: Part, seen: bool): Kind
  {
    match p
    case Literal(_) => Quoted
    case Escape(_, _) => Escaped
    case Name(_) => Quoted
    case Dollars(_, _) => DollarQuoted
    case Line(_) => White
    case Block(_) => White
    case Identifier(_) => Word
    case Mark(_) => Other
    case Stop => if seen then Other else White
    case Question => Positional
    case Parameter(_) => Named
    case Number(n) => Native(DigitsOf(n), true, 0)
    case DollarName(name) => Native(name, false, 0)
    case QuotedDollar(data) => Native(Twice(data, DOUBLE_QUOTE), false, DOUBLE_QUOTE)
    case Colons(_) => Cast
    case Questions(_) => QuestionRun
  }

  function Seen(p: Part, seen: bool): bool { seen || Significant(KindOf(p, seen)) }

  function Meant(p: Part, seen: bool): seq<Item>
  {
    if KindOf(p, seen) == White then [] else [Item(KindOf(p, seen), Spell(p))]
  }

  function AllMeant(parts: seq<Part>, seen: bool): seq<Item>
  {
    if parts == [] then [] else Meant(parts[0], seen) + AllMeant(parts[1..], Seen(parts[0], seen))
  }

  ghost predicate Scans(prev: int, p: Part, rest: Bytes, seen: bool)
  {
    Lex(prev, Spell(p) + rest, seen) == Lexeme(KindOf(p, seen), |Spell(p)|)
  }

  lemma DollarsScan(prev: int, tag: Bytes, body: Bytes, rest: Bytes, seen: bool)
    requires TagValid(tag) && OnlyAtEnd(body, Delimiter(tag))
    ensures Scans(prev, Dollars(tag, body), rest, seen)
  {
    DollarTextLength(tag, body, rest);
    assert TriviaStep(DollarText(tag, body) + rest) == 0;
  }

  lemma {:induction false} WordScans(prev: int, word: Bytes, rest: Bytes, seen: bool)
    requires PartValid(Identifier(word)) && rest != [] && rest[0] == BREAK
    ensures Scans(prev, Identifier(word), rest, seen)
  {
    var r := word + rest;
    WordRun(word[1..], rest);
    assert r[1..] == word[1..] + rest;
    assert TriviaStep(r) == 0;
    assert |word| > 1 ==> r[1] == word[1];
  }

  lemma {:induction false} WordRun(word: Bytes, rest: Bytes)
    requires (forall i :: 0 <= i < |word| ==> T.WordContinue(word[i])) && rest != [] && rest[0] == BREAK
    ensures WordLength(word + rest) == |word| && T.DriverWordLength(word + rest) == |word|
  {
    if word == [] {
      assert word + rest == rest;
    } else {
      WordRun(word[1..], rest);
      assert (word + rest)[1..] == word[1..] + rest;
    }
  }

  lemma {:induction false} NameRun(name: Bytes, rest: Bytes)
    requires (forall i :: 0 <= i < |name| ==> ParameterChar(name[i])) && rest != [] && rest[0] == BREAK
    ensures ParameterLength(name + rest) == |name|
  {
    if name == [] {
      assert name + rest == rest;
    } else {
      NameRun(name[1..], rest);
      assert (name + rest)[1..] == name[1..] + rest;
    }
  }

  lemma ParameterScans(prev: int, name: Bytes, rest: Bytes, seen: bool)
    requires PartValid(Parameter(name)) && !IdentifierContinue(prev) && rest != [] && rest[0] == BREAK
    ensures Scans(prev, Parameter(name), rest, seen)
  {
    var r := [COLON] + name + rest;
    NameRun(name, rest);
    assert r[1] == name[0] && r[1..] == name + rest;
    assert TriviaStep(r) == 0;
  }

  lemma NumberScans(prev: int, n: nat, rest: Bytes, seen: bool)
    requires rest != [] && rest[0] == BREAK
    ensures Scans(prev, Number(n), rest, seen)
  {
    var text := [DOLLAR] + DigitsOf(n);
    assert text[1..] == DigitsOf(n);
    NumberLexed(prev, text, rest, seen);
    assert (text + rest)[1..|text|] == DigitsOf(n);
  }

  lemma {:induction false} DollarNameRun(name: Bytes, rest: Bytes)
    requires (forall i :: 0 <= i < |name| ==> ParameterChar(name[i])) && rest != [] && rest[0] == BREAK
    ensures NameLength(name + rest) == |name|
  {
    if name == [] {
      assert name + rest == rest;
    } else {
      DollarNameRun(name[1..], rest);
      assert (name + rest)[1..] == name[1..] + rest;
    }
  }

  // A $ that opens no text is read with the name behind it.
  lemma DollarLex(prev: int, x: Bytes, seen: bool)
    requires x != [] && x[0] < 128 && TriviaStep(x) == 0 && DollarQuotedLength([DOLLAR] + x) == 0
    ensures Lex(prev, [DOLLAR] + x, seen) == Lexeme(LexName(x).kind, 1 + LexName(x).length)
  {
    var r := [DOLLAR] + x;
    assert r[1..] == x && r[1] == x[0];
    assert TriviaStep(r) == 0 && NameStart(r) == 1;
  }

  lemma NoTag(name: Bytes, rest: Bytes)
    requires PartValid(DollarName(name)) && rest != [] && rest[0] == BREAK
    ensures DollarQuotedLength([DOLLAR] + (name + rest)) == 0
  {
    var r := [DOLLAR] + (name + rest);
    assert r[2..] == name[1..] + rest && r[1] == name[0];
    TagEnds(name[1..], rest);
    assert r[2 + (|name| - 1)] == BREAK;
  }

  lemma DollarNameScans(prev: int, name: Bytes, rest: Bytes, seen: bool)
    requires PartValid(DollarName(name)) && rest != [] && rest[0] == BREAK
    ensures Scans(prev, DollarName(name), rest, seen)
  {
    var x := name + rest;
    NoTag(name, rest);
    DollarNameRun(name, rest);
    assert TriviaStep(x) == 0;
    DollarLex(prev, x, seen);
    assert x[..|name|] == name;
    assert [DOLLAR] + name + rest == [DOLLAR] + x;
  }

  lemma QuotedDollarScans(prev: int, data: Bytes, rest: Bytes, seen: bool)
    requires PartValid(QuotedDollar(data)) && rest != [] && rest[0] == BREAK
    ensures Scans(prev, QuotedDollar(data), rest, seen)
  {
    var text := Quotation(data, DOUBLE_QUOTE);
    var x := text + rest;
    QuotedName(data, rest);
    assert TriviaStep(x) == 0;
    assert ([DOLLAR] + x)[1] == DOUBLE_QUOTE;
    DollarLex(prev, x, seen);
    assert [DOLLAR] + text + rest == [DOLLAR] + x;
  }

  lemma QuotedName(data: Bytes, rest: Bytes)
    requires data != [] && rest != [] && rest[0] == BREAK
    ensures LexName(Quotation(data, DOUBLE_QUOTE) + rest)
         == Lexeme(Native(Twice(data, DOUBLE_QUOTE), false, DOUBLE_QUOTE), |Quotation(data, DOUBLE_QUOTE)|)
  {
    var text := Quotation(data, DOUBLE_QUOTE);
    var x := text + rest;
    TwiceLength(data, DOUBLE_QUOTE, rest);
    QuotationParts(data, DOUBLE_QUOTE, rest);
    assert |text| > 2 && x[|text| - 1] == DOUBLE_QUOTE && x[1..|text| - 1] == Twice(data, DOUBLE_QUOTE);
  }

  lemma {:induction false} RunEnds(c: byte, n: nat, rest: Bytes)
    requires rest != [] && rest[0] != c
    ensures RunLength(Run(c, n) + rest, c) == n
  {
    var r := Run(c, n) + rest;
    if n > 0 {
      RunEnds(c, n - 1, rest);
      assert r[1..] == Run(c, n - 1) + rest;
    }
  }

  lemma RunScans(prev: int, p: Part, rest: Bytes, seen: bool)
    requires (p.Colons? || p.Questions?) && rest != [] && rest[0] == BREAK
    ensures Scans(prev, p, rest, seen)
  {
    var c: byte := if p.Colons? then COLON else QUESTION;
    var r := Run(c, p.more + 2) + rest;
    RunEnds(c, p.more + 1, rest);
    assert r[1..] == Run(c, p.more + 1) + rest;
    assert TriviaStep(r) == 0;
  }

  lemma SingleScans(prev: int, p: Part, rest: Bytes, seen: bool)
    requires PartValid(p) && (p.Mark? || p == Stop || p == Question) && rest != [] && rest[0] == BREAK
    ensures Scans(prev, p, rest, seen)
  {
    assert TriviaStep(Spell(p) + rest) == 0;
  }

  lemma CommentScans(prev: int, p: Part, rest: Bytes, seen: bool)
    requires PartValid(p) && (p.Line? || p.Block?) && rest != [] && rest[0] == BREAK
    ensures TriviaStep(Spell(p) + rest) == |Spell(p)| && Scans(prev, p, rest, seen)
  {
    match p
    case Line(text) => LineCommentStep(text, rest);
    case Block(comment) => BlockCommentStep(comment, rest);
  }

  lemma PartScans(prev: int, p: Part, rest: Bytes, seen: bool)
    requires PartValid(p) && !IdentifierContinue(prev) && rest != [] && rest[0] == BREAK
    ensures Scans(prev, p, rest, seen)
  {
    match p
    case Literal(data) => QuotationScans(prev, data, QUOTE, rest, seen);
    case Escape(e, data) => EscapeLiteralScans(prev, e, data, rest, seen);
    case Name(data) => QuotationScans(prev, data, DOUBLE_QUOTE, rest, seen);
    case Dollars(tag, body) => DollarsScan(prev, tag, body, rest, seen);
    case Line(_) => CommentScans(prev, p, rest, seen);
    case Block(_) => CommentScans(prev, p, rest, seen);
    case Identifier(word) => WordScans(prev, word, rest, seen);
    case Parameter(name) => ParameterScans(prev, name, rest, seen);
    case Number(n) => NumberScans(prev, n, rest, seen);
    case DollarName(name) => DollarNameScans(prev, name, rest, seen);
    case QuotedDollar(data) => QuotedDollarScans(prev, data, rest, seen);
    case Colons(_) => RunScans(prev, p, rest, seen);
    case Questions(_) => RunScans(prev, p, rest, seen);
    case _ => SingleScans(prev, p, rest, seen);
  }

  lemma BreakScans(prev: int, rest: Bytes, seen: bool)
    ensures Tokens(Items(prev, [BREAK] + rest, seen)) == Tokens(Items(BREAK, rest, seen))
  {
    var r := [BREAK] + rest;
    assert TriviaStep(r) == 1 && r[1..] == rest;
    var items := Items(BREAK, rest, seen);
    assert Items(prev, r, seen) == [Item(White, r[..1])] + items;
    TokensCons(Item(White, r[..1]), items);
  }

  lemma PartTokens(prev: int, p: Part, rest: Bytes, seen: bool)
    requires Scans(prev, p, [BREAK] + rest, seen)
    ensures Tokens(Items(prev, Spell(p) + ([BREAK] + rest), seen)) == Meant(p, seen) + Tokens(Items(BREAK, rest, Seen(p, seen)))
  {
    var text := Spell(p);
    KeepTokens(prev, Item(KindOf(p, seen), text), [BREAK] + rest, seen);
    TokensCons(Item(KindOf(p, seen), text), []);
    assert [Item(KindOf(p, seen), text)] + [] == [Item(KindOf(p, seen), text)];
    BreakScans(text[|text| - 1], rest, Seen(p, seen));
  }

  // What is written part by part is scanned part by part, and comments are gone.
  lemma {:induction false} WritingScans(prev: int, parts: seq<Part>, seen: bool)
    requires AllValid(parts) && !IdentifierContinue(prev)
    ensures Tokens(Items(prev, Written(parts), seen)) == AllMeant(parts, seen)
    decreases |parts|
  {
    if parts != [] {
      PartScans(prev, parts[0], [BREAK] + Written(parts[1..]), seen);
      PartTokens(prev, parts[0], Written(parts[1..]), seen);
      WritingScans(BREAK, parts[1..], Seen(parts[0], seen));
    }
  }

  // ---- What counts as a placeholder ----

  // The placeholders a writer means.
  function Asked(parts: seq<Part>): seq<Bytes>
  {
    if parts == [] then []
    else (if parts[0] == Question || parts[0].Parameter? then [Spell(parts[0])] else []) + Asked(parts[1..])
  }

  lemma {:induction false} TextsOfTokens(items: seq<Item>)
    ensures PdoTexts(Tokens(items)) == PdoTexts(items)
  {
    if items != [] {
      TextsOfTokens(items[1..]);
      TextsConcat(TokenOf(items[0]), Tokens(items[1..]));
    }
  }

  lemma {:induction false} TextsConcat(a: seq<Item>, b: seq<Item>)
    requires |a| <= 1
    ensures PdoTexts(a + b) == PdoTexts(a) + PdoTexts(b)
  {
    if a == [] {
      assert a + b == b;
    } else {
      assert (a + b)[1..] == b && a[1..] == [];
      assert PdoTexts(a) == ItemTexts(a[0]);
    }
  }

  lemma {:induction false} MeantTexts(parts: seq<Part>, seen: bool)
    ensures PdoTexts(AllMeant(parts, seen)) == Asked(parts)
  {
    if parts != [] {
      MeantTexts(parts[1..], Seen(parts[0], seen));
      TextsConcat(Meant(parts[0], seen), AllMeant(parts[1..], Seen(parts[0], seen)));
      assert Meant(parts[0], seen) != [] ==> Meant(parts[0], seen)[1..] == [];
    }
  }

  // Whatever stands in literals, quoted names and comments: the placeholders of a
  // statement are those written as such.
  lemma OnlyAskedCount(parts: seq<Part>)
    requires AllValid(parts)
    ensures PdoTexts(ItemsOf(Written(parts))) == Asked(parts)
  {
    WritingScans(-1, parts, false);
    TextsOfTokens(ItemsOf(Written(parts)));
    MeantTexts(parts, false);
  }

  lemma {:induction false} TokensHold(items: seq<Item>, i: Item)
    requires PdoKind(i.kind)
    ensures i in Tokens(items) <==> i in items
  {
    if items != [] {
      TokensHold(items[1..], i);
      assert items == [items[0]] + items[1..];
    }
  }

  lemma {:induction false} MeantHold(parts: seq<Part>, seen: bool, p: Part)
    requires p == Question || p.Parameter?
    ensures Item(KindOf(p, true), Spell(p)) in AllMeant(parts, seen) <==> p in parts
  {
    if parts != [] {
      MeantHold(parts[1..], Seen(parts[0], seen), p);
      assert parts == [parts[0]] + parts[1..];
      if Item(KindOf(p, true), Spell(p)) in Meant(parts[0], seen) {
        SpeltAlike(parts[0], p);
      }
    }
  }

  lemma SpeltAlike(p: Part, q: Part)
    requires Spell(p) == Spell(q) && KindOf(p, true) == KindOf(q, true) && (q == Question || q.Parameter?)
    ensures p == q
  {
    if q.Parameter? {
      assert Spell(p)[1..] == p.name && Spell(q)[1..] == q.name;
    }
  }

  lemma {:induction false} MeantFrom(parts: seq<Part>, seen: bool, i: Item)
    requires PdoKind(i.kind) && i in AllMeant(parts, seen)
    ensures exists p :: p in parts && (if i.kind == Positional then p == Question else p.Parameter?) && i.text == Spell(p)
  {
    if i !in Meant(parts[0], seen) {
      MeantFrom(parts[1..], Seen(parts[0], seen), i);
      var p :| p in parts[1..] && (if i.kind == Positional then p == Question else p.Parameter?) && i.text == Spell(p);
      assert p in parts;
    }
  }

  // A statement is planned unless it is written with placeholders of both styles.
  lemma PlannedUnlessMixed(parts: seq<Part>, legacy: bool)
    requires AllValid(parts) && 0 !in Written(parts)
    ensures NumbersOf(Written(parts), legacy).Err? <==> Question in parts && exists p :: p in parts && p.Parameter?
  {
    var items := ItemsOf(Written(parts));
    WritingScans(-1, parts, false);
    RefusedExactlyWhenMixed(items, legacy);
    if Question in parts && exists p :: p in parts && p.Parameter? {
      var p :| p in parts && p.Parameter?;
      var i, j := BothKinds(items, parts, p);
    }
    if i, j :| 0 <= j < i < |items| && PdoKind(items[i].kind) && PdoKind(items[j].kind) && items[j].kind != items[i].kind {
      TokensHold(items, items[i]);
      TokensHold(items, items[j]);
      MeantFrom(parts, false, items[i]);
      MeantFrom(parts, false, items[j]);
    }
  }

  lemma BothKinds(items: seq<Item>, parts: seq<Part>, p: Part) returns (i: nat, j: nat)
    requires Tokens(items) == AllMeant(parts, false) && Question in parts && p in parts && p.Parameter?
    ensures j < i < |items| && PdoKind(items[i].kind) && PdoKind(items[j].kind) && items[j].kind != items[i].kind
  {
    i := PlaceOf(items, parts, Question);
    j := PlaceOf(items, parts, p);
    if i < j {
      i, j := j, i;
    }
  }

  lemma PlaceOf(items: seq<Item>, parts: seq<Part>, p: Part) returns (i: nat)
    requires Tokens(items) == AllMeant(parts, false) && p in parts && (p == Question || p.Parameter?)
    ensures i < |items| && items[i].kind == KindOf(p, true)
  {
    var item := Item(KindOf(p, true), Spell(p));
    MeantHold(parts, false, p);
    TokensHold(items, item);
    i :| 0 <= i < |items| && items[i] == item;
  }

  // ---- The transaction scanner ----

  // The parts both scanners take for one token, or none.
  predicate Shared(p: Part)
  {
    !p.Parameter? && !p.Number? && !p.DollarName? && !p.QuotedDollar? && !p.Colons? && !p.Questions?
  }

  function DriverMeant(p: Part): seq<T.Token>
  {
    match p
    case Line(_) => []
    case Block(_) => []
    case Name(data) => [T.Token(T.QuotedWord, Twice(data, DOUBLE_QUOTE))]
    case Identifier(word) => [T.Token(T.Word, Spell(p))]
    case Mark(c) => [T.Token(if c == 40 then T.LeftParen else if c == 41 then T.RightParen else T.Comma, [])]
    case Stop => [T.Token(T.Semicolon, [])]
    case _ => [T.Token(T.Other, [])]
  }

  function AllDriverMeant(parts: seq<Part>): seq<T.Token>
  {
    if parts == [] then [] else DriverMeant(parts[0]) + AllDriverMeant(parts[1..])
  }

  lemma SkipWhite(r: Bytes, k: nat)
    requires k == TriviaStep(r) > 0
    ensures T.TokensOf(r) == T.TokensOf(r[k..])
  {
    T.NextStep(r);
  }

  lemma {:induction false} NameCloses(data: Bytes, quote: byte, rest: Bytes)
    requires rest == [] || rest[0] != quote
    ensures T.Closes(Twice(data, quote) + [quote] + rest, quote)
  {
    var r := Twice(data, quote) + [quote] + rest;
    if data != [] {
      NameCloses(data[1..], quote, rest);
      var tail := Twice(data[1..], quote) + [quote] + rest;
      if data[0] == quote {
        assert r[2..] == tail;
      } else {
        assert r[1..] == tail;
      }
    }
  }

  lemma NameTurn(data: Bytes, rest: Bytes)
    requires rest == [] || rest[0] != DOUBLE_QUOTE
    ensures T.TurnOf(Quotation(data, DOUBLE_QUOTE) + rest)
         == T.Turn(T.Token(T.QuotedWord, Twice(data, DOUBLE_QUOTE)), |Quotation(data, DOUBLE_QUOTE)|)
  {
    var r := Quotation(data, DOUBLE_QUOTE) + rest;
    TwiceLength(data, DOUBLE_QUOTE, rest);
    QuotationParts(data, DOUBLE_QUOTE, rest);
    NameCloses(data, DOUBLE_QUOTE, rest);
    assert TriviaStep(r) == 0;
    assert r[1..|Quotation(data, DOUBLE_QUOTE)| - 1] == Twice(data, DOUBLE_QUOTE);
  }

  lemma LiteralTurn(data: Bytes, rest: Bytes)
    requires rest == [] || rest[0] != QUOTE
    ensures T.TurnOf(Quotation(data, QUOTE) + rest) == T.Turn(T.Token(T.Other, []), |Quotation(data, QUOTE)|)
  {
    TwiceLength(data, QUOTE, rest);
    QuotationParts(data, QUOTE, rest);
    assert TriviaStep(Quotation(data, QUOTE) + rest) == 0;
  }

  lemma EscapeTurn(e: byte, data: Bytes, rest: Bytes)
    requires (e == 69 || e == 101) && (rest == [] || rest[0] != QUOTE)
    ensures T.TurnOf(EscapeLiteral(e, data) + rest) == T.Turn(T.Token(T.Other, []), |EscapeLiteral(e, data)|)
  {
    BackslashedLength(data, rest);
    EscapeParts(e, data, rest);
    assert TriviaStep(EscapeLiteral(e, data) + rest) == 0;
  }

  lemma WordTurn(word: Bytes, rest: Bytes)
    requires PartValid(Identifier(word)) && rest != [] && rest[0] == BREAK
    ensures T.TurnOf(word + rest) == T.Turn(T.Token(T.Word, word), |word|)
  {
    var r := word + rest;
    WordRun(word[1..], rest);
    assert r[1..] == word[1..] + rest && r[..|word|] == word;
    assert TriviaStep(r) == 0;
    assert |word| > 1 ==> r[1] == word[1];
  }

  lemma OtherTurn(p: Part, rest: Bytes)
    requires PartValid(p) && (p.Dollars? || p.Mark? || p == Stop || p == Question) && rest != [] && rest[0] == BREAK
    ensures T.TurnOf(Spell(p) + rest) == T.Turn(DriverMeant(p)[0], |Spell(p)|)
  {
    if p.Dollars? {
      DollarTextLength(p.tag, p.body, rest);
    }
    assert TriviaStep(Spell(p) + rest) == 0;
  }

  lemma PartTurn(p: Part, rest: Bytes)
    requires PartValid(p) && Shared(p) && !p.Line? && !p.Block? && rest != [] && rest[0] == BREAK
    ensures TriviaStep(Spell(p) + rest) == 0 && T.TurnOf(Spell(p) + rest) == T.Turn(DriverMeant(p)[0], |Spell(p)|)
  {
    match p
    case Literal(data) => LiteralTurn(data, rest);
    case Escape(e, data) => EscapeTurn(e, data, rest);
    case Name(data) => NameTurn(data, rest);
    case Identifier(word) => WordTurn(word, rest);
    case _ => OtherTurn(p, rest);
  }

  lemma PartRead(p: Part, rest: Bytes)
    requires PartValid(p) && Shared(p)
    ensures T.TokensOf(Spell(p) + ([BREAK] + rest)) == DriverMeant(p) + T.TokensOf(rest)
  {
    var text, tail := Spell(p), [BREAK] + rest;
    var r := text + tail;
    assert r[|text|..] == tail;
    assert TriviaStep(tail) == 1 && tail[1..] == rest;
    SkipWhite(tail, 1);
    if p.Line? || p.Block? {
      CommentScans(-1, p, tail, false);
      SkipWhite(r, |text|);
    } else {
      PartTurn(p, tail);
      T.NextStep(r);
    }
  }

  // The transaction scanner takes the same parts for the same.
  lemma {:induction false} WritingRead(parts: seq<Part>)
    requires AllValid(parts) && forall i :: 0 <= i < |parts| ==> Shared(parts[i])
    ensures T.TokensOf(Written(parts)) == AllDriverMeant(parts)
  {
    if parts != [] {
      PartRead(parts[0], Written(parts[1..]));
      WritingRead(parts[1..]);
    }
  }
}
