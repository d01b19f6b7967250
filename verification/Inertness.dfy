// The texts the driver puts in place of placeholders: each one is read by the
// scanner as itself, whatever stands around it.
module Inertness {
  import opened Text
  import opened Digits
  import opened SqlLexer
  import opened Replace
  import opened Plan
  import opened Render

  // ---- A quoted text is one literal ----

  lemma {:induction false} DoubledLength(data: Bytes, rest: Bytes)
    requires rest == [] || rest[0] != QUOTE
    ensures QuotedLength(Doubled(data) + [QUOTE] + rest, QUOTE, false) == |Doubled(data)| + 1
  {
    var r := Doubled(data) + [QUOTE] + rest;
    if data != [] {
      DoubledLength(data[1..], rest);
      var tail := Doubled(data[1..]) + [QUOTE] + rest;
      if data[0] == QUOTE {
        assert r[2..] == tail;
      } else {
        assert r[1..] == tail;
      }
    }
  }

  // What a reader of the literal gets back.
  function Unquoted(body: Bytes): Bytes
  {
    if body == [] then []
    else if body[0] == QUOTE && |body| > 1 && body[1] == QUOTE then [QUOTE] + Unquoted(body[2..])
    else [body[0]] + Unquoted(body[1..])
  }

  lemma {:induction false} UnquotedDoubled(data: Bytes)
    ensures Unquoted(Doubled(data)) == data
  {
    if data != [] {
      UnquotedDoubled(data[1..]);
      if data[0] == QUOTE {
        assert Doubled(data)[2..] == Doubled(data[1..]);
      } else {
        assert Doubled(data)[1..] == Doubled(data[1..]);
      }
    }
  }

  // Quoting then scanning: the literal is read whole, it ends where it was
  // closed, and reading it gives the value back.
  lemma LiteralScans(prev: int, data: Bytes, rest: Bytes, seen: bool)
    requires rest == [] || rest[0] != QUOTE
    ensures var text := Literal(Doubled(data));
            && Lex(prev, text + rest, seen) == Lexeme(Quoted, |text|)
            && Unquoted(text[1..|text| - 1]) == data
  {
    var text := Literal(Doubled(data));
    DoubledLength(data, rest);
    UnquotedDoubled(data);
    LiteralParts(Doubled(data), rest);
    assert TriviaStep(text + rest) == 0;
  }

  lemma LiteralParts(d: Bytes, rest: Bytes)
    ensures (Literal(d) + rest)[1..] == d + [QUOTE] + rest
    ensures Literal(d)[1..|Literal(d)| - 1] == d
  {
  }

  lemma BeforeSpace(prev: int, rest: Bytes, seen: bool)
    ensures Tokens(Items(prev, [SPACE] + rest, seen)) == Tokens(Items(SPACE, rest, seen))
  {
    StepSpace(prev, rest, seen);
  }

  // A text made of tokens, each of which ends where the next begins.
  ghost predicate Chain(prev: int, items: seq<Item>, rest: Bytes, seen: bool)
    decreases |items|
  {
    items == []
    || (var i := items[0];
        && i.text != [] && (seen || Significant(i.kind))
        && Lex(prev, i.text + (Concat(items[1..]) + rest), seen) == Lexeme(i.kind, |i.text|)
        && Chain(i.text[|i.text| - 1], items[1..], rest, true))
  }

  function LastByte(prev: int, items: seq<Item>): int
    decreases |items|
  {
    if items == [] then prev
    else LastByte(if items[0].text == [] then prev else items[0].text[|items[0].text| - 1], items[1..])
  }

  ghost predicate ChainReads(prev: int, items: seq<Item>, rest: Bytes, seen: bool)
  {
    Tokens(Items(prev, Concat(items) + rest, seen))
    == Tokens(items) + Tokens(Items(LastByte(prev, items), rest, seen || items != []))
  }

  // The item i is read first, then what the rest is read as.
  lemma ReadFirst(prev: int, i: Item, rest: Bytes, seen: bool, head: seq<Item>, tail: seq<Item>)
    requires i.text != [] && (seen || Significant(i.kind)) && Lex(prev, i.text + rest, seen) == Lexeme(i.kind, |i.text|)
    requires Tokens(Items(i.text[|i.text| - 1], rest, true)) == head + tail
    ensures Tokens(Items(prev, i.text + rest, seen)) == Tokens([i]) + head + tail
  {
    KeepTokens(prev, i, rest, seen);
  }

  lemma ChainStep(prev: int, i: Item, items: seq<Item>, rest: Bytes, seen: bool)
    requires i.text != [] && (seen || Significant(i.kind))
    requires Lex(prev, i.text + (Concat(items) + rest), seen) == Lexeme(i.kind, |i.text|)
    requires ChainReads(i.text[|i.text| - 1], items, rest, true)
    ensures ChainReads(prev, [i] + items, rest, seen)
  {
    ReadFirst(prev, i, Concat(items) + rest, seen, Tokens(items),
              Tokens(Items(LastByte(i.text[|i.text| - 1], items), rest, true)));
    ChainParts(i, items, rest);
    TokensConcat([i], items);
  }

  lemma ChainParts(i: Item, items: seq<Item>, rest: Bytes)
    requires i.text != []
    ensures Concat([i] + items) + rest == i.text + (Concat(items) + rest)
    ensures forall prev: int :: LastByte(prev, [i] + items) == LastByte(i.text[|i.text| - 1], items)
  {
    assert ([i] + items)[1..] == items;
    assert Concat([i] + items) == i.text + Concat(items);
  }

  lemma {:induction false} ChainTokens(prev: int, items: seq<Item>, rest: Bytes, seen: bool)
    requires Chain(prev, items, rest, seen)
    ensures ChainReads(prev, items, rest, seen)
    decreases |items|
  {
    if items == [] {
      assert Concat(items) + rest == rest;
    } else {
      var i := items[0];
      ChainTokens(i.text[|i.text| - 1], items[1..], rest, true);
      ChainStep(prev, i, items[1..], rest, seen);
      assert items == [i] + items[1..];
    }
  }

  lemma ChainOwn(items: seq<Item>)
    requires items != [] && Chain(SPACE, items, [], true)
    ensures OwnTokens(Concat(items)) == Tokens(items)
  {
    ChainTokens(SPACE, items, [], true);
    assert Concat(items) + [] == Concat(items);
  }

  lemma ChainBlank(items: seq<Item>, rest: Bytes, seen: bool)
    requires items != [] && Chain(SPACE, items, [SPACE] + rest, seen)
    ensures Tokens(Items(SPACE, Concat(items) + [SPACE] + rest, seen)) == Tokens(items) + Tokens(Items(SPACE, rest, true))
  {
    ChainTokens(SPACE, items, [SPACE] + rest, seen);
    assert Concat(items) + ([SPACE] + rest) == Concat(items) + [SPACE] + rest;
    BeforeSpace(LastByte(SPACE, items), rest, true);
  }

  // A chain that holds at the end of the text and before any blank is inert.
  lemma ChainInert(items: seq<Item>)
    requires items != [] && Chain(SPACE, items, [], true)
    requires forall rest: Bytes, seen: bool :: Chain(SPACE, items, [SPACE] + rest, seen)
    ensures Inert(Concat(items)) && OwnTokens(Concat(items)) == Tokens(items)
  {
    ChainOwn(items);
    assert Concat(items) != [];
    forall rest: Bytes, seen: bool
      ensures Tokens(Items(SPACE, Concat(items) + [SPACE] + rest, seen))
           == OwnTokens(Concat(items)) + Tokens(Items(SPACE, rest, true))
    {
      ChainBlank(items, rest, seen);
    }
  }

  lemma TextInert(data: Bytes)
    ensures var text := Literal(Doubled(data)); Inert(text) && OwnTokens(text) == [Item(Quoted, text)]
  {
    var text := Literal(Doubled(data));
    var items := [Item(Quoted, text)];
    assert Concat(items[1..]) == [];
    assert Concat(items) == text + [] == text;
    forall rest: Bytes, seen: bool | rest == [] || rest[0] != QUOTE
      ensures Chain(SPACE, items, rest, seen)
    {
      LiteralScans(SPACE, data, rest, seen);
      assert [] + rest == rest;
      assert Concat(items[1..]) + rest == rest;
      assert Chain(text[|text| - 1], [], rest, true);
    }
    ChainInert(items);
    assert Tokens(items) == items + Tokens(items[1..]) == items;
  }

  // ---- The SQL the driver writes for the other values ----

  // A chain after any byte, in front of anything that starts no identifier.
  ghost predicate Chained(items: seq<Item>, rest: Bytes)
  {
    forall prev: int, seen: bool :: seen || (items != [] && Significant(items[0].kind)) ==> Chain(prev, items, rest, seen)
  }

  lemma ChainedCons(i: Item, items: seq<Item>, rest: Bytes)
    requires Chained(items, rest) && i.text != []
    requires forall prev: int, seen: bool :: seen || Significant(i.kind) ==>
               Lex(prev, i.text + (Concat(items) + rest), seen) == Lexeme(i.kind, |i.text|)
    ensures Chained([i] + items, rest)
  {
    assert ([i] + items)[1..] == items && ([i] + items)[0] == i;
  }

  predicate Plain(w: Bytes)
  {
    && w != [] && Letter(w[0]) && w[0] != 101 && w[0] != 69
    && forall k :: 0 <= k < |w| ==> IdentifierContinue(w[k])
  }

  lemma {:induction false} WordWhole(w: Bytes, rest: Bytes)
    requires forall k :: 0 <= k < |w| ==> IdentifierContinue(w[k])
    requires rest == [] || !IdentifierContinue(rest[0])
    ensures WordLength(w + rest) == |w|
  {
    if w != [] {
      WordWhole(w[1..], rest);
      assert (w + rest)[1..] == w[1..] + rest;
    } else {
      assert w + rest == rest;
    }
  }

  lemma WordLex(prev: int, w: Bytes, tail: Bytes, seen: bool)
    requires Plain(w) && (tail == [] || !IdentifierContinue(tail[0]))
    ensures Lex(prev, w + tail, seen) == Lexeme(Word, |w|)
  {
    WordWhole(w[1..], tail);
    assert (w + tail)[1..] == w[1..] + tail;
    assert TriviaStep(w + tail) == 0;
  }

  lemma WordCons(w: Bytes, items: seq<Item>, rest: Bytes)
    requires Plain(w) && Chained(items, rest)
    requires var tail := Concat(items) + rest; tail == [] || !IdentifierContinue(tail[0])
    ensures Chained([Item(Word, w)] + items, rest)
  {
    forall prev: int, seen: bool
      ensures Lex(prev, w + (Concat(items) + rest), seen) == Lexeme(Word, |w|)
    {
      WordLex(prev, w, Concat(items) + rest, seen);
    }
    ChainedCons(Item(Word, w), items, rest);
  }

  // A byte that is a token by itself wherever it stands.
  predicate Single(c: byte) { c == 40 || c == 41 || c == 46 || Digit(c) }

  lemma SingleCons(c: byte, items: seq<Item>, rest: Bytes)
    requires Single(c) && Chained(items, rest)
    ensures Chained([Item(Other, [c])] + items, rest)
  {
    var r := [c] + (Concat(items) + rest);
    assert TriviaStep(r) == 0;
    ChainedCons(Item(Other, [c]), items, rest);
  }

  lemma MinusCons(items: seq<Item>, rest: Bytes)
    requires Chained(items, rest)
    requires var tail := Concat(items) + rest; tail == [] || tail[0] != 45
    ensures Chained([Item(Other, [45])] + items, rest)
  {
    var r := [45] + (Concat(items) + rest);
    assert TriviaStep(r) == 0;
    ChainedCons(Item(Other, [45]), items, rest);
  }

  lemma SpaceCons(items: seq<Item>, rest: Bytes)
    requires Chained(items, rest)
    ensures Chained([Item(White, [SPACE])] + items, rest)
  {
    var r := [SPACE] + (Concat(items) + rest);
    assert TriviaStep(r) == 1;
    ChainedCons(Item(White, [SPACE]), items, rest);
  }

  lemma LiteralCons(data: Bytes, items: seq<Item>, rest: Bytes)
    requires Chained(items, rest)
    requires var tail := Concat(items) + rest; tail == [] || tail[0] != QUOTE
    ensures Chained([Item(Quoted, Literal(Doubled(data)))] + items, rest)
  {
    forall prev: int, seen: bool
      ensures Lex(prev, Literal(Doubled(data)) + (Concat(items) + rest), seen) == Lexeme(Quoted, |Literal(Doubled(data))|)
    {
      LiteralScans(prev, data, Concat(items) + rest, seen);
    }
    ChainedCons(Item(Quoted, Literal(Doubled(data))), items, rest);
  }

  // What follows a bound text: nothing, or the blank after it.
  predicate After(rest: Bytes) { rest == [] || rest[0] == SPACE }

  lemma ChainedInert(items: seq<Item>)
    requires items != [] && Significant(items[0].kind)
    requires forall rest: Bytes :: After(rest) ==> Chained(items, rest)
    ensures Inert(Concat(items)) && OwnTokens(Concat(items)) == Tokens(items)
  {
    assert After([]) && Chained(items, []);
    forall rest: Bytes, seen: bool
      ensures Chain(SPACE, items, [SPACE] + rest, seen)
    {
      assert After([SPACE] + rest) && Chained(items, [SPACE] + rest);
    }
    ChainInert(items);
  }

  const SYSTEM: Bytes := [115, 121, 115, 116, 101, 109]
  const MAIN: Bytes := [109, 97, 105, 110]
  const FROM_HEX_WORD: Bytes := [102, 114, 111, 109, 95, 104, 101, 120]
  const DECODE_WORD: Bytes := [100, 101, 99, 111, 100, 101]

  lemma {:induction false} HexPlain(data: Bytes)
    ensures Doubled(HexOf(data)) == HexOf(data)
  {
    if data != [] {
      HexPlain(data[1..]);
      var h := HexOf(data);
      assert h[1..][1..] == HexOf(data[1..]);
      assert Doubled(h) == [h[0]] + Doubled(h[1..]) == [h[0]] + ([h[1]] + Doubled(h[1..][1..]));
    }
  }

  function Call(word: Bytes, tail: seq<Item>): seq<Item>
  {
    [Item(Word, SYSTEM)] + ([Item(Other, [46])] + ([Item(Word, MAIN)] + ([Item(Other, [46])]
      + ([Item(Word, word)] + ([Item(Other, [40])] + tail)))))
  }

  lemma CallChained(word: Bytes, tail: seq<Item>, rest: Bytes)
    requires Plain(word) && Chained(tail, rest)
    ensures Chained(Call(word, tail), rest)
    ensures Concat(Call(word, tail)) == SYSTEM + [46] + MAIN + [46] + word + [40] + Concat(tail)
  {
    var a := [Item(Other, [40])] + tail;
    SingleCons(40, tail, rest);
    ConcatCons(Item(Other, [40]), tail);
    var b := [Item(Word, word)] + a;
    WordCons(word, a, rest);
    ConcatCons(Item(Word, word), a);
    var c := [Item(Other, [46])] + b;
    SingleCons(46, b, rest);
    ConcatCons(Item(Other, [46]), b);
    var d := [Item(Word, MAIN)] + c;
    WordCons(MAIN, c, rest);
    ConcatCons(Item(Word, MAIN), c);
    var e := [Item(Other, [46])] + d;
    SingleCons(46, d, rest);
    ConcatCons(Item(Other, [46]), d);
    WordCons(SYSTEM, e, rest);
    ConcatCons(Item(Word, SYSTEM), e);
  }

  function HexItems(data: Bytes, tail: seq<Item>): seq<Item>
  {
    Call(FROM_HEX_WORD, [Item(Quoted, Literal(HexOf(data)))] + ([Item(Other, [41])] + tail))
  }

  lemma HexChained(data: Bytes, tail: seq<Item>, rest: Bytes)
    requires Chained(tail, rest)
    ensures Chained(HexItems(data, tail), rest)
    ensures Concat(HexItems(data, tail)) == FROM_HEX + Literal(HexOf(data)) + [41] + Concat(tail)
  {
    HexPlain(data);
    var close := [Item(Other, [41])] + tail;
    SingleCons(41, tail, rest);
    ConcatCons(Item(Other, [41]), tail);
    LiteralCons(HexOf(data), close, rest);
    ConcatCons(Item(Quoted, Literal(HexOf(data))), close);
    CallChained(FROM_HEX_WORD, [Item(Quoted, Literal(HexOf(data)))] + close, rest);
    assert SYSTEM + [46] + MAIN + [46] + FROM_HEX_WORD + [40] == FROM_HEX;
  }

  ghost predicate AlwaysChained(items: seq<Item>)
  {
    items != [] && Significant(items[0].kind) && forall rest: Bytes :: After(rest) ==> Chained(items, rest)
  }

  lemma BlobChain(data: Bytes) returns (items: seq<Item>)
    ensures AlwaysChained(items) && Concat(items) == FROM_HEX + Literal(HexOf(data)) + [41]
  {
    items := HexItems(data, []);
    HexChained(data, [], []);
    forall rest: Bytes | After(rest)
      ensures Chained(items, rest)
    {
      HexChained(data, [], rest);
    }
  }

  lemma BlobInert(data: Bytes)
    ensures Inert(FROM_HEX + Literal(HexOf(data)) + [41])
  {
    var items := BlobChain(data);
    ChainedInert(items);
  }

  const CLOSE: seq<Item> := [Item(Other, [41])]

  lemma CloseChained(rest: Bytes)
    ensures Chained(CLOSE, rest) && Concat(CLOSE) == [41]
  {
    SingleCons(41, [], rest);
    assert [Item(Other, [41])] + [] == CLOSE;
    ConcatCons(Item(Other, [41]), []);
  }

  lemma DecodeText(data: Bytes)
    ensures SYSTEM + [46] + MAIN + [46] + DECODE_WORD + [40] + (FROM_HEX + Literal(HexOf(data)) + [41] + [41])
         == DECODE + FROM_HEX + Literal(HexOf(data)) + [41, 41]
  {
    assert SYSTEM + [46] + MAIN + [46] + DECODE_WORD + [40] == DECODE;
  }

  lemma NulTextChained(data: Bytes, rest: Bytes) returns (items: seq<Item>)
    ensures items == Call(DECODE_WORD, HexItems(data, CLOSE)) && items[0].kind == Word
    ensures Chained(items, rest) && Concat(items) == DECODE + FROM_HEX + Literal(HexOf(data)) + [41, 41]
  {
    CloseChained(rest);
    HexChained(data, CLOSE, rest);
    CallChained(DECODE_WORD, HexItems(data, CLOSE), rest);
    DecodeText(data);
    items := Call(DECODE_WORD, HexItems(data, CLOSE));
  }

  lemma NulTextInert(data: Bytes)
    ensures Inert(DECODE + FROM_HEX + Literal(HexOf(data)) + [41, 41])
  {
    var items := NulTextChained(data, []);
    forall rest: Bytes | After(rest)
      ensures Chained(items, rest)
    {
      var same := NulTextChained(data, rest);
    }
    ChainedInert(items);
  }

  // Every text that quoting a value gives is inert: as a literal, or as a call.
  lemma QuotedInert(data: Bytes, blob: bool)
    ensures Inert(QuotedBytes(data, blob))
  {
    if blob {
      BlobInert(data);
    } else if 0 in data {
      NulTextInert(data);
    } else {
      TextInert(data);
    }
  }

  const NULL: Bytes := [78, 85, 76, 76]
  const TRUE: Bytes := [84, 82, 85, 69]
  const FALSE: Bytes := [70, 65, 76, 83, 69]
  const CAST: Bytes := [67, 65, 83, 84]
  const AS: Bytes := [65, 83]
  const BIGINT: Bytes := [66, 73, 71, 73, 78, 84]

  // CAST(v AS BIGINT)
  function CastText(v: int): Bytes
  {
    CAST + [40] + (if v < 0 then [45] + DigitsOf(-v) else DigitsOf(v)) + [SPACE] + AS + [SPACE] + BIGINT + [41]
  }

  // What the driver binds without quoting: NULL, a boolean or an integer.
  ghost predicate DriverSql(text: Bytes)
  {
    text == NULL || text == TRUE || text == FALSE || exists v: int :: text == CastText(v)
  }

  ghost predicate DriverValue(b: Binding) { b.value.Some? && (b.quote || DriverSql(b.value.value)) }

  lemma KeywordChained(word: Bytes, rest: Bytes)
    requires Plain(word) && After(rest)
    ensures Chained([Item(Word, word)], rest)
  {
    assert Concat([]) + rest == rest;
    WordCons(word, [], rest);
    assert [Item(Word, word)] + [] == [Item(Word, word)];
  }

  lemma KeywordChain(word: Bytes) returns (items: seq<Item>)
    requires Plain(word)
    ensures AlwaysChained(items) && Concat(items) == word
  {
    items := [Item(Word, word)];
    assert items == [Item(Word, word)] + [];
    ConcatCons(Item(Word, word), []);
    forall rest: Bytes | After(rest)
      ensures Chained(items, rest)
    {
      KeywordChained(word, rest);
    }
  }

  lemma KeywordInert(word: Bytes)
    requires Plain(word)
    ensures Inert(word)
  {
    var items := KeywordChain(word);
    ChainedInert(items);
  }

  function DigitItems(d: Bytes, tail: seq<Item>): seq<Item>
  {
    if d == [] then tail else [Item(Other, [d[0]])] + DigitItems(d[1..], tail)
  }

  lemma {:induction false} DigitsConcat(d: Bytes, tail: seq<Item>)
    ensures Concat(DigitItems(d, tail)) == d + Concat(tail)
  {
    if d != [] {
      DigitsConcat(d[1..], tail);
      ConcatCons(Item(Other, [d[0]]), DigitItems(d[1..], tail));
      assert d == [d[0]] + d[1..];
    }
  }

  lemma {:induction false} DigitsChained(d: Bytes, tail: seq<Item>, rest: Bytes)
    requires Chained(tail, rest) && AllDigits(d)
    ensures Chained(DigitItems(d, tail), rest)
  {
    if d != [] {
      DigitsChained(d[1..], tail, rest);
      SingleCons(d[0], DigitItems(d[1..], tail), rest);
    }
  }

  // " AS BIGINT)"
  lemma AsBigint(rest: Bytes) returns (items: seq<Item>)
    ensures items == [Item(White, [SPACE])] + ([Item(Word, AS)] + ([Item(White, [SPACE])] + ([Item(Word, BIGINT)] + CLOSE)))
    ensures Chained(items, rest) && Concat(items) == [SPACE] + AS + [SPACE] + BIGINT + [41]
  {
    CloseChained(rest);
    var a := [Item(Word, BIGINT)] + CLOSE;
    WordCons(BIGINT, CLOSE, rest);
    ConcatCons(Item(Word, BIGINT), CLOSE);
    var b := [Item(White, [SPACE])] + a;
    SpaceCons(a, rest);
    ConcatCons(Item(White, [SPACE]), a);
    var c := [Item(Word, AS)] + b;
    WordCons(AS, b, rest);
    ConcatCons(Item(Word, AS), b);
    SpaceCons(c, rest);
    ConcatCons(Item(White, [SPACE]), c);
    items := [Item(White, [SPACE])] + c;
  }

  lemma SignedChained(v: int, tail: seq<Item>, rest: Bytes) returns (items: seq<Item>)
    requires Chained(tail, rest)
    ensures items == if v < 0 then [Item(Other, [45])] + DigitItems(DigitsOf(-v), tail) else DigitItems(DigitsOf(v), tail)
    ensures Chained(items, rest)
    ensures Concat(items) == (if v < 0 then [45] + DigitsOf(-v) else DigitsOf(v)) + Concat(tail)
  {
    if v < 0 {
      DigitsChained(DigitsOf(-v), tail, rest);
      DigitsConcat(DigitsOf(-v), tail);
      var digits := DigitItems(DigitsOf(-v), tail);
      assert (Concat(digits) + rest)[0] == DigitsOf(-v)[0];
      MinusCons(digits, rest);
      ConcatCons(Item(Other, [45]), digits);
      items := [Item(Other, [45])] + digits;
    } else {
      DigitsChained(DigitsOf(v), tail, rest);
      DigitsConcat(DigitsOf(v), tail);
      items := DigitItems(DigitsOf(v), tail);
    }
  }

  lemma CastChained(v: int, rest: Bytes, tail: seq<Item>, number: seq<Item>) returns (items: seq<Item>)
    requires Chained(number, rest)
    requires Concat(number) == (if v < 0 then [45] + DigitsOf(-v) else DigitsOf(v)) + ([SPACE] + AS + [SPACE] + BIGINT + [41])
    ensures items == [Item(Word, CAST)] + ([Item(Other, [40])] + number)
    ensures Chained(items, rest) && Concat(items) == CastText(v)
  {
    SingleCons(40, number, rest);
    ConcatCons(Item(Other, [40]), number);
    WordCons(CAST, [Item(Other, [40])] + number, rest);
    ConcatCons(Item(Word, CAST), [Item(Other, [40])] + number);
    items := [Item(Word, CAST)] + ([Item(Other, [40])] + number);
  }

  lemma CastInert(v: int)
    ensures Inert(CastText(v))
  {
    var tail := AsBigint([]);
    var number := SignedChained(v, tail, []);
    var items := CastChained(v, [], tail, number);
    forall rest: Bytes | After(rest)
      ensures Chained(items, rest)
    {
      var tail' := AsBigint(rest);
      var number' := SignedChained(v, tail', rest);
      var items' := CastChained(v, rest, tail', number');
    }
    ChainedInert(items);
  }

  // Whatever the driver binds is read by the scanner as itself.
  lemma DriverValueInert(b: Binding)
    requires DriverValue(b)
    ensures Inert(BoundText(b))
  {
    var text := b.value.value;
    if b.quote {
      QuotedInert(text, b.blob);
    } else if text == NULL || text == TRUE || text == FALSE {
      KeywordInert(text);
    } else {
      var v :| text == CastText(v);
      CastInert(v);
    }
  }

  // It opens with a quotation mark or a letter.
  lemma DriverValueLeads(b: Binding)
    requires DriverValue(b)
    ensures Leads(BoundText(b))
  {
  }
}
