// The token rules of the placeholder scanner: what one turn of the scanning
// loop of pdo_duckdb_sql_plan_create reads, as a function of the byte before
// the position, the text from the position on, and whether a token was seen.
module SqlLexer {
  import opened Sequences
  import opened Text

  // The scanner is built for DuckDB 2, where a backtick quotes an identifier.
  const HAVE_DUCKDB_V2 := true

  predicate QuotesIdentifier(c: byte) { c == DOUBLE_QUOTE || (HAVE_DUCKDB_V2 && c == BACKTICK) }

  datatype Kind =
    | White                                                  // a blank, a comment or a leading semicolon
    | Escaped                                                // E'...'
    | Quoted                                                 // '...', "..." or `...`
    | DollarQuoted                                           // $tag$...$tag$
    | Native(name: Bytes, numeric: bool, quote: int)         // $1, $name, $"name"; quote 0 is none
    | BareDollar                                             // $ and the blanks after it, without a name
    | EmptyName                                              // $ and an empty quoted name
    | Word
    | Cast                                                   // :: and the colons after it
    | Named                                                  // :name
    | QuestionRun                                            // ?? and the question marks after it
    | Positional                                             // ?
    | Other

  datatype Lexeme = Lexeme(kind: Kind, length: nat)

  predicate Significant(k: Kind) { k != White }

  predicate PdoKind(k: Kind) { k == Named || k == Positional }

  function WordLength(r: Bytes): (n: nat)
    ensures n <= |r|
  {
    if r == [] || !IdentifierContinue(r[0]) then 0 else 1 + WordLength(r[1..])
  }

  function ParameterLength(r: Bytes): (n: nat)
    ensures n <= |r|
  {
    if r == [] || !ParameterChar(r[0]) then 0 else 1 + ParameterLength(r[1..])
  }

  function RunLength(r: Bytes, c: byte): (n: nat)
    ensures n <= |r|
  {
    if r == [] || r[0] != c then 0 else 1 + RunLength(r[1..], c)
  }

  function TriviaLength(r: Bytes): (n: nat)
    ensures n <= |r|
    decreases |r|
  {
    var step := TriviaStep(r);
    if step == 0 then 0 else step + TriviaLength(r[step..])
  }

  // Digits, with single underscores between digits; afterDigit says that the
  // byte before r is a digit of the same number.
  function NumberLength(r: Bytes, afterDigit: bool): (n: nat)
    ensures n <= |r|
  {
    if r == [] then 0
    else if Digit(r[0]) then 1 + NumberLength(r[1..], true)
    else if r[0] == UNDERSCORE && afterDigit && |r| > 1 && Digit(r[1]) then 1 + NumberLength(r[1..], false)
    else 0
  }

  function NameLength(r: Bytes): (n: nat)
    ensures n <= |r|
  {
    if r == [] || !(ParameterChar(r[0]) || r[0] >= 128) then 0 else 1 + NameLength(r[1..])
  }

  // The name after $ and its blanks, x being the text from the name on.
  function LexName(x: Bytes): (l: Lexeme)
    ensures l.length <= |x|
  {
    if x != [] && Digit(x[0]) then
      var n := NumberLength(x, false);
      Lexeme(Native(x[..n], true, 0), n)
    else if x != [] && QuotesIdentifier(x[0]) then
      var n := 1 + QuotedLength(x[1..], x[0], false);
      var end := if x[n - 1] == x[0] then n - 1 else n;
      Lexeme(if end > 1 then Native(x[1..end], false, x[0]) else EmptyName, n)
    else
      var n := NameLength(x);
      Lexeme(if n > 0 then Native(x[..n], false, 0) else BareDollar, n)
  }

  // Where the name after $ begins: after the blanks and comments that follow $.
  // A byte of a non-ASCII name belongs to the name even in a Unicode space.
  function NameStart(r: Bytes): (n: nat)
    requires r != []
    ensures 0 < n <= |r|
  {
    1 + if |r| > 1 && r[1] < 128 then TriviaLength(r[1..]) else 0
  }

  function LexDollar(r: Bytes): (l: Lexeme)
    requires r != [] && r[0] == DOLLAR
    ensures 0 < l.length <= |r|
  {
    var quoted := DollarQuotedLength(r);
    if quoted > 0 then Lexeme(DollarQuoted, quoted)
    else
      var start := NameStart(r);
      var name := LexName(r[start..]);
      Lexeme(name.kind, start + name.length)
  }

  predicate OpensNamed(r: Bytes) { |r| > 1 && r[0] == COLON && ParameterChar(r[1]) }

  // prev is the byte before r, or -1 at the start of the statement.
  function Lex(prev: int, r: Bytes, seen: bool): (l: Lexeme)
    requires r != []
    ensures 0 < l.length <= |r|
  {
    var c := r[0];
    if TriviaStep(r) > 0 then Lexeme(White, TriviaStep(r))
    else if c == SEMICOLON && !seen then Lexeme(White, 1)
    else if (c == 101 || c == 69) && |r| > 1 && r[1] == QUOTE then
      Lexeme(Escaped, 2 + QuotedLength(r[2..], QUOTE, true))
    else if c == QUOTE || QuotesIdentifier(c) then Lexeme(Quoted, 1 + QuotedLength(r[1..], c, false))
    else if c == DOLLAR then LexDollar(r)
    else if IdentifierStart(c) then Lexeme(Word, 1 + WordLength(r[1..]))
    else if c == COLON && |r| > 1 && r[1] == COLON then Lexeme(Cast, 1 + RunLength(r[1..], COLON))
    else if OpensNamed(r) && !IdentifierContinue(prev) then Lexeme(Named, 1 + ParameterLength(r[1..]))
    else if c == QUESTION && |r| > 1 && r[1] == QUESTION then Lexeme(QuestionRun, 1 + RunLength(r[1..], QUESTION))
    else if c == QUESTION then Lexeme(Positional, 1)
    else Lexeme(Other, 1)
  }

  datatype Item = Item(kind: Kind, text: Bytes)

  // The whole statement as the scanner cuts it.
  function Items(prev: int, r: Bytes, seen: bool): (items: seq<Item>)
    decreases |r|
  {
    if r == [] then []
    else
      var l := Lex(prev, r, seen);
      [Item(l.kind, r[..l.length])] + Items(r[l.length - 1], r[l.length..], seen || Significant(l.kind))
  }

  function TokenOf(i: Item): seq<Item>
  {
    if i.kind == White then [] else if i.kind == BareDollar then [Item(BareDollar, [DOLLAR])] else [i]
  }

  // The tokens: white text dropped, and the blanks a nameless $ swallows.
  function Tokens(items: seq<Item>): (tokens: seq<Item>)
  {
    if items == [] then [] else TokenOf(items[0]) + Tokens(items[1..])
  }

  function Concat(items: seq<Item>): Bytes
  {
    if items == [] then [] else items[0].text + Concat(items[1..])
  }

  lemma ConcatCons(i: Item, items: seq<Item>)
    ensures Concat([i] + items) == i.text + Concat(items)
  {
    assert ([i] + items)[1..] == items;
  }

  lemma FirstRestored(i: Item, items: seq<Item>, r: Bytes, n: nat)
    requires n <= |r| && i.text == r[..n] && Concat(items) == r[n..]
    ensures Concat([i] + items) == r
  {
    ConcatCons(i, items);
  }

  // Cutting loses nothing: the pieces put together again are the statement.
  lemma {:induction false} ItemsConcat(prev: int, r: Bytes, seen: bool)
    ensures Concat(Items(prev, r, seen)) == r
    decreases |r|
  {
    if r != [] {
      var l := Lex(prev, r, seen);
      var rest := Items(r[l.length - 1], r[l.length..], seen || Significant(l.kind));
      ItemsConcat(r[l.length - 1], r[l.length..], seen || Significant(l.kind));
      FirstRestored(Item(l.kind, r[..l.length]), rest, r, l.length);
    }
  }

  lemma TokensCons(i: Item, items: seq<Item>)
    ensures Tokens([i] + items) == TokenOf(i) + Tokens(items)
  {
    assert ([i] + items)[1..] == items;
  }

  lemma {:induction false} TokensConcat(a: seq<Item>, b: seq<Item>)
    ensures Tokens(a + b) == Tokens(a) + Tokens(b)
  {
    if a == [] {
      assert a + b == b;
    } else {
      TokensConcat(a[1..], b);
      TokensCons(a[0], a[1..] + b);
      assert a + b == [a[0]] + (a[1..] + b);
      Associate(TokenOf(a[0]), Tokens(a[1..]), Tokens(b));
    }
  }
}
