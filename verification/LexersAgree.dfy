// The two scanners of the driver read the same statement: where they agree on
// what is code and what is comment, literal or quoted name.
module LexersAgree {
  import opened Text
  import opened SqlLexer
  import opened Numbering
  import opened Plan
  import T = Transactions
  import R = Rewriting
  import S = Statements

  datatype Region = Code | Comment | LiteralText | QuotedName

  function Fill(region: Region, n: nat): seq<Region> { seq(n, _ => region) }

  predicate IsComment(r: Bytes) { OpensLineComment(r) || OpensComment(r) }

  // The placeholder scanner's view of one item.
  function ItemRegion(i: Item): Region
  {
    match i.kind
    case White => if UnicodeSpaceLength(i.text) == 0 && IsComment(i.text) then Comment else Code
    case Escaped => LiteralText
    case DollarQuoted => LiteralText
    case Quoted => if i.text != [] && i.text[0] == QUOTE then LiteralText else QuotedName
    case _ => Code
  }

  function ItemRegions(items: seq<Item>): seq<Region>
  {
    if items == [] then [] else Fill(ItemRegion(items[0]), |items[0].text|) + ItemRegions(items[1..])
  }

  // The driver scanner's view of what one turn reads.
  function TurnRegion(r: Bytes): Region
    requires r != []
  {
    if TriviaStep(r) > 0 then if UnicodeSpaceLength(r) == 0 && IsComment(r) then Comment else Code
    else if (r[0] == 69 || r[0] == 101) && |r| > 1 && r[1] == QUOTE then LiteralText
    else if r[0] == QUOTE then LiteralText
    else if r[0] == DOUBLE_QUOTE then QuotedName
    else if r[0] == DOLLAR && DollarQuotedLength(r) > 0 then LiteralText
    else Code
  }

  function TurnRegions(r: Bytes): seq<Region>
    decreases |r|
  {
    if r == [] then [] else Fill(TurnRegion(r), T.TurnOf(r).length) + TurnRegions(r[T.TurnOf(r).length..])
  }

  // ASCII without $, : and `.
  predicate Basic(r: Bytes)
  {
    forall i :: 0 <= i < |r| ==> r[i] < 128 && r[i] != DOLLAR && r[i] != COLON && r[i] != BACKTICK
  }

  lemma {:induction false} SameWord(r: Bytes)
    requires Basic(r)
    ensures WordLength(r) == T.DriverWordLength(r)
  {
    if r != [] && IdentifierContinue(r[0]) {
      SameWord(r[1..]);
    }
  }

  lemma SameTurn(prev: int, r: Bytes, seen: bool)
    requires r != [] && Basic(r) && Lex(prev, r, seen).kind != QuestionRun
    ensures var l := Lex(prev, r, seen);
            l.length == T.TurnOf(r).length && ItemRegion(Item(l.kind, r[..l.length])) == TurnRegion(r)
  {
    SameWord(r[1..]);
  }

  lemma QuestionTurn(r: Bytes)
    requires r != [] && r[0] == QUESTION
    ensures T.TurnOf(r).length == 1 && TurnRegion(r) == Code
  {
    assert TriviaStep(r) == 0;
  }

  lemma {:induction false} QuestionRegions(r: Bytes)
    ensures TurnRegions(r) == Fill(Code, RunLength(r, QUESTION)) + TurnRegions(r[RunLength(r, QUESTION)..])
  {
    if r == [] || r[0] != QUESTION {
      assert r[0..] == r;
    } else {
      QuestionTurn(r);
      QuestionRegions(r[1..]);
      var n := RunLength(r[1..], QUESTION);
      assert r[1..][n..] == r[n + 1..];
      assert Fill(Code, n + 1) == Fill(Code, 1) + Fill(Code, n);
    }
  }

  lemma FirstRegions(prev: int, r: Bytes, seen: bool)
    requires r != []
    ensures var l := Lex(prev, r, seen);
            var rest := Items(r[l.length - 1], r[l.length..], seen || Significant(l.kind));
            ItemRegions(Items(prev, r, seen)) == Fill(ItemRegion(Item(l.kind, r[..l.length])), l.length) + ItemRegions(rest)
  {
    var l := Lex(prev, r, seen);
    var rest := Items(r[l.length - 1], r[l.length..], seen || Significant(l.kind));
    assert Items(prev, r, seen) == [Item(l.kind, r[..l.length])] + rest;
    assert ([Item(l.kind, r[..l.length])] + rest)[1..] == rest;
  }

  lemma RunIsQuestions(prev: int, r: Bytes, seen: bool)
    requires r != [] && Lex(prev, r, seen).kind == QuestionRun
    ensures r[0] == QUESTION && Lex(prev, r, seen).length == RunLength(r, QUESTION)
  {
  }

  // What the driver's scanner makes of the bytes of one item.
  lemma TurnsOfItem(prev: int, r: Bytes, seen: bool)
    requires r != [] && Basic(r)
    ensures var l := Lex(prev, r, seen);
            TurnRegions(r) == Fill(ItemRegion(Item(l.kind, r[..l.length])), l.length) + TurnRegions(r[l.length..])
  {
    if Lex(prev, r, seen).kind == QuestionRun {
      RunIsQuestions(prev, r, seen);
      QuestionRegions(r);
    } else {
      SameTurn(prev, r, seen);
    }
  }

  // On such SQL both scanners put every byte in the same region.
  lemma {:induction false} RegionsAgree(prev: int, r: Bytes, seen: bool)
    requires Basic(r)
    ensures ItemRegions(Items(prev, r, seen)) == TurnRegions(r)
    decreases |r|
  {
    if r != [] {
      var l := Lex(prev, r, seen);
      FirstRegions(prev, r, seen);
      RegionsAgree(r[l.length - 1], r[l.length..], seen || Significant(l.kind));
      TurnsOfItem(prev, r, seen);
    }
  }

  // Where item k starts.
  function Start(items: seq<Item>, k: nat): nat
    requires k <= |items|
  {
    if k == 0 then 0 else |items[0].text| + Start(items[1..], k - 1)
  }

  lemma {:induction false} RegionAt(items: seq<Item>, k: nat)
    requires k < |items| && items[k].text != []
    ensures Start(items, k) < |ItemRegions(items)| && ItemRegions(items)[Start(items, k)] == ItemRegion(items[k])
  {
    if k > 0 {
      RegionAt(items[1..], k - 1);
    }
  }

  // Which item a placeholder of the list stands at.
  lemma {:induction false} AlignedStart(items: seq<Item>, pos: nat, pdo: seq<Placeholder>, native: seq<Placeholder>, i: nat)
      returns (k: nat)
    requires R.Aligned(items, pos, pdo, native) && i < |pdo|
    ensures k < |items| && PdoKind(items[k].kind) && items[k].text != [] && pdo[i].offset == pos + Start(items, k)
    decreases |items|
  {
    var head, next := items[0], pos + |items[0].text|;
    if PdoKind(head.kind) && i == 0 {
      k := 0;
    } else {
      if PdoKind(head.kind) {
        k := AlignedStart(items[1..], next, pdo[1..], native, i - 1);
      } else if head.kind.Native? && native != [] && native[0].offset == pos {
        k := AlignedStart(items[1..], next, pdo, native[1..], i);
      } else {
        k := AlignedStart(items[1..], next, pdo, native, i);
      }
      k := k + 1;
    }
  }

  lemma CodeAt(items: seq<Item>, k: nat)
    requires k < |items| && PdoKind(items[k].kind) && items[k].text != []
    ensures Start(items, k) < |ItemRegions(items)| && ItemRegions(items)[Start(items, k)] == Code
  {
    RegionAt(items, k);
  }

  // No placeholder is counted inside what the driver's scanner takes for a
  // comment, a literal or a quoted name.
  lemma PlaceholdersAreCode(sql: Bytes, legacy: bool, i: nat)
    requires Basic(sql) && NumbersOf(sql, legacy).Ok? && i < |NumbersOf(sql, legacy).value.placeholders|
    ensures var p := NumbersOf(sql, legacy).value.placeholders[i];
            p.offset < |TurnRegions(sql)| && TurnRegions(sql)[p.offset] == Code
  {
    var n, items := NumbersOf(sql, legacy).value, ItemsOf(sql);
    S.PlanAligned(sql, legacy);
    var k := AlignedStart(items, 0, n.placeholders, n.natives, i);
    CodeAt(items, k);
    RegionsAgree(-1, sql, false);
  }
}
