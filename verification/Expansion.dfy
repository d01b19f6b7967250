// What a scanner makes of a statement whose values have been written into it.
module Expansion {
  import opened Options
  import opened Text
  import opened SqlLexer
  import opened Rescan
  import opened Replace
  import opened Numbering
  import opened Plan
  import opened Render
  import opened Rewriting
  import opened Inertness
  import opened Statements

  ghost predicate DriverValues(values: seq<Binding>)
  {
    forall i :: 0 <= i < |values| && values[i].value.Some? ==> DriverValue(values[i])
  }

  ghost predicate OwnedList(n: Numbers, pdo: seq<Placeholder>)
  {
    forall k :: 0 <= k < |pdo| ==> Owned(n, pdo[k], false)
  }

  // One item of the statement, or the bound value in its place.
  function PieceOf(n: Numbers, slots: map<nat, nat>, values: seq<Binding>, i: Item, pos: nat,
                   pdo: seq<Placeholder>, native: seq<Placeholder>): Piece
    requires Fits(n, slots, ExpandedForm(values)) && OwnedList(n, pdo)
  {
    match Chosen(n, slots, ExpandedForm(values), i, pos, pdo, native)
    case None => Keep(i)
    case Some(t) => Swap(i, if |t| > 1 then t[1..|t| - 1] else [])
  }

  function ExpandedPieces(n: Numbers, slots: map<nat, nat>, values: seq<Binding>, items: seq<Item>, pos: nat,
                          pdo: seq<Placeholder>, native: seq<Placeholder>): (pieces: seq<Piece>)
    requires Fits(n, slots, ExpandedForm(values)) && OwnedList(n, pdo)
    ensures |pieces| == |items|
    decreases |items|
  {
    if items == [] then []
    else
      var i, next := items[0], pos + |items[0].text|;
      [PieceOf(n, slots, values, i, pos, pdo, native)]
        + ExpandedPieces(n, slots, values, items[1..], next,
                         if PdoKind(i.kind) && pdo != [] then pdo[1..] else pdo,
                         if i.kind.Native? && native != [] && native[0].offset == pos then native[1..] else native)
  }

  lemma PieceText(n: Numbers, slots: map<nat, nat>, values: seq<Binding>, i: Item, pos: nat,
                  pdo: seq<Placeholder>, native: seq<Placeholder>)
    requires Fits(n, slots, ExpandedForm(values)) && OwnedList(n, pdo) && DriverValues(values)
    ensures var p := PieceOf(n, slots, values, i, pos, pdo, native);
            && p.item == i
            && Flatten([p]) == TextOr(Chosen(n, slots, ExpandedForm(values), i, pos, pdo, native), i.text)
            && (p.Swap? ==> Replaceable(i.kind) && Inert(p.text) && Leads(p.text))
  {
    var p := PieceOf(n, slots, values, i, pos, pdo, native);
    assert Flatten([p][1..]) == [];
    if p.Swap? {
      var t := Chosen(n, slots, ExpandedForm(values), i, pos, pdo, native).value;
      var index := if PdoKind(i.kind) && pdo != [] then pdo[0].index else slots[native[0].index];
      DriverValueInert(values[index]);
      DriverValueLeads(values[index]);
      assert t == [SPACE] + BoundText(values[index]) + [SPACE];
      assert p.text == BoundText(values[index]);
    }
  }

  lemma FlattenFirst(p: Piece, rest: seq<Piece>)
    ensures Flatten([p] + rest) == Flatten([p]) + Flatten(rest)
  {
    assert ([p] + rest)[1..] == rest && [p][1..] == [];
  }

  // Each item as it stands, or an inert value in its place.
  ghost predicate Written(pieces: seq<Piece>, items: seq<Item>)
  {
    |pieces| == |items| && forall k :: 0 <= k < |items| ==> WrittenAt(pieces[k], items[k])
  }

  ghost predicate WrittenAt(p: Piece, i: Item)
  {
    p.item == i && (p.Swap? ==> Replaceable(i.kind) && Inert(p.text) && Leads(p.text))
  }

  // What the pieces amount to: the expanded text, and the items they are for.
  ghost predicate Parts(pieces: seq<Piece>, items: seq<Item>, text: Bytes)
  {
    Flatten(pieces) == text && Source(pieces) == items && Written(pieces, items)
  }

  lemma PartsFirst(p: Piece, rest: seq<Piece>, items: seq<Item>, head: Bytes, tail: Bytes, pieces: seq<Piece>, text: Bytes)
    requires items != [] && WrittenAt(p, items[0]) && Flatten([p]) == head && Parts(rest, items[1..], tail)
    requires pieces == [p] + rest && text == head + tail
    ensures Parts(pieces, items, text)
  {
    FlattenFirst(p, rest);
    assert ([p] + rest)[1..] == rest && items == [items[0]] + items[1..];
    forall k | 0 <= k < |items|
      ensures WrittenAt(([p] + rest)[k], items[k])
    {
      if k > 0 {
        assert WrittenAt(rest[k - 1], items[1..][k - 1]);
      }
    }
  }

  // The pieces put together are the expanded statement, and each value is inert.
  lemma {:induction false} ExpandedParts(n: Numbers, slots: map<nat, nat>, values: seq<Binding>, items: seq<Item>, pos: nat,
                                         pdo: seq<Placeholder>, native: seq<Placeholder>)
    requires Fits(n, slots, ExpandedForm(values)) && OwnedList(n, pdo) && DriverValues(values)
    ensures Parts(ExpandedPieces(n, slots, values, items, pos, pdo, native), items,
                  Woven(n, slots, ExpandedForm(values), items, pos, pdo, native))
    decreases |items|
  {
    if items != [] {
      var i, next := items[0], pos + |items[0].text|;
      var pdo' := if PdoKind(i.kind) && pdo != [] then pdo[1..] else pdo;
      var native' := if i.kind.Native? && native != [] && native[0].offset == pos then native[1..] else native;
      PieceText(n, slots, values, i, pos, pdo, native);
      ExpandedParts(n, slots, values, items[1..], next, pdo', native');
      PartsFirst(PieceOf(n, slots, values, i, pos, pdo, native),
                 ExpandedPieces(n, slots, values, items[1..], next, pdo', native'), items,
                 TextOr(Chosen(n, slots, ExpandedForm(values), i, pos, pdo, native), i.text),
                 Woven(n, slots, ExpandedForm(values), items[1..], next, pdo', native'),
                 ExpandedPieces(n, slots, values, items, pos, pdo, native),
                 Woven(n, slots, ExpandedForm(values), items, pos, pdo, native));
    }
  }

  function PiecesOf(sql: Bytes, legacy: bool, values: seq<Binding>): seq<Piece>
    requires NumbersOf(sql, legacy).Ok? && ExpandedOf(sql, legacy, values).Ok?
  {
    PlanFits(sql, legacy, ExpandedForm(values));
    var n := NumbersOf(sql, legacy).value;
    ExpandedPieces(n, Slots(n), values, ItemsOf(sql), 0, n.placeholders, n.natives)
  }

  lemma ExpandedCut(sql: Bytes, legacy: bool, values: seq<Binding>)
    requires NumbersOf(sql, legacy).Ok? && ExpandedOf(sql, legacy, values).Ok? && DriverValues(values)
    ensures var pieces := PiecesOf(sql, legacy, values);
            && Cuts(-1, pieces, false) && LeadingSwaps(pieces) && Original(pieces) == sql
            && Flatten(pieces) == ExpandedOf(sql, legacy, values).value
  {
    var n := NumbersOf(sql, legacy).value;
    var pieces := PiecesOf(sql, legacy, values);
    PlanFits(sql, legacy, ExpandedForm(values));
    ExpandedParts(n, Slots(n), values, ItemsOf(sql), 0, n.placeholders, n.natives);
    ItemsConcat(-1, sql, false);
    ItemsOpen(-1, sql, false);
    CutsItems(-1, pieces, false);
    forall k | 0 <= k < |pieces|
      ensures GoodSwap(pieces[k]) && (pieces[k].Swap? ==> Leads(pieces[k].text))
    {
      assert WrittenAt(pieces[k], ItemsOf(sql)[k]);
      assert Opens(ItemsOf(sql)[k]);
    }
  }

  // No bound value, whatever its bytes, reaches outside its place: the token
  // stream is the statement's own, with the tokens of the values in the places
  // of the parameters they are bound to. That is so exactly when no parameter
  // shields a :name and no unquoted value stands behind a nameless $.
  lemma ExpandedKeepsTokens(sql: Bytes, legacy: bool, values: seq<Binding>)
    requires NumbersOf(sql, legacy).Ok? && ExpandedOf(sql, legacy, values).Ok? && DriverValues(values)
    ensures Tokens(ItemsOf(ExpandedOf(sql, legacy, values).value)) == PieceTokens(PiecesOf(sql, legacy, values))
       <==> NoGlue(PiecesOf(sql, legacy, values)) && GoodPairs(PiecesOf(sql, legacy, values))
  {
    var pieces := PiecesOf(sql, legacy, values);
    ExpandedCut(sql, legacy, values);
    LeadingTail(pieces);
    if NoGlue(pieces) && GoodPairs(pieces) {
      Rescanned(-1, -1, pieces, false);
    } else {
      Changed(-1, -1, pieces, false);
    }
  }

  // And where a placeholder did shield a :name, that name comes to light.
  lemma ExpandedUncovers(sql: Bytes, legacy: bool, values: seq<Binding>)
    requires NumbersOf(sql, legacy).Ok? && ExpandedOf(sql, legacy, values).Ok? && DriverValues(values)
    requires GoodPairs(PiecesOf(sql, legacy, values)) && !NoGlue(PiecesOf(sql, legacy, values))
    ensures HasPdo(Tokens(ItemsOf(ExpandedOf(sql, legacy, values).value)))
  {
    ExpandedCut(sql, legacy, values);
    LeadingTail(PiecesOf(sql, legacy, values));
    Uncovered(-1, -1, PiecesOf(sql, legacy, values), false);
  }

  const NAMELESS: Bytes := [36, 32, 63]  // $ ?

  lemma NamelessDollar(sql: Bytes)
    requires |sql| == 3 && sql[0] == DOLLAR && sql[1] == SPACE && sql[2] == QUESTION
    ensures Lex(-1, sql, false) == Lexeme(BareDollar, 2)
  {
    var r := sql[1..];
    assert TriviaStep(r) == 1 && TriviaStep(r[1..]) == 0;
    assert TriviaLength(r[1..]) == 0 && TriviaLength(r) == 1;
    assert NameStart(sql) == 2;
  }

  lemma NamelessItems(sql: Bytes)
    requires sql == NAMELESS
    ensures ItemsOf(sql) == [Item(BareDollar, [36, 32]), Item(Positional, [63])]
  {
    NamelessDollar(sql);
    assert sql == [36, 32] + [63];
    FirstItem(-1, [36, 32], [63], BareDollar, false);
    NamelessQuestion([63]);
  }

  lemma NamelessQuestion(r: Bytes)
    requires |r| == 1 && r[0] == QUESTION
    ensures Items(32, r, true) == [Item(Positional, r)]
  {
    assert r + [] == r;
    FirstItem(32, r, [], Positional, true);
  }

  // "$ ?" with NULL bound to its parameter: the nameless $ takes NULL for its name.
  lemma NamelessExample(sql: Bytes, values: seq<Binding>)
    requires sql == NAMELESS && values == [Binding(Some(NULL), false, false)]
    ensures NumbersOf(sql, false).Ok? && ExpandedOf(sql, false, values).Ok? && DriverValues(values)
    ensures NoGlue(PiecesOf(sql, false, values)) && !GoodPairs(PiecesOf(sql, false, values))
    ensures Tokens(ItemsOf(ExpandedOf(sql, false, values).value)) != PieceTokens(PiecesOf(sql, false, values))
  {
    NamelessItems(sql);
    NamelessSwallows(sql, ItemsOf(sql), values);
  }

  lemma NamelessSwallows(sql: Bytes, items: seq<Item>, values: seq<Binding>)
    requires 0 !in sql && items == ItemsOf(sql) == [Item(BareDollar, [36, 32]), Item(Positional, [63])]
    requires |values| == 1 && values[0] == Binding(Some(NULL), false, false)
    ensures NumbersOf(sql, false).Ok? && ExpandedOf(sql, false, values).Ok? && DriverValues(values)
    ensures NoGlue(PiecesOf(sql, false, values)) && !GoodPairs(PiecesOf(sql, false, values))
    ensures Tokens(ItemsOf(ExpandedOf(sql, false, values).value)) != PieceTokens(PiecesOf(sql, false, values))
  {
    NamelessNumbers(items);
    var n := NumbersOf(sql, false).value;
    PlanFits(sql, false, ExpandedForm(values));
    NamelessPieces(n, Slots(n), values, items);
    ExpandedKeepsTokens(sql, false, values);
  }

  lemma NamelessNumbers(items: seq<Item>)
    requires items == [Item(BareDollar, [36, 32]), Item(Positional, [63])]
    ensures Number(START, 0, items, false).Some?
    ensures var n := Number(START, 0, items, false).value;
            |n.placeholders| == 1 && n.placeholders[0].index == 0 && n.natives == [] && n.parameterCount == 1 && |Slots(n)| == 1
  {
    var n := NumberItem(START, 2, items[1], false).value;
    assert items[1..] == [items[1]] && items[1..][1..] == [];
    assert Number(START, 0, items, false) == Number(START, 2, items[1..], false) == Number(n, 3, items[1..][1..], false) == Some(n);
  }

  lemma NamelessPieces(n: Numbers, slots: map<nat, nat>, values: seq<Binding>, items: seq<Item>)
    requires items == [Item(BareDollar, [36, 32]), Item(Positional, [63])]
    requires Fits(n, slots, ExpandedForm(values)) && OwnedList(n, n.placeholders)
    requires |n.placeholders| == 1 && n.placeholders[0].index == 0 && n.natives == []
    requires |values| == 1 && values[0] == Binding(Some(NULL), false, false)
    ensures var pieces := ExpandedPieces(n, slots, values, items, 0, n.placeholders, n.natives);
            NoGlue(pieces) && !GoodPairs(pieces)
  {
    var pieces := ExpandedPieces(n, slots, values, items, 0, n.placeholders, n.natives);
    var rest := ExpandedPieces(n, slots, values, items[1..], 2, n.placeholders, n.natives);
    assert pieces == [Keep(items[0])] + rest;
    var t := Replacement(n, slots, ExpandedForm(values), n.placeholders[0], false).value;
    assert t[1..|t| - 1] == NULL;
    assert rest[0] == Swap(items[1], NULL) && rest[1..] == [];
    assert pieces[1..] == rest && pieces[1] == rest[0];
    assert !GoodPair(pieces[0], pieces[1]);
    assert Original([]) == [] && !Glued(rest[0], []);
  }
}
