// The statement as it is prepared: each PDO placeholder has become $n.
module NativeForm {
  import opened Options
  import opened Text
  import opened Digits
  import opened SqlLexer
  import opened Rescan
  import opened Replace
  import opened Numbering
  import opened Plan
  import opened Render
  import opened Rewriting
  import opened Statements
  import opened Inlining

  function NumberOf(p: Placeholder): Bytes { [DOLLAR] + DigitsOf(p.index + 1) }

  function NativePieces(items: seq<Item>, pdo: seq<Placeholder>): (pieces: seq<Piece>)
    ensures |pieces| == |items|
  {
    if items == [] then []
    else if PdoKind(items[0].kind) && pdo != [] then [Swap(items[0], NumberOf(pdo[0]))] + NativePieces(items[1..], pdo[1..])
    else [Keep(items[0])] + NativePieces(items[1..], pdo)
  }

  function PiecesFor(sql: Bytes, legacy: bool): seq<Piece>
    requires NumbersOf(sql, legacy).Ok?
  {
    NativePieces(ItemsOf(sql), NumbersOf(sql, legacy).value.placeholders)
  }

  function NativeOf(sql: Bytes, legacy: bool): Bytes
    requires NumbersOf(sql, legacy).Ok?
  {
    Inlined(PiecesFor(sql, legacy))
  }

  lemma {:induction false} WovenNative(n: Numbers, slots: map<nat, nat>, items: seq<Item>, pos: nat, pdo: seq<Placeholder>)
    requires Fits(n, slots, Form.NativeForm) && Aligned(items, pos, pdo, [])
    requires forall k :: 0 <= k < |pdo| ==> Owned(n, pdo[k], false)
    ensures Woven(n, slots, Form.NativeForm, items, pos, pdo, []) == Inlined(NativePieces(items, pdo))
    decreases |items|
  {
    if items != [] {
      var i, next := items[0], pos + |items[0].text|;
      WovenNative(n, slots, items[1..], next, if PdoKind(i.kind) then pdo[1..] else pdo);
      assert NativePieces(items, pdo)[1..] == NativePieces(items[1..], if PdoKind(i.kind) then pdo[1..] else pdo);
    }
  }

  // pdo_duckdb_sql_native
  method RenderNative(plan: SqlPlan) returns (native: Bytes)
    requires plan.Valid()
    ensures native == NativeOf(plan.sql, plan.legacyParser)
  {
    ghost var n := NumbersOf(plan.sql, plan.legacyParser).value;
    PlanFits(plan.sql, plan.legacyParser, Form.NativeForm);
    PlanMerges(plan.sql, plan.legacyParser, Form.NativeForm);
    PlanAligned(plan.sql, plan.legacyParser);
    AlignedWithoutNatives(ItemsOf(plan.sql), 0, n.placeholders, n.natives);
    WovenNative(n, Slots(n), ItemsOf(plan.sql), 0, n.placeholders);
    native := RenderPlan(plan, Form.NativeForm);
  }

  // What the pieces of a statement are like.
  ghost predicate Fitting(items: seq<Item>, pieces: seq<Piece>)
  {
    Source(pieces) == items && NumberSwaps(pieces) && forall i :: 0 <= i < |items| ==> pieces[i].item == items[i]
  }

  lemma {:induction false} PiecesFit(items: seq<Item>, pdo: seq<Placeholder>)
    requires forall i :: 0 <= i < |items| ==> Opens(items[i])
    ensures Fitting(items, NativePieces(items, pdo))
  {
    if items != [] {
      var i := items[0];
      var swapped := PdoKind(i.kind) && pdo != [];
      var rest := if swapped then pdo[1..] else pdo;
      var p := if swapped then Swap(i, NumberOf(pdo[0])) else Keep(i);
      PiecesFit(items[1..], rest);
      assert Opens(i);
      FitFirst(p, NativePieces(items[1..], rest), items);
    }
  }

  lemma FitFirst(p: Piece, rest: seq<Piece>, items: seq<Item>)
    requires items != [] && p.item == items[0] && NumberSwap(p) && Fitting(items[1..], rest)
    ensures Fitting(items, [p] + rest)
  {
    var all := [p] + rest;
    assert all[1..] == rest && items == [items[0]] + items[1..];
    assert |rest| == |items| - 1;
    forall i | 0 <= i < |all|
      ensures NumberSwap(all[i]) && all[i].item == items[i]
    {
      assert i > 0 ==> all[i] == rest[i - 1] && items[1..][i - 1] == items[i];
    }
  }

  lemma NativeWhole(sql: Bytes, legacy: bool)
    requires NumbersOf(sql, legacy).Ok?
    ensures Whole(-1, PiecesFor(sql, legacy), false) && Original(PiecesFor(sql, legacy)) == sql
  {
    var items, pieces := ItemsOf(sql), PiecesFor(sql, legacy);
    ItemsConcat(-1, sql, false);
    ItemsOpen(-1, sql, false);
    PiecesFit(items, NumbersOf(sql, legacy).value.placeholders);
    CutsItems(-1, pieces, false);
    RefusedExactlyWhenMixed(items, legacy);
    NotMixed(items, pieces);
  }

  lemma NotMixed(items: seq<Item>, pieces: seq<Piece>)
    requires Fitting(items, pieces) && |pieces| == |items|
    requires !exists i, j :: 0 <= j < i < |items| && PdoKind(items[i].kind) && PdoKind(items[j].kind)
                             && items[j].kind != items[i].kind
    ensures OneStyle(pieces)
  {
  }

  // The prepared statement has the tokens of the original, $n in the place of each PDO
  // placeholder, exactly when no placeholder stands right behind a word, a lone $ or a
  // $name, and none is followed by a digit, or by _ and a digit.
  lemma NativeKeepsTokens(sql: Bytes, legacy: bool)
    requires NumbersOf(sql, legacy).Ok?
    ensures NumberSwaps(PiecesFor(sql, legacy))
    ensures Tokens(ItemsOf(NativeOf(sql, legacy))) == NumberedTokens(PiecesFor(sql, legacy)) <==> Untouched(PiecesFor(sql, legacy))
  {
    var pieces := PiecesFor(sql, legacy);
    NativeWhole(sql, legacy);
    if Untouched(pieces) {
      InlinedReads(-1, -1, pieces, false);
    } else {
      InlinedChanges(-1, -1, pieces, false);
    }
  }

  const FOLLOWED: Bytes := [63, 49]   // ?1
  const PRECEDED: Bytes := [97, 63]   // a?

  // "?1" holds one placeholder; what is prepared is $11.
  lemma FollowedExample(sql: Bytes)
    requires sql == FOLLOWED
    ensures NumbersOf(sql, false).Ok? && |NumbersOf(sql, false).value.placeholders| == 1
    ensures NativeOf(sql, false) == [DOLLAR, 49, 49] && !Untouched(PiecesFor(sql, false))
  {
    FollowedItems(sql);
    FollowedNumbers(ItemsOf(sql));
    var pdo := NumbersOf(sql, false).value.placeholders;
    FollowedPieces(ItemsOf(sql), pdo);
  }

  lemma FollowedItems(sql: Bytes)
    requires sql == FOLLOWED
    ensures ItemsOf(sql) == [Item(Positional, [63]), Item(Other, [49])]
  {
    assert sql == [63] + [49];
    FirstItem(-1, [63], [49], Positional, false);
    assert [49] + [] == [49];
    FirstItem(63, [49], [], Other, true);
  }

  lemma FollowedNumbers(items: seq<Item>)
    requires items == [Item(Positional, [63]), Item(Other, [49])]
    ensures Number(START, 0, items, false).Some?
    ensures var pdo := Number(START, 0, items, false).value.placeholders; |pdo| == 1 && pdo[0].index == 0
  {
    var n := Numbering.NumberItem(START, 0, items[0], false).value;
    assert items[1..] == [items[1]] && items[1..][1..] == [];
    assert Number(START, 0, items, false) == Number(n, 1, items[1..], false) == Number(n, 2, items[1..][1..], false) == Some(n);
  }

  lemma FollowedPieces(items: seq<Item>, pdo: seq<Placeholder>)
    requires items == [Item(Positional, [63]), Item(Other, [49])] && |pdo| == 1 && pdo[0].index == 0
    ensures Inlined(NativePieces(items, pdo)) == [DOLLAR, 49, 49] && !Untouched(NativePieces(items, pdo))
  {
    var pieces := NativePieces(items, pdo);
    assert NumberOf(pdo[0]) == [DOLLAR, 49];
    assert pieces == [Swap(items[0], [DOLLAR, 49])] + NativePieces(items[1..], pdo[1..]);
    assert NativePieces(items[1..], pdo[1..]) == [Keep(items[1])] + NativePieces(items[1..][1..], pdo[1..]);
    assert pieces[1..] == [Keep(items[1])] && pieces[1..][1..] == [];
    assert Inlined(pieces[1..]) == [49] + Inlined([]) == [49];
    assert Source(pieces[1..]) == [items[1]] + Source([]) && Concat([items[1]]) == [49] + Concat([items[1]][1..]);
    assert Lengthened(pieces);
  }

  // "a?" holds one placeholder; what is prepared is the word a$1.
  lemma PrecededExample(sql: Bytes)
    requires sql == PRECEDED
    ensures NumbersOf(sql, false).Ok? && |NumbersOf(sql, false).value.placeholders| == 1
    ensures NativeOf(sql, false) == [97, DOLLAR, 49] && !Untouched(PiecesFor(sql, false))
  {
    PrecededItems(sql);
    PrecededNumbers(ItemsOf(sql));
    PrecededPieces(ItemsOf(sql), NumbersOf(sql, false).value.placeholders);
  }

  lemma PrecededItems(sql: Bytes)
    requires sql == PRECEDED
    ensures ItemsOf(sql) == [Item(Word, [97]), Item(Positional, [63])]
  {
    assert sql == [97] + [63] && sql[1..] == [63];
    assert WordLength(sql[1..]) == 0;
    FirstItem(-1, [97], [63], Word, false);
    assert [63] + [] == [63];
    FirstItem(97, [63], [], Positional, true);
  }

  lemma PrecededNumbers(items: seq<Item>)
    requires items == [Item(Word, [97]), Item(Positional, [63])]
    ensures Number(START, 0, items, false).Some?
    ensures var pdo := Number(START, 0, items, false).value.placeholders; |pdo| == 1 && pdo[0].index == 0
  {
    var n := Numbering.NumberItem(START, 1, items[1], false).value;
    assert items[1..] == [items[1]] && items[1..][1..] == [];
    assert Number(START, 0, items, false) == Number(START, 1, items[1..], false) == Number(n, 2, items[1..][1..], false) == Some(n);
  }

  lemma PrecededPieces(items: seq<Item>, pdo: seq<Placeholder>)
    requires items == [Item(Word, [97]), Item(Positional, [63])] && |pdo| == 1 && pdo[0].index == 0
    ensures Inlined(NativePieces(items, pdo)) == [97, DOLLAR, 49] && !Untouched(NativePieces(items, pdo))
  {
    var pieces := NativePieces(items, pdo);
    assert NumberOf(pdo[0]) == [DOLLAR, 49];
    assert pieces == [Keep(items[0])] + NativePieces(items[1..], pdo);
    assert NativePieces(items[1..], pdo) == [Swap(items[1], [DOLLAR, 49])] + NativePieces(items[1..][1..], pdo[1..]);
    assert pieces[1..] == [Swap(items[1], [DOLLAR, 49])] && pieces[1..][1..] == [];
    assert Inlined(pieces[1..]) == [DOLLAR, 49] + Inlined([]) == [DOLLAR, 49];
    assert Sticks(pieces);
  }
}
