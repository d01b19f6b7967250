// Replacing placeholders between blanks and scanning the result again.
module Replace {
  import opened Text
  import opened SqlLexer
  import opened Rescan

  // A cut statement in which some placeholders are to be replaced by a text.
  datatype Piece = Keep(item: Item) | Swap(item: Item, text: Bytes)

  function Source(pieces: seq<Piece>): (items: seq<Item>)
    ensures |items| == |pieces|
  {
    if pieces == [] then [] else [pieces[0].item] + Source(pieces[1..])
  }

  function Original(pieces: seq<Piece>): Bytes { Concat(Source(pieces)) }

  // The statement that is sent on: each new text stands between two blanks.
  function Flatten(pieces: seq<Piece>): Bytes
  {
    if pieces == [] then []
    else
      (match pieces[0]
       case Keep(item) => item.text
       case Swap(_, text) => [SPACE] + text + [SPACE]) + Flatten(pieces[1..])
  }

  // The tokens of a text that stands between blanks.
  function OwnTokens(text: Bytes): seq<Item> { Tokens(Items(SPACE, text, true)) }

  // The tokens wanted: those of the statement, placeholders giving way to the
  // tokens of their texts.
  function PieceTokens(pieces: seq<Piece>): seq<Item>
  {
    if pieces == [] then []
    else
      (match pieces[0]
       case Keep(item) => Tokens([item])
       case Swap(_, text) => OwnTokens(text)) + PieceTokens(pieces[1..])
  }

  // A text whose tokens end with it whatever stands after the next blank.
  ghost predicate Inert(text: Bytes)
  {
    && text != []
    && forall rest: Bytes, seen: bool ::
         Tokens(Items(SPACE, text + [SPACE] + rest, seen)) == OwnTokens(text) + Tokens(Items(SPACE, rest, true))
  }

  predicate Replaceable(k: Kind) { PdoKind(k) || k.Native? }

  ghost predicate GoodSwap(p: Piece)
  {
    p.Swap? ==> Replaceable(p.item.kind) && p.item.text != [] && OpensEdit(p.item.text[0]) && Inert(p.text)
  }

  // A nameless $ swallows the blank in front of the next text.
  predicate GoodPair(p: Piece, q: Piece) { p.item.kind == BareDollar && q.Swap? ==> q.text != [] && q.text[0] == QUOTE }

  ghost predicate GoodSwaps(pieces: seq<Piece>) { forall i :: 0 <= i < |pieces| ==> GoodSwap(pieces[i]) }

  predicate GoodPairs(pieces: seq<Piece>) { forall i :: 0 <= i < |pieces| - 1 ==> GoodPair(pieces[i], pieces[i + 1]) }

  ghost predicate WellSwapped(pieces: seq<Piece>) { GoodSwaps(pieces) && GoodPairs(pieces) }

  // A replaced placeholder that shields a :name from being one.
  predicate Glued(p: Piece, after: Bytes)
  {
    p.Swap? && p.item.text != [] && IdentifierContinue(p.item.text[|p.item.text| - 1]) && OpensNamed(after)
  }

  predicate NoGlue(pieces: seq<Piece>)
  {
    pieces == [] || (!Glued(pieces[0], Original(pieces[1..])) && NoGlue(pieces[1..]))
  }

  function KeptLength(pieces: seq<Piece>): nat
  {
    if pieces == [] || pieces[0].Swap? then 0 else |pieces[0].item.text| + KeptLength(pieces[1..])
  }

  lemma {:induction false} FlattenAgrees(pieces: seq<Piece>)
    requires GoodSwaps(pieces)
    ensures Agree(SPACE, Original(pieces), Flatten(pieces), KeptLength(pieces))
  {
    if pieces != [] && pieces[0].Keep? {
      FlattenAgrees(pieces[1..]);
    }
  }

  // pieces cut the statement that stands after prev.
  ghost predicate Cuts(prev: int, pieces: seq<Piece>, seen: bool)
    decreases |pieces|
  {
    pieces == []
    || (var i := pieces[0].item;
        && i.text != []
        && Lex(prev, Original(pieces), seen) == Lexeme(i.kind, |i.text|)
        && Cuts(i.text[|i.text| - 1], pieces[1..], seen || Significant(i.kind)))
  }

  lemma {:induction false} CutsItems(prev: int, pieces: seq<Piece>, seen: bool)
    requires Source(pieces) == Items(prev, Original(pieces), seen)
    ensures Cuts(prev, pieces, seen)
    decreases |pieces|
  {
    if pieces != [] {
      var r := Original(pieces);
      var l := Lex(prev, r, seen);
      var rest := Items(r[l.length - 1], r[l.length..], seen || Significant(l.kind));
      assert Source(pieces)[0] == pieces[0].item;
      assert Source(pieces)[1..] == Source(pieces[1..]);
      assert Items(prev, r, seen)[1..] == rest;
      assert r[l.length..] == Original(pieces[1..]);
      CutsItems(r[l.length - 1], pieces[1..], seen || Significant(l.kind));
    }
  }

  lemma CutsStep(prev: int, pieces: seq<Piece>, seen: bool)
    requires Cuts(prev, pieces, seen) && pieces != []
    ensures var r := Original(pieces); var l := Lex(prev, r, seen); var t := pieces[0].item.text;
            && r == t + Original(pieces[1..]) && pieces[0].item == Item(l.kind, r[..l.length]) && |t| == l.length
            && Cuts(t[|t| - 1], pieces[1..], seen || Significant(l.kind))
  {
  }

  // What stands before a text matters only to a :name.
  ghost predicate SamePast(prev: int, prev': int, r: Bytes)
  {
    IdentifierContinue(prev) == IdentifierContinue(prev') || !OpensNamed(r)
  }

  ghost predicate Touches(pieces: seq<Piece>)
  {
    |pieces| > 1 && pieces[0].Keep? && pieces[0].item.kind == BareDollar && pieces[1].Swap?
  }

  lemma KeptReach(prev: int, pieces: seq<Piece>, seen: bool)
    requires Cuts(prev, pieces, seen) && pieces != [] && pieces[0].Keep? && !Touches(pieces)
    ensures var i, k := pieces[0].item, KeptLength(pieces);
            0 < |i.text| <= k && (i.kind != BareDollar || |i.text| < k || k == |Original(pieces)|)
  {
    if |pieces| > 1 && pieces[1].Keep? {
      CutsTail(prev, pieces, seen);
      assert KeptLength(pieces[1..]) > 0;
    } else if |pieces| == 1 {
      assert Original(pieces[1..]) == [];
    }
  }

  lemma LexKeep(prev: int, prev': int, pieces: seq<Piece>, seen: bool)
    requires Cuts(prev, pieces, seen) && GoodSwaps(pieces) && pieces != [] && pieces[0].Keep? && !Touches(pieces)
    requires SamePast(prev, prev', Original(pieces))
    ensures var i, s := pieces[0].item, Flatten(pieces);
            i.text != [] && s != [] && Lex(prev', s, seen) == Lexeme(i.kind, |i.text|)
  {
    KeptReach(prev, pieces, seen);
    FlattenAgrees(pieces);
    LexAgree(SPACE, prev, prev', Original(pieces), Flatten(pieces), KeptLength(pieces), seen);
  }

  lemma FirstItem(prev: int, t: Bytes, rest: Bytes, k: Kind, seen: bool)
    requires t != [] && Lex(prev, t + rest, seen) == Lexeme(k, |t|)
    ensures Items(prev, t + rest, seen) == [Item(k, t)] + Items(t[|t| - 1], rest, seen || Significant(k))
  {
    assert (t + rest)[..|t|] == t && (t + rest)[|t|..] == rest;
  }

  lemma StepKeep(prev: int, prev': int, pieces: seq<Piece>, seen: bool)
    requires Cuts(prev, pieces, seen) && GoodSwaps(pieces) && pieces != [] && pieces[0].Keep? && !Touches(pieces)
    requires SamePast(prev, prev', Original(pieces)) && pieces[0].item.text != []
    ensures var i := pieces[0].item;
            Tokens(Items(prev', Flatten(pieces), seen))
            == Tokens([i]) + Tokens(Items(i.text[|i.text| - 1], Flatten(pieces[1..]), seen || Significant(i.kind)))
  {
    LexKeep(prev, prev', pieces, seen);
    KeepTokens(prev', pieces[0].item, Flatten(pieces[1..]), seen);
  }

  lemma KeepTokens(prev: int, i: Item, rest: Bytes, seen: bool)
    requires i.text != [] && Lex(prev, i.text + rest, seen) == Lexeme(i.kind, |i.text|)
    ensures Tokens(Items(prev, i.text + rest, seen))
         == Tokens([i]) + Tokens(Items(i.text[|i.text| - 1], rest, seen || Significant(i.kind)))
  {
    FirstItem(prev, i.text, rest, i.kind, seen);
    TokensFirst(i, Items(i.text[|i.text| - 1], rest, seen || Significant(i.kind)));
  }

  lemma StepSpace(prev: int, s: Bytes, seen: bool)
    ensures Tokens(Items(prev, [SPACE] + s, seen)) == Tokens(Items(SPACE, s, seen))
  {
    var t := [SPACE] + s;
    assert Lex(prev, t, seen) == Lexeme(White, 1);
    assert t[1..] == s;
    var rest := Items(SPACE, s, seen);
    assert Items(prev, t, seen) == [Item(White, t[..1])] + rest;
    assert ([Item(White, t[..1])] + rest)[1..] == rest;
  }

  lemma StepSwap(prev: int, pieces: seq<Piece>, seen: bool)
    requires GoodSwaps(pieces) && pieces != [] && pieces[0].Swap?
    ensures Tokens(Items(prev, Flatten(pieces), seen))
         == OwnTokens(pieces[0].text) + Tokens(Items(SPACE, Flatten(pieces[1..]), true))
  {
    var text, rest := pieces[0].text, Flatten(pieces[1..]);
    assert GoodSwap(pieces[0]);
    assert Flatten(pieces) == [SPACE] + (text + [SPACE] + rest);
    StepSpace(prev, text + [SPACE] + rest, seen);
  }

  lemma FlattenTouch(pieces: seq<Piece>)
    requires Touches(pieces)
    ensures Flatten(pieces) == pieces[0].item.text + [SPACE] + (pieces[1].text + [SPACE] + Flatten(pieces[2..]))
    ensures KeptLength(pieces) == |pieces[0].item.text|
  {
    assert pieces[1..][1..] == pieces[2..];
    assert Flatten(pieces[1..]) == [SPACE] + pieces[1].text + [SPACE] + Flatten(pieces[2..]);
    assert KeptLength(pieces[1..]) == 0;
  }

  lemma OriginalTouch(pieces: seq<Piece>)
    requires GoodSwaps(pieces) && Touches(pieces) && GoodPair(pieces[0], pieces[1])
    ensures |pieces[0].item.text| < |Original(pieces)|
    ensures pieces[1].text != [] && pieces[1].text[0] == QUOTE
  {
    assert GoodSwap(pieces[1]);
    assert Original(pieces[1..]) == pieces[1].item.text + Original(pieces[1..][1..]);
  }

  lemma BareFirst(prev: int, s: Bytes, seen: bool, k: nat)
    requires 0 < k <= |s| && Lex(prev, s, seen) == Lexeme(BareDollar, k)
    ensures Tokens(Items(prev, s, seen)) == [Item(BareDollar, [DOLLAR])] + Tokens(Items(s[k - 1], s[k..], true))
  {
    var rest := Items(s[k - 1], s[k..], true);
    assert Items(prev, s, seen) == [Item(BareDollar, s[..k])] + rest;
    TokensFirst(Item(BareDollar, s[..k]), rest);
  }

  lemma TouchLex(prev: int, prev': int, pieces: seq<Piece>, seen: bool)
    requires Cuts(prev, pieces, seen) && GoodSwaps(pieces) && Touches(pieces) && GoodPair(pieces[0], pieces[1])
    requires SamePast(prev, prev', Original(pieces))
    ensures var s, k := Flatten(pieces), |pieces[0].item.text|;
            0 < k < |s| && Lex(prev', s, seen) == Lexeme(BareDollar, k + 1)
  {
    CutsStep(prev, pieces, seen);
    FlattenTouch(pieces);
    OriginalTouch(pieces);
    FlattenAgrees(pieces);
    LexAgree(SPACE, prev, prev', Original(pieces), Flatten(pieces), |pieces[0].item.text|, seen);
  }

  lemma StepTouch(prev: int, prev': int, pieces: seq<Piece>, seen: bool)
    requires Cuts(prev, pieces, seen) && GoodSwaps(pieces) && Touches(pieces) && GoodPair(pieces[0], pieces[1])
    requires SamePast(prev, prev', Original(pieces))
    ensures Tokens(Items(prev', Flatten(pieces), seen))
         == Tokens([pieces[0].item]) + OwnTokens(pieces[1].text) + Tokens(Items(SPACE, Flatten(pieces[2..]), true))
  {
    var s, k := Flatten(pieces), |pieces[0].item.text|;
    TouchLex(prev, prev', pieces, seen);
    FlattenTouch(pieces);
    TouchAssemble(prev', s, seen, k, pieces[0].item, pieces[1], Flatten(pieces[2..]));
  }

  lemma TouchAssemble(prev: int, s: Bytes, seen: bool, k: nat, i: Item, p: Piece, rest: Bytes)
    requires i.kind == BareDollar && |i.text| == k && p.Swap? && GoodSwap(p)
    requires s == i.text + [SPACE] + (p.text + [SPACE] + rest)
    requires Lex(prev, s, seen) == Lexeme(BareDollar, k + 1)
    ensures Tokens(Items(prev, s, seen)) == Tokens([i]) + OwnTokens(p.text) + Tokens(Items(SPACE, rest, true))
  {
    BareFirst(prev, s, seen, k + 1);
    assert s[k] == SPACE;
    assert s[k + 1..] == p.text + [SPACE] + rest;
    assert Tokens([i]) == [Item(BareDollar, [DOLLAR])];
  }

  lemma TokensFirst(i: Item, rest: seq<Item>)
    ensures Tokens([i] + rest) == Tokens([i]) + Tokens(rest)
  {
    TokensConcat([i], rest);
  }

  lemma CutsTail(prev: int, pieces: seq<Piece>, seen: bool)
    requires Cuts(prev, pieces, seen) && pieces != []
    ensures var i := pieces[0].item;
            i.text != [] && Cuts(i.text[|i.text| - 1], pieces[1..], seen || Significant(i.kind))
  {
  }

  lemma WellSwappedTail(pieces: seq<Piece>)
    requires WellSwapped(pieces) && pieces != []
    ensures WellSwapped(pieces[1..])
  {
    forall i | 0 <= i < |pieces[1..]| - 1
      ensures GoodPair(pieces[1..][i], pieces[1..][i + 1])
    {
      assert GoodPair(pieces[i + 1], pieces[i + 2]);
    }
  }

  lemma SwapPast(p: Piece, after: Bytes)
    requires p.Swap? && p.item.text != [] && !Glued(p, after)
    ensures SamePast(p.item.text[|p.item.text| - 1], SPACE, after)
  {
  }

  lemma SwapTail(prev: int, pieces: seq<Piece>, seen: bool)
    requires Cuts(prev, pieces, seen) && WellSwapped(pieces) && pieces != [] && pieces[0].Swap?
    ensures var t := pieces[0].item.text;
            t != [] && Cuts(t[|t| - 1], pieces[1..], true) && WellSwapped(pieces[1..])
  {
    CutsTail(prev, pieces, seen);
    WellSwappedTail(pieces);
    assert GoodSwap(pieces[0]);
  }

  lemma PieceTokensTouch(pieces: seq<Piece>)
    requires Touches(pieces)
    ensures PieceTokens(pieces)
         == Tokens([pieces[0].item]) + OwnTokens(pieces[1].text) + PieceTokens(pieces[2..])
  {
    assert pieces[1..][1..] == pieces[2..];
    assert PieceTokens(pieces[1..]) == OwnTokens(pieces[1].text) + PieceTokens(pieces[2..]);
  }

  // Scanning what is sent on yields the tokens wanted.
  ghost predicate ScansTo(prev: int, pieces: seq<Piece>, seen: bool)
  {
    Tokens(Items(prev, Flatten(pieces), seen)) == PieceTokens(pieces)
  }

  lemma ScanSwap(prev: int, pieces: seq<Piece>, seen: bool)
    requires WellSwapped(pieces) && pieces != [] && pieces[0].Swap? && ScansTo(SPACE, pieces[1..], true)
    ensures ScansTo(prev, pieces, seen)
  {
    StepSwap(prev, pieces, seen);
  }

  lemma ScanTouch(prev: int, prev': int, pieces: seq<Piece>, seen: bool)
    requires Cuts(prev, pieces, seen) && GoodSwaps(pieces) && Touches(pieces) && GoodPair(pieces[0], pieces[1])
    requires SamePast(prev, prev', Original(pieces)) && ScansTo(SPACE, pieces[2..], true)
    ensures ScansTo(prev', pieces, seen)
  {
    StepTouch(prev, prev', pieces, seen);
    PieceTokensTouch(pieces);
  }

  lemma ScanKeep(prev: int, prev': int, pieces: seq<Piece>, seen: bool)
    requires Cuts(prev, pieces, seen) && WellSwapped(pieces) && pieces != [] && pieces[0].Keep? && !Touches(pieces)
    requires SamePast(prev, prev', Original(pieces)) && pieces[0].item.text != []
    requires var i := pieces[0].item; ScansTo(i.text[|i.text| - 1], pieces[1..], seen || Significant(i.kind))
    ensures ScansTo(prev', pieces, seen)
  {
    StepKeep(prev, prev', pieces, seen);
  }

  // Replacing placeholders changes no other token.
  lemma {:induction false} Rescanned(prev: int, prev': int, pieces: seq<Piece>, seen: bool)
    requires Cuts(prev, pieces, seen) && WellSwapped(pieces) && NoGlue(pieces)
    requires SamePast(prev, prev', Original(pieces))
    ensures ScansTo(prev', pieces, seen)
    decreases |pieces|, 1
  {
    if pieces == [] {
    } else if pieces[0].Swap? {
      RescannedAfterSwap(prev, pieces, seen);
      ScanSwap(prev', pieces, seen);
    } else {
      CutsTail(prev, pieces, seen);
      WellSwappedTail(pieces);
      var i := pieces[0].item;
      var last := i.text[|i.text| - 1];
      if Touches(pieces) {
        RescannedAfterSwap(last, pieces[1..], true);
        assert pieces[1..][1..] == pieces[2..];
        ScanTouch(prev, prev', pieces, seen);
      } else {
        Rescanned(last, last, pieces[1..], seen || Significant(i.kind));
        ScanKeep(prev, prev', pieces, seen);
      }
    }
  }

  lemma {:induction false} RescannedAfterSwap(prev: int, pieces: seq<Piece>, seen: bool)
    requires Cuts(prev, pieces, seen) && WellSwapped(pieces) && pieces != [] && pieces[0].Swap?
    requires !Glued(pieces[0], Original(pieces[1..])) && NoGlue(pieces[1..])
    ensures ScansTo(SPACE, pieces[1..], true)
    decreases |pieces|, 0
  {
    SwapTail(prev, pieces, seen);
    var t, tail := pieces[0].item.text, pieces[1..];
    SwapPast(pieces[0], Original(tail));
    Rescanned(t[|t| - 1], SPACE, tail, true);
  }

  ghost predicate HasPdo(tokens: seq<Item>) { exists i :: 0 <= i < |tokens| && PdoKind(tokens[i].kind) }

  lemma NamedFirst(s: Bytes)
    requires OpensNamed(s)
    ensures Tokens(Items(SPACE, s, true)) != [] && Tokens(Items(SPACE, s, true))[0].kind == Named
    ensures HasPdo(Tokens(Items(SPACE, s, true)))
  {
    var l := Lex(SPACE, s, true);
    assert l.kind == Named;
    var i := Item(Named, s[..l.length]);
    var rest := Items(s[l.length - 1], s[l.length..], true);
    assert Items(SPACE, s, true) == [i] + rest;
    TokensFirst(i, rest);
    assert Tokens([i]) == [i];
    assert Tokens(Items(SPACE, s, true))[0] == i;
  }

  lemma UnshieldedName(last: int, pieces: seq<Piece>)
    requires Cuts(last, pieces, true) && GoodSwaps(pieces)
    requires IdentifierContinue(last) && OpensNamed(Original(pieces))
    ensures HasPdo(Tokens(Items(SPACE, Flatten(pieces), true)))
  {
    FlattenAgrees(pieces);
    CutsStep(last, pieces, true);
    assert pieces[0].item.kind == Other;
    assert GoodSwap(pieces[0]);
    assert KeptLength(pieces) > 1;
    NamedFirst(Flatten(pieces));
  }

  lemma HasPdoAfter(a: seq<Item>, b: seq<Item>)
    requires HasPdo(b)
    ensures HasPdo(a + b)
  {
    var i :| 0 <= i < |b| && PdoKind(b[i].kind);
    assert (a + b)[|a| + i] == b[i];
  }

  ghost predicate ScansToPdo(prev: int, pieces: seq<Piece>, seen: bool)
  {
    HasPdo(Tokens(Items(prev, Flatten(pieces), seen)))
  }

  lemma PdoSwap(prev: int, pieces: seq<Piece>, seen: bool)
    requires WellSwapped(pieces) && pieces != [] && pieces[0].Swap? && ScansToPdo(SPACE, pieces[1..], true)
    ensures ScansToPdo(prev, pieces, seen)
  {
    StepSwap(prev, pieces, seen);
    HasPdoAfter(OwnTokens(pieces[0].text), Tokens(Items(SPACE, Flatten(pieces[1..]), true)));
  }

  lemma PdoTouch(prev: int, prev': int, pieces: seq<Piece>, seen: bool)
    requires Cuts(prev, pieces, seen) && WellSwapped(pieces) && Touches(pieces)
    requires SamePast(prev, prev', Original(pieces)) && ScansToPdo(SPACE, pieces[2..], true)
    ensures ScansToPdo(prev', pieces, seen)
  {
    StepTouch(prev, prev', pieces, seen);
    HasPdoAfter(Tokens([pieces[0].item]) + OwnTokens(pieces[1].text),
                Tokens(Items(SPACE, Flatten(pieces[2..]), true)));
  }

  lemma PdoKeep(prev: int, prev': int, pieces: seq<Piece>, seen: bool)
    requires Cuts(prev, pieces, seen) && WellSwapped(pieces) && pieces != [] && pieces[0].Keep? && !Touches(pieces)
    requires SamePast(prev, prev', Original(pieces)) && pieces[0].item.text != []
    requires var i := pieces[0].item; ScansToPdo(i.text[|i.text| - 1], pieces[1..], seen || Significant(i.kind))
    ensures ScansToPdo(prev', pieces, seen)
  {
    var i := pieces[0].item;
    StepKeep(prev, prev', pieces, seen);
    HasPdoAfter(Tokens([i]), Tokens(Items(i.text[|i.text| - 1], Flatten(pieces[1..]), seen || Significant(i.kind))));
  }

  // A replaced placeholder that shielded a :name uncovers it.
  lemma {:induction false} Uncovered(prev: int, prev': int, pieces: seq<Piece>, seen: bool)
    requires Cuts(prev, pieces, seen) && WellSwapped(pieces) && !NoGlue(pieces)
    requires SamePast(prev, prev', Original(pieces))
    ensures ScansToPdo(prev', pieces, seen)
    decreases |pieces|, 1
  {
    if pieces[0].Swap? {
      UncoveredAfterSwap(prev, pieces, seen);
      PdoSwap(prev', pieces, seen);
    } else {
      CutsTail(prev, pieces, seen);
      WellSwappedTail(pieces);
      var i := pieces[0].item;
      var last := i.text[|i.text| - 1];
      if Touches(pieces) {
        UncoveredAfterSwap(last, pieces[1..], true);
        assert pieces[1..][1..] == pieces[2..];
        PdoTouch(prev, prev', pieces, seen);
      } else {
        Uncovered(last, last, pieces[1..], seen || Significant(i.kind));
        PdoKeep(prev, prev', pieces, seen);
      }
    }
  }

  lemma {:induction false} UncoveredAfterSwap(prev: int, pieces: seq<Piece>, seen: bool)
    requires Cuts(prev, pieces, seen) && WellSwapped(pieces) && !NoGlue(pieces) && pieces[0].Swap?
    ensures ScansToPdo(SPACE, pieces[1..], true)
    decreases |pieces|, 0
  {
    SwapTail(prev, pieces, seen);
    var t, tail := pieces[0].item.text, pieces[1..];
    if Glued(pieces[0], Original(tail)) {
      UnshieldedName(t[|t| - 1], tail);
    } else {
      SwapPast(pieces[0], Original(tail));
      Uncovered(t[|t| - 1], SPACE, tail, true);
    }
  }

  // ---- What a replacement breaks ----

  // The text opens a string or a name.
  predicate Leads(text: Bytes) { text != [] && (text[0] == QUOTE || Letter(text[0])) }

  ghost predicate LeadingSwaps(pieces: seq<Piece>)
  {
    forall i :: 0 <= i < |pieces| ==> GoodSwap(pieces[i]) && (pieces[i].Swap? ==> Leads(pieces[i].text))
  }

  lemma PairsFirst(pieces: seq<Piece>)
    requires |pieces| > 1
    ensures GoodPairs(pieces) <==> GoodPair(pieces[0], pieces[1]) && GoodPairs(pieces[1..])
  {
    if GoodPairs(pieces) {
      forall i | 0 <= i < |pieces[1..]| - 1
        ensures GoodPair(pieces[1..][i], pieces[1..][i + 1])
      {
        assert GoodPair(pieces[i + 1], pieces[i + 2]);
      }
    }
    if GoodPair(pieces[0], pieces[1]) && GoodPairs(pieces[1..]) {
      forall i | 0 <= i < |pieces| - 1
        ensures GoodPair(pieces[i], pieces[i + 1])
      {
        assert i > 0 ==> GoodPair(pieces[1..][i - 1], pieces[1..][i]);
      }
    }
  }

  // Where the first tokens differ, so do the streams.
  lemma HeadsDiffer(a: seq<Item>, b: seq<Item>)
    requires a != [] && b != [] && a[0].kind != b[0].kind
    ensures a != b
  {
  }

  lemma KeepFirst(pieces: seq<Piece>)
    requires pieces != [] && pieces[0].Keep? && pieces[0].item.kind != White
    ensures PieceTokens(pieces) != [] && PieceTokens(pieces)[0].kind == pieces[0].item.kind
  {
    var i := pieces[0].item;
    assert [i][1..] == [];
    assert Tokens([i]) == TokenOf(i) + Tokens([]) == TokenOf(i);
  }

  // The uncovered name is the first token of what follows, where a colon was.
  lemma UncoveredFirst(last: int, pieces: seq<Piece>)
    requires Cuts(last, pieces, true) && GoodSwaps(pieces)
    requires IdentifierContinue(last) && OpensNamed(Original(pieces))
    ensures !ScansTo(SPACE, pieces, true)
  {
    FlattenAgrees(pieces);
    CutsStep(last, pieces, true);
    assert pieces[0].item.kind == Other && GoodSwap(pieces[0]);
    assert KeptLength(pieces) > 1;
    KeepFirst(pieces);
    NamedFirst(Flatten(pieces));
    HeadsDiffer(Tokens(Items(SPACE, Flatten(pieces), true)), PieceTokens(pieces));
  }

  // A nameless $ takes the name that an unquoted text opens with.
  lemma SwallowedFirst(prev: int, prev': int, pieces: seq<Piece>, seen: bool)
    requires Cuts(prev, pieces, seen) && LeadingSwaps(pieces) && Touches(pieces) && !GoodPair(pieces[0], pieces[1])
    ensures !ScansTo(prev', pieces, seen)
  {
    var s, k := Flatten(pieces), |pieces[0].item.text|;
    CutsStep(prev, pieces, seen);
    FlattenTouch(pieces);
    assert GoodSwap(pieces[0]) && GoodSwap(pieces[1]) && Leads(pieces[1].text);
    assert Original(pieces[1..]) == pieces[1].item.text + Original(pieces[1..][1..]);
    FlattenAgrees(pieces);
    DollarSwallows(prev, prev', Original(pieces), s, k, seen);
    var l := Lex(prev', s, seen);
    assert Items(prev', s, seen)[0] == Item(l.kind, s[..l.length]);
    KeepFirst(pieces);
    HeadsDiffer(Tokens(Items(prev', s, seen)), PieceTokens(pieces));
  }

  lemma StillDiffer(head: seq<Item>, a: seq<Item>, b: seq<Item>)
    requires a != b
    ensures head + a != head + b
  {
    assert a == (head + a)[|head|..] && b == (head + b)[|head|..];
  }

  lemma ChangeSwap(prev: int, pieces: seq<Piece>, seen: bool)
    requires GoodSwaps(pieces) && pieces != [] && pieces[0].Swap? && !ScansTo(SPACE, pieces[1..], true)
    ensures !ScansTo(prev, pieces, seen)
  {
    StepSwap(prev, pieces, seen);
    StillDiffer(OwnTokens(pieces[0].text), Tokens(Items(SPACE, Flatten(pieces[1..]), true)), PieceTokens(pieces[1..]));
  }

  lemma ChangeTouch(prev: int, prev': int, pieces: seq<Piece>, seen: bool)
    requires Cuts(prev, pieces, seen) && GoodSwaps(pieces) && Touches(pieces) && GoodPair(pieces[0], pieces[1])
    requires SamePast(prev, prev', Original(pieces)) && !ScansTo(SPACE, pieces[2..], true)
    ensures !ScansTo(prev', pieces, seen)
  {
    StepTouch(prev, prev', pieces, seen);
    PieceTokensTouch(pieces);
    StillDiffer(Tokens([pieces[0].item]) + OwnTokens(pieces[1].text), Tokens(Items(SPACE, Flatten(pieces[2..]), true)),
                PieceTokens(pieces[2..]));
  }

  lemma ChangeKeep(prev: int, prev': int, pieces: seq<Piece>, seen: bool)
    requires Cuts(prev, pieces, seen) && GoodSwaps(pieces) && pieces != [] && pieces[0].Keep? && !Touches(pieces)
    requires SamePast(prev, prev', Original(pieces)) && pieces[0].item.text != []
    requires var i := pieces[0].item; !ScansTo(i.text[|i.text| - 1], pieces[1..], seen || Significant(i.kind))
    ensures !ScansTo(prev', pieces, seen)
  {
    var i := pieces[0].item;
    StepKeep(prev, prev', pieces, seen);
    StillDiffer(Tokens([i]), Tokens(Items(i.text[|i.text| - 1], Flatten(pieces[1..]), seen || Significant(i.kind))),
                PieceTokens(pieces[1..]));
  }

  // What is wrong further on.
  lemma WrongLater(pieces: seq<Piece>)
    requires pieces != [] && !(NoGlue(pieces) && GoodPairs(pieces)) && !Glued(pieces[0], Original(pieces[1..]))
    requires |pieces| > 1 ==> GoodPair(pieces[0], pieces[1])
    ensures !(NoGlue(pieces[1..]) && GoodPairs(pieces[1..]))
  {
    if |pieces| > 1 {
      PairsFirst(pieces);
    }
  }

  lemma LeadingTail(pieces: seq<Piece>)
    requires LeadingSwaps(pieces)
    ensures GoodSwaps(pieces)
    ensures pieces != [] ==> LeadingSwaps(pieces[1..]) && GoodSwap(pieces[0])
  {
  }

  // A glued replacement uncovers what stands next.
  lemma GluedChanges(prev: int, pieces: seq<Piece>, seen: bool)
    requires Cuts(prev, pieces, seen) && LeadingSwaps(pieces) && pieces != [] && pieces[0].Swap?
    requires Glued(pieces[0], Original(pieces[1..]))
    ensures !ScansTo(SPACE, pieces[1..], true)
  {
    var t := pieces[0].item.text;
    CutsTail(prev, pieces, seen);
    LeadingTail(pieces);
    LeadingTail(pieces[1..]);
    UncoveredFirst(t[|t| - 1], pieces[1..]);
  }

  // Such a replacement changes the token stream.
  lemma {:induction false} Changed(prev: int, prev': int, pieces: seq<Piece>, seen: bool)
    requires Cuts(prev, pieces, seen) && LeadingSwaps(pieces) && !(NoGlue(pieces) && GoodPairs(pieces))
    requires SamePast(prev, prev', Original(pieces))
    ensures !ScansTo(prev', pieces, seen)
    decreases |pieces|, 1
  {
    LeadingTail(pieces);
    if pieces[0].Swap? {
      ChangedAfterSwap(prev, pieces, seen);
      ChangeSwap(prev', pieces, seen);
    } else {
      CutsTail(prev, pieces, seen);
      var i := pieces[0].item;
      var last := i.text[|i.text| - 1];
      if !Touches(pieces) {
        WrongLater(pieces);
        Changed(last, last, pieces[1..], seen || Significant(i.kind));
        ChangeKeep(prev, prev', pieces, seen);
      } else if GoodPair(pieces[0], pieces[1]) {
        WrongLater(pieces);
        ChangedAfterSwap(last, pieces[1..], true);
        assert pieces[1..][1..] == pieces[2..];
        ChangeTouch(prev, prev', pieces, seen);
      } else {
        SwallowedFirst(prev, prev', pieces, seen);
      }
    }
  }

  lemma {:induction false} ChangedAfterSwap(prev: int, pieces: seq<Piece>, seen: bool)
    requires Cuts(prev, pieces, seen) && LeadingSwaps(pieces) && pieces != [] && pieces[0].Swap?
    requires !(NoGlue(pieces) && GoodPairs(pieces))
    ensures !ScansTo(SPACE, pieces[1..], true)
    decreases |pieces|, 0
  {
    var t, tail := pieces[0].item.text, pieces[1..];
    if Glued(pieces[0], Original(tail)) {
      GluedChanges(prev, pieces, seen);
    } else {
      CutsTail(prev, pieces, seen);
      LeadingTail(pieces);
      SwapPast(pieces[0], Original(tail));
      WrongLater(pieces);
      Changed(t[|t| - 1], SPACE, tail, true);
    }
  }
}
