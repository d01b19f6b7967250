// What a scanner makes of a statement whose placeholders have become $1, $2, ...
// with no blanks around them, as they are sent to DuckDB.
module Inlining {
  import opened Text
  import opened Digits
  import opened SqlLexer
  import opened Rescan
  import opened Replace

  // The statement with the new texts set in as they are.
  function Inlined(pieces: seq<Piece>): Bytes
  {
    if pieces == [] then []
    else (if pieces[0].Swap? then pieces[0].text else pieces[0].item.text) + Inlined(pieces[1..])
  }

  function NumberItem(text: Bytes): Item
    requires text != []
  {
    Item(Native(text[1..], true, 0), text)
  }

  predicate NumberText(text: Bytes) { |text| > 1 && text[0] == DOLLAR && AllDigits(text[1..]) }

  predicate NumberSwap(p: Piece)
  {
    p.Swap? ==>
      && NumberText(p.text) && PdoKind(p.item.kind) && p.item.text != []
      && (p.item.text[0] == QUESTION || p.item.text[0] == COLON)
      && (p.item.kind == Named ==> IdentifierContinue(p.item.text[|p.item.text| - 1]))
  }

  predicate NumberSwaps(pieces: seq<Piece>) { forall i :: 0 <= i < |pieces| ==> NumberSwap(pieces[i]) }

  // The statement's tokens, a numbered parameter in the place of each placeholder.
  function NumberedTokens(pieces: seq<Piece>): seq<Item>
    requires NumberSwaps(pieces)
  {
    if pieces == [] then []
    else
      (assert NumberSwap(pieces[0]);
       if pieces[0].Swap? then [NumberItem(pieces[0].text)] else TokenOf(pieces[0].item)) + NumberedTokens(pieces[1..])
  }

  // ---- What must not touch ----

  // Behind these bytes a number would go on.
  predicate Lengthens(r: Bytes) { r != [] && (Digit(r[0]) || (r[0] == UNDERSCORE && |r| > 1 && Digit(r[1]))) }

  // The first piece is a word, a nameless $ or a $name that a $ would change.
  predicate Sticks(pieces: seq<Piece>)
  {
    |pieces| > 1 && pieces[0].Keep? && pieces[1].Swap? && Sticky(pieces[0].item)
  }

  predicate Lengthened(pieces: seq<Piece>)
  {
    pieces != [] && pieces[0].Swap? && Lengthens(Original(pieces[1..]))
  }

  predicate Untouched(pieces: seq<Piece>)
  {
    pieces == [] || (!Sticks(pieces) && !Lengthened(pieces) && Untouched(pieces[1..]))
  }

  // ? and :name do not occur together.
  predicate OneStyle(pieces: seq<Piece>)
  {
    forall i, j :: 0 <= i < |pieces| && 0 <= j < |pieces| ==> !(pieces[i].item.kind == Positional && pieces[j].item.kind == Named)
  }

  // ---- Numbers ----

  lemma {:induction false} NumberRun(digits: Bytes, rest: Bytes, afterDigit: bool)
    requires AllDigits(digits) && digits != []
    ensures NumberLength(digits + rest, afterDigit) == |digits| + NumberLength(rest, true)
    decreases |digits|
  {
    var x := digits + rest;
    assert x[1..] == digits[1..] + rest;
    if |digits| > 1 {
      NumberRun(digits[1..], rest, true);
    } else {
      assert digits[1..] + rest == rest;
    }
  }

  lemma NumberEnds(rest: Bytes)
    ensures NumberLength(rest, true) == 0 <==> !Lengthens(rest)
  {
  }

  // A number is read to its end, and beyond it only where the next bytes go on with it.
  lemma NumberLexed(prev: int, text: Bytes, rest: Bytes, seen: bool)
    requires NumberText(text)
    ensures var l := Lex(prev, text + rest, seen);
            && l.length == |text| + NumberLength(rest, true)
            && l.kind == Native((text + rest)[1..l.length], true, 0)
  {
    var s, digits := text + rest, text[1..];
    assert s[1..] == digits + rest;
    assert TriviaStep(s[1..]) == 0;
    assert DelimiterLength(s) == 0 && NameStart(s) == 1;
    NumberRun(digits, rest, false);
    assert LexDollar(s) == Lexeme(Native(s[1..][..NumberLength(s[1..], false)], true, 0), 1 + NumberLength(s[1..], false));
  }

  // ---- Agreement ----

  lemma {:induction false} InlinedAgrees(pieces: seq<Piece>)
    requires NumberSwaps(pieces)
    ensures Agree(DOLLAR, Original(pieces), Inlined(pieces), KeptLength(pieces))
  {
    if pieces != [] {
      assert NumberSwap(pieces[0]);
      if pieces[0].Keep? {
        InlinedAgrees(pieces[1..]);
      }
    }
  }

  lemma SameEnd(pieces: seq<Piece>)
    requires NumberSwaps(pieces)
    ensures Lengthens(Inlined(pieces)) <==> Lengthens(Original(pieces))
  {
    InlinedAgrees(pieces);
  }

  lemma KeptEnds(pieces: seq<Piece>)
    requires pieces != [] && pieces[0].Keep? && (forall i :: 0 <= i < |pieces| ==> pieces[i].item.text != [])
    ensures |pieces[0].item.text| <= KeptLength(pieces)
    ensures KeptLength(pieces) == |pieces[0].item.text| && |pieces| > 1 ==> pieces[1].Swap?
    ensures |pieces| == 1 ==> KeptLength(pieces) == |Original(pieces)|
  {
    if |pieces| > 1 {
      assert pieces[1..][0] == pieces[1];
    } else {
      assert Original(pieces[1..]) == [];
    }
  }

  // ---- Step by step ----

  ghost predicate Reads(prev: int, pieces: seq<Piece>, seen: bool)
    requires NumberSwaps(pieces)
  {
    Tokens(Items(prev, Inlined(pieces), seen)) == NumberedTokens(pieces)
  }

  ghost predicate Whole(prev: int, pieces: seq<Piece>, seen: bool)
  {
    Cuts(prev, pieces, seen) && NumberSwaps(pieces) && OneStyle(pieces)
  }

  lemma {:induction false} CutsSolid(prev: int, pieces: seq<Piece>, seen: bool)
    requires Cuts(prev, pieces, seen)
    ensures forall i :: 0 <= i < |pieces| ==> pieces[i].item.text != []
    decreases |pieces|
  {
    if pieces != [] {
      CutsTail(prev, pieces, seen);
      var i := pieces[0].item;
      CutsSolid(i.text[|i.text| - 1], pieces[1..], seen || Significant(i.kind));
      assert forall k :: 0 < k < |pieces| ==> pieces[k] == pieces[1..][k - 1];
    }
  }

  lemma WholeTail(prev: int, pieces: seq<Piece>, seen: bool)
    requires Whole(prev, pieces, seen) && pieces != []
    ensures var i := pieces[0].item;
            i.text != [] && Whole(i.text[|i.text| - 1], pieces[1..], seen || Significant(i.kind))
    ensures NumberSwap(pieces[0])
  {
    CutsTail(prev, pieces, seen);
  }

  // A piece that is kept and not stuck to is read as before.
  lemma KeepLexed(prev: int, prev': int, pieces: seq<Piece>, seen: bool)
    requires Whole(prev, pieces, seen) && pieces != [] && pieces[0].Keep? && !Sticks(pieces)
    requires SamePast(prev, prev', Original(pieces))
    ensures var i, s := pieces[0].item, Inlined(pieces);
            i.text != [] && s != [] && Lex(prev', s, seen) == Lexeme(i.kind, |i.text|)
  {
    var r, k := Original(pieces), KeptLength(pieces);
    CutsStep(prev, pieces, seen);
    CutsSolid(prev, pieces, seen);
    KeptEnds(pieces);
    InlinedAgrees(pieces);
    assert Loose(prev, r, k, seen);
    LexAgree(DOLLAR, prev, prev', r, Inlined(pieces), k, seen);
  }

  lemma NumberedFirst(pieces: seq<Piece>)
    requires NumberSwaps(pieces) && pieces != []
    ensures NumberSwap(pieces[0])
    ensures NumberedTokens(pieces)
         == (if pieces[0].Swap? then [NumberItem(pieces[0].text)] else Tokens([pieces[0].item])) + NumberedTokens(pieces[1..])
  {
    var i := pieces[0].item;
    assert NumberSwap(pieces[0]);
    assert [i][1..] == [];
    assert Tokens([i]) == TokenOf(i) + Tokens([]) == TokenOf(i);
  }

  lemma KeepRead(prev: int, prev': int, pieces: seq<Piece>, seen: bool)
    requires Whole(prev, pieces, seen) && pieces != [] && pieces[0].Keep? && !Sticks(pieces)
    requires SamePast(prev, prev', Original(pieces)) && pieces[0].item.text != []
    ensures var i := pieces[0].item;
            Reads(prev', pieces, seen) <==> Reads(i.text[|i.text| - 1], pieces[1..], seen || Significant(i.kind))
  {
    var i, rest := pieces[0].item, Inlined(pieces[1..]);
    KeepLexed(prev, prev', pieces, seen);
    KeepTokens(prev', i, rest, seen);
    NumberedFirst(pieces);
    SameAfter(Tokens([i]), Tokens(Items(i.text[|i.text| - 1], rest, seen || Significant(i.kind))), NumberedTokens(pieces[1..]));
  }

  lemma SameAfter(head: seq<Item>, a: seq<Item>, b: seq<Item>)
    ensures head + a == head + b <==> a == b
  {
    if a != b {
      StillDiffer(head, a, b);
    }
  }

  lemma SwapRead(prev: int, pieces: seq<Piece>, seen: bool)
    requires NumberSwaps(pieces) && pieces != [] && pieces[0].Swap? && !Lengthened(pieces) && NumberText(pieces[0].text)
    ensures Reads(prev, pieces, seen) <==> Reads(pieces[0].text[|pieces[0].text| - 1], pieces[1..], true)
  {
    var text, rest := pieces[0].text, Inlined(pieces[1..]);
    SameEnd(pieces[1..]);
    NumberEnds(rest);
    NumberLexed(prev, text, rest, seen);
    assert (text + rest)[1..|text|] == text[1..];
    var i := NumberItem(text);
    FirstItem(prev, text, rest, i.kind, seen);
    TokensFirst(i, Items(text[|text| - 1], rest, true));
    assert [i][1..] == [];
    assert Tokens([i]) == TokenOf(i) + Tokens([]) == [i];
    NumberedFirst(pieces);
    SameAfter([i], Tokens(Items(text[|text| - 1], rest, true)), NumberedTokens(pieces[1..]));
  }

  // Behind a number a :name is read as behind the placeholder.
  lemma PastNumber(prev: int, pieces: seq<Piece>, seen: bool)
    requires Whole(prev, pieces, seen) && pieces != [] && pieces[0].Swap?
    ensures var t, text := pieces[0].item.text, pieces[0].text;
            t != [] && text != [] && SamePast(t[|t| - 1], text[|text| - 1], Original(pieces[1..]))
  {
    WholeTail(prev, pieces, seen);
    var i, tail := pieces[0].item, pieces[1..];
    var last := i.text[|i.text| - 1];
    assert Digit(pieces[0].text[|pieces[0].text| - 1]);
    if i.kind == Positional {
      CutsStep(prev, pieces, seen);
      PositionalText(prev, Original(pieces), seen);
      if tail != [] {
        CutsStep(last, tail, true);
      }
    }
  }

  lemma PositionalText(prev: int, r: Bytes, seen: bool)
    requires r != [] && Lex(prev, r, seen).kind == Positional
    ensures Lex(prev, r, seen).length == 1 && r[0] == QUESTION
  {
  }

  // Where nothing touches, the tokens are as wanted.
  lemma {:induction false} InlinedReads(prev: int, prev': int, pieces: seq<Piece>, seen: bool)
    requires Whole(prev, pieces, seen) && Untouched(pieces) && SamePast(prev, prev', Original(pieces))
    ensures Reads(prev', pieces, seen)
    decreases |pieces|
  {
    if pieces != [] {
      WholeTail(prev, pieces, seen);
      var i, tail := pieces[0].item, pieces[1..];
      if pieces[0].Swap? {
        var text := pieces[0].text;
        PastNumber(prev, pieces, seen);
        InlinedReads(i.text[|i.text| - 1], text[|text| - 1], tail, true);
        SwapRead(prev', pieces, seen);
      } else {
        InlinedReads(i.text[|i.text| - 1], i.text[|i.text| - 1], tail, seen || Significant(i.kind));
        KeepRead(prev, prev', pieces, seen);
      }
    }
  }

  // ---- What touching breaks ----

  lemma {:induction false} WordLonger(r: Bytes, s: Bytes, k: nat)
    requires Agree(DOLLAR, r, s, k) && WordLength(r) == k < |r|
    ensures WordLength(s) > k
  {
    if k > 0 {
      AgreeDrop(DOLLAR, r, s, k, 1);
      WordLonger(r[1..], s[1..], k - 1);
    }
  }

  // A word goes on into the number.
  lemma WordSticks(prev: int, prev': int, r: Bytes, s: Bytes, k: nat, seen: bool)
    requires Agree(DOLLAR, r, s, k) && 0 < k < |r| && Lex(prev, r, seen) == Lexeme(Word, k)
    ensures Lex(prev', s, seen).kind == Word && Lex(prev', s, seen).length > k
  {
    TriviaStepAgree(DOLLAR, r, s, k);
    AgreeDrop(DOLLAR, r, s, k, 1);
    WordLonger(r[1..], s[1..], k - 1);
  }

  // A nameless $ or a $name becomes the start of a dollar quote.
  lemma DollarSticks(prev: int, prev': int, r: Bytes, s: Bytes, k: nat, seen: bool)
    requires Agree(DOLLAR, r, s, k) && 0 < k < |r|
    requires var l := Lex(prev, r, seen); l.length == k && l.kind != Word && Sticky(Item(l.kind, r[..k]))
    ensures Lex(prev', s, seen).kind == DollarQuoted
  {
    assert r[0] == DOLLAR && Lex(prev, r, seen) == LexDollar(r);
    if k > 1 {
      NameOpens(r, k);
    }
    TagCloses(r, s, k);
    QuoteOpens(prev', s, seen);
  }

  lemma TagCloses(r: Bytes, s: Bytes, k: nat)
    requires Agree(DOLLAR, r, s, k) && k > 0 && r[0] == DOLLAR && TagOpen(r, k)
    ensures DelimiterLength(s) > 0
  {
    if k > 1 {
      AgreeDrop(DOLLAR, r, s, k, 2);
      TagAgree(DOLLAR, r[2..], s[2..], k - 2);
    }
  }

  lemma QuoteOpens(prev: int, s: Bytes, seen: bool)
    requires s != [] && s[0] == DOLLAR && DelimiterLength(s) > 0
    ensures Lex(prev, s, seen).kind == DollarQuoted
  {
  }

  lemma NameOpens(r: Bytes, k: nat)
    requires r != [] && r[0] == DOLLAR && 1 < k < |r| && LexDollar(r).length == k && Sticky(Item(LexDollar(r).kind, r[..k]))
    ensures TagOpen(r, k)
  {
    var start := NameStart(r);
    assert DollarQuotedLength(r) == 0;
    assert start == 1;
    NameIsTag(r[1..]);
    assert r[1..][1..] == r[2..];
  }

  lemma StickChanges(prev: int, prev': int, pieces: seq<Piece>, seen: bool)
    requires Whole(prev, pieces, seen) && Sticks(pieces)
    ensures !Reads(prev', pieces, seen)
  {
    var r, s, k := Original(pieces), Inlined(pieces), KeptLength(pieces);
    var i := pieces[0].item;
    CutsStep(prev, pieces, seen);
    CutsSolid(prev, pieces, seen);
    KeptEnds(pieces);
    assert k == |i.text| by { assert pieces[1..][0] == pieces[1]; }
    InlinedAgrees(pieces);
    assert r == i.text + Original(pieces[1..]) && pieces[1..][0] == pieces[1];
    if i.kind == Word {
      WordSticks(prev, prev', r, s, k, seen);
    } else {
      DollarSticks(prev, prev', r, s, k, seen);
    }
    var l := Lex(prev', s, seen);
    FirstToken(prev', s, seen);
    NumberedFirst(pieces);
    assert Tokens([i]) == TokenOf(i) + Tokens([i][1..]);
    assert NumberedTokens(pieces)[0] == TokenOf(i)[0];
    assert Tokens(Items(prev', s, seen))[0] != NumberedTokens(pieces)[0];
  }

  lemma FirstToken(prev: int, s: Bytes, seen: bool)
    requires s != [] && Lex(prev, s, seen).kind != White && Lex(prev, s, seen).kind != BareDollar
    ensures var l := Lex(prev, s, seen);
            Tokens(Items(prev, s, seen)) != [] && Tokens(Items(prev, s, seen))[0] == Item(l.kind, s[..l.length])
  {
    var l := Lex(prev, s, seen);
    var rest := Items(s[l.length - 1], s[l.length..], seen || Significant(l.kind));
    var i := Item(l.kind, s[..l.length]);
    assert Items(prev, s, seen) == [i] + rest;
    assert ([i] + rest)[0] == i;
    assert Tokens([i] + rest) == TokenOf(i) + Tokens(([i] + rest)[1..]);
  }

  lemma LongerChanges(prev: int, pieces: seq<Piece>, seen: bool)
    requires NumberSwaps(pieces) && Lengthened(pieces)
    ensures !Reads(prev, pieces, seen)
  {
    NumberedFirst(pieces);
    var text, rest := pieces[0].text, Inlined(pieces[1..]);
    SameEnd(pieces[1..]);
    NumberEnds(rest);
    NumberLexed(prev, text, rest, seen);
    FirstToken(prev, text + rest, seen);
    assert |Tokens(Items(prev, text + rest, seen))[0].text| > |text|;
  }

  lemma FirstChanges(prev: int, prev': int, pieces: seq<Piece>, seen: bool)
    requires Whole(prev, pieces, seen) && SamePast(prev, prev', Original(pieces))
    requires Sticks(pieces) || Lengthened(pieces)
    ensures !Reads(prev', pieces, seen)
  {
    if Sticks(pieces) {
      StickChanges(prev, prev', pieces, seen);
    } else {
      LongerChanges(prev', pieces, seen);
    }
  }

  lemma {:induction false} InlinedChanges(prev: int, prev': int, pieces: seq<Piece>, seen: bool)
    requires Whole(prev, pieces, seen) && !Untouched(pieces) && SamePast(prev, prev', Original(pieces))
    ensures !Reads(prev', pieces, seen)
    decreases |pieces|
  {
    if Sticks(pieces) || Lengthened(pieces) {
      FirstChanges(prev, prev', pieces, seen);
    } else if pieces[0].Swap? {
      WholeTail(prev, pieces, seen);
      PastNumber(prev, pieces, seen);
      var i, text, tail := pieces[0].item, pieces[0].text, pieces[1..];
      InlinedChanges(i.text[|i.text| - 1], text[|text| - 1], tail, true);
      SwapRead(prev', pieces, seen);
    } else {
      WholeTail(prev, pieces, seen);
      var i, tail := pieces[0].item, pieces[1..];
      InlinedChanges(i.text[|i.text| - 1], i.text[|i.text| - 1], tail, seen || Significant(i.kind));
      KeepRead(prev, prev', pieces, seen);
    }
  }
}
