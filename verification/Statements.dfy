// The statements a plan writes and what they promise.
module Statements {
  import opened Options
  import opened Text
  import opened SqlLexer
  import opened SqlScan
  import opened Rescan
  import opened Replace
  import opened Numbering
  import opened Plan
  import opened Render
  import opened Rewriting
  import opened Inertness

  // ---- The lists of a plan are fit to be merged ----

  lemma PlanFits(sql: Bytes, legacy: bool, form: Form)
    requires NumbersOf(sql, legacy).Ok?
    requires var n := NumbersOf(sql, legacy).value;
             form.ExpandedForm? ==>
               && |form.values| == |Slots(n)|
               && forall i :: 0 <= i < n.parameterCount && i < |form.values| ==> form.values[i].value.Some?
    ensures var n := NumbersOf(sql, legacy).value; Fits(n, Slots(n), form)
  {
    SlotsAreABijection(ItemsOf(sql), legacy);
  }

  lemma PlanAligned(sql: Bytes, legacy: bool)
    requires NumbersOf(sql, legacy).Ok?
    ensures var n := NumbersOf(sql, legacy).value; Aligned(ItemsOf(sql), 0, n.placeholders, n.natives)
  {
    ItemsSolid(-1, sql, false);
    NumberAligned(START, 0, ItemsOf(sql), legacy);
    var n := NumbersOf(sql, legacy).value;
    assert n.placeholders[0..] == n.placeholders && n.natives[0..] == n.natives;
  }

  lemma {:induction false} AlignedWithin(items: seq<Item>, pos: nat, pdo: seq<Placeholder>, native: seq<Placeholder>)
    requires Aligned(items, pos, pdo, native)
    ensures forall i :: 0 <= i < |pdo| ==> pdo[i].offset + pdo[i].length <= pos + |Concat(items)|
    ensures forall i :: 0 <= i < |native| ==> native[i].offset + native[i].length <= pos + |Concat(items)|
    decreases |items|
  {
    if items != [] {
      var i, next := items[0], pos + |items[0].text|;
      if PdoKind(i.kind) {
        AlignedWithin(items[1..], next, pdo[1..], native);
        assert forall k :: 0 < k < |pdo| ==> pdo[k] == pdo[1..][k - 1];
      } else if i.kind.Native? && native != [] && native[0].offset == pos {
        AlignedWithin(items[1..], next, pdo, native[1..]);
        assert forall k :: 0 < k < |native| ==> native[k] == native[1..][k - 1];
      } else {
        AlignedWithin(items[1..], next, pdo, native);
      }
    }
  }

  // The merge of a plan's own lists needs no luck: they are in order, disjoint
  // and inside the statement, and the result is the statement woven anew.
  lemma PlanMerges(sql: Bytes, legacy: bool, form: Form)
    requires NumbersOf(sql, legacy).Ok?
    requires var n := NumbersOf(sql, legacy).value; Fits(n, Slots(n), form)
    ensures var n := NumbersOf(sql, legacy).value; var natives := NativesFor(n, form);
            && Within(n, n.placeholders, false, |sql|) && Within(n, n.natives, true, |sql|)
            && InOrder(EditsFor(n, Slots(n), form, sql, n.placeholders, natives), 0, |sql|)
            && Splice(sql, 0, EditsFor(n, Slots(n), form, sql, n.placeholders, natives))
               == Woven(n, Slots(n), form, ItemsOf(sql), 0, n.placeholders, natives)
  {
    var n := NumbersOf(sql, legacy).value;
    var items, natives := ItemsOf(sql), NativesFor(n, form);
    PlanAligned(sql, legacy);
    ItemsConcat(-1, sql, false);
    AlignedWithin(items, 0, n.placeholders, n.natives);
    AlignedWithoutNatives(items, 0, n.placeholders, n.natives);
    assert sql[0..] == sql;
    MergeWeaves(n, Slots(n), form, sql, 0, 0, items, n.placeholders, natives);
  }

  // ---- The probe ----

  // Every PDO placeholder gives way to an empty literal.
  function ProbePieces(items: seq<Item>): (pieces: seq<Piece>)
    ensures |pieces| == |items|
  {
    if items == [] then []
    else [if PdoKind(items[0].kind) then Swap(items[0], EMPTY_LITERAL) else Keep(items[0])] + ProbePieces(items[1..])
  }

  function ProbeOf(sql: Bytes): Bytes { Flatten(ProbePieces(ItemsOf(sql))) }

  lemma {:induction false} WovenProbe(n: Numbers, slots: map<nat, nat>, items: seq<Item>, pos: nat, pdo: seq<Placeholder>)
    requires Fits(n, slots, ProbeForm) && Aligned(items, pos, pdo, [])
    requires forall k :: 0 <= k < |pdo| ==> Owned(n, pdo[k], false)
    ensures Woven(n, slots, ProbeForm, items, pos, pdo, []) == Flatten(ProbePieces(items))
    decreases |items|
  {
    if items != [] {
      var i, next := items[0], pos + |items[0].text|;
      if PdoKind(i.kind) {
        WovenProbe(n, slots, items[1..], next, pdo[1..]);
      } else {
        WovenProbe(n, slots, items[1..], next, pdo);
      }
    }
  }

  method ParseProbe(plan: SqlPlan) returns (probe: Bytes)
    requires plan.Valid()
    ensures probe == ProbeOf(plan.sql)
  {
    ghost var n := NumbersOf(plan.sql, plan.legacyParser).value;
    PlanFits(plan.sql, plan.legacyParser, ProbeForm);
    PlanMerges(plan.sql, plan.legacyParser, ProbeForm);
    PlanAligned(plan.sql, plan.legacyParser);
    AlignedWithoutNatives(ItemsOf(plan.sql), 0, n.placeholders, n.natives);
    WovenProbe(n, Slots(n), ItemsOf(plan.sql), 0, n.placeholders);
    probe := RenderPlan(plan, ProbeForm);
  }

  // Rendering does not read the first numbering of the positions, which a
  // finished plan no longer holds.
  method RenderPlan(plan: SqlPlan, form: Form) returns (output: Bytes)
    requires plan.Valid()
    requires var n := NumbersOf(plan.sql, plan.legacyParser).value; Fits(n, Slots(n), form)
    ensures var n := NumbersOf(plan.sql, plan.legacyParser).value;
            output == Woven(n, Slots(n), form, ItemsOf(plan.sql), 0, n.placeholders, NativesFor(n, form))
  {
    var view := plan.View();
    ghost var n := NumbersOf(plan.sql, plan.legacyParser).value;
    PlanMerges(plan.sql, plan.legacyParser, form);
    SameEdits(n, view, Slots(n), form, plan.sql, n.placeholders, NativesFor(n, form));
    output := RenderSql(view, plan.nativePositions, form, plan.sql);
  }

  lemma {:induction false} SameEdits(n: Numbers, m: Numbers, slots: map<nat, nat>, form: Form, sql: Bytes,
                                     pdo: seq<Placeholder>, native: seq<Placeholder>)
    requires m == n.(nativePositions := slots) && Fits(n, slots, form)
    requires Within(n, pdo, false, |sql|) && Within(n, native, true, |sql|)
    ensures Fits(m, slots, form) && Within(m, pdo, false, |sql|) && Within(m, native, true, |sql|)
    ensures EditsFor(m, slots, form, sql, pdo, native) == EditsFor(n, slots, form, sql, pdo, native)
    decreases |pdo| + |native|
  {
    if pdo != [] || native != [] {
      if NativeFirst(pdo, native) {
        SameEdits(n, m, slots, form, sql, pdo, native[1..]);
      } else {
        SameEdits(n, m, slots, form, sql, pdo[1..], native);
      }
    }
  }

  // ---- Expanding bound values ----

  // The expansion of an accepted statement, or why there is none.
  function ExpandedOf(sql: Bytes, legacy: bool, values: seq<Binding>): Result<Bytes>
    requires NumbersOf(sql, legacy).Ok?
  {
    var n := NumbersOf(sql, legacy).value;
    if |values| != |Slots(n)| then Err(WrongCount)
    else if exists i :: 0 <= i < n.parameterCount && i < |values| && values[i].value.None? then Err(Undefined)
    else
      PlanFits(sql, legacy, ExpandedForm(values));
      Ok(Woven(n, Slots(n), ExpandedForm(values), ItemsOf(sql), 0, n.placeholders, n.natives))
  }

  method AllDefined(values: seq<Binding>, count: nat) returns (defined: bool)
    requires count <= |values|
    ensures defined <==> forall i :: 0 <= i < count ==> values[i].value.Some?
  {
    for i := 0 to count
      invariant forall k :: 0 <= k < i ==> values[k].value.Some?
    {
      if values[i].value.None? {
        return false;
      }
    }
    return true;
  }

  // pdo_duckdb_sql_expand: every index it uses is inside values, and it never
  // reads the text of an undefined PDO parameter.
  method Expand(plan: SqlPlan, values: seq<Binding>) returns (r: Result<Bytes>)
    requires plan.Valid()
    ensures r == ExpandedOf(plan.sql, plan.legacyParser, values)
  {
    if |values| != plan.bindingCount {
      return Err(WrongCount);
    }
    SlotsAreABijection(ItemsOf(plan.sql), plan.legacyParser);
    var defined := AllDefined(values, plan.parameterCount);
    if !defined {
      return Err(Undefined);
    }
    PlanFits(plan.sql, plan.legacyParser, ExpandedForm(values));
    var output := RenderPlan(plan, ExpandedForm(values));
    return Ok(output);
  }

  // ---- Scanning the probe again ----

  // A placeholder begins with the byte that a replacement's blank stands for.
  lemma {:induction false} ItemsOpen(prev: int, r: Bytes, seen: bool)
    ensures forall i :: 0 <= i < |Items(prev, r, seen)| ==> Opens(Items(prev, r, seen)[i])
    decreases |r|
  {
    if r != [] {
      var l := Lex(prev, r, seen);
      ItemsOpen(r[l.length - 1], r[l.length..], seen || Significant(l.kind));
      LexOpens(prev, r, seen);
    }
  }

  predicate Opens(x: Item)
  {
    && x.text != []
    && (Replaceable(x.kind) ==> OpensEdit(x.text[0]))
    && (x.kind == Named ==> x.text[0] == COLON && IdentifierContinue(x.text[|x.text| - 1]))
    && (x.kind == Positional ==> x.text == [QUESTION])
  }

  lemma LexOpens(prev: int, r: Bytes, seen: bool)
    requires r != []
    ensures var l := Lex(prev, r, seen); Opens(Item(l.kind, r[..l.length]))
  {
    if Lex(prev, r, seen).kind == Named {
      NamedLast(r[1..]);
    }
  }

  lemma {:induction false} NamedLast(r: Bytes)
    requires r != [] && ParameterChar(r[0])
    ensures ParameterLength(r) > 0 && ParameterChar(r[ParameterLength(r) - 1])
  {
    if |r| > 1 && ParameterChar(r[1]) {
      NamedLast(r[1..]);
    }
  }

  lemma EmptyLiteralInert()
    ensures Inert(EMPTY_LITERAL) && OwnTokens(EMPTY_LITERAL) == [Item(Quoted, EMPTY_LITERAL)]
  {
    assert Literal(Doubled([])) == EMPTY_LITERAL;
    TextInert([]);
  }

  lemma {:induction false} ProbeParts(items: seq<Item>)
    ensures Source(ProbePieces(items)) == items
    ensures forall i :: 0 <= i < |items| ==>
              ProbePieces(items)[i] == if PdoKind(items[i].kind) then Swap(items[i], EMPTY_LITERAL) else Keep(items[i])
  {
    if items != [] {
      ProbeParts(items[1..]);
    }
  }

  // A token stream in which an empty literal stands for each placeholder.
  function WithLiterals(tokens: seq<Item>): seq<Item>
  {
    if tokens == [] then []
    else [if PdoKind(tokens[0].kind) then Item(Quoted, EMPTY_LITERAL) else tokens[0]] + WithLiterals(tokens[1..])
  }

  lemma WithLiteralsConcat(a: seq<Item>, b: seq<Item>)
    ensures WithLiterals(a + b) == WithLiterals(a) + WithLiterals(b)
  {
    if a == [] {
      assert a + b == b;
    } else {
      assert (a + b)[1..] == a[1..] + b;
      WithLiteralsConcat(a[1..], b);
    }
  }

  lemma {:induction false} ProbeTokens(items: seq<Item>)
    ensures PieceTokens(ProbePieces(items)) == WithLiterals(Tokens(items))
  {
    if items != [] {
      ProbeTokens(items[1..]);
      EmptyLiteralInert();
      TokensFirst(items[0], items[1..]);
      assert items == [items[0]] + items[1..];
      WithLiteralsConcat(Tokens([items[0]]), Tokens(items[1..]));
      OneToken(items[0]);
    }
  }

  lemma OneToken(i: Item)
    ensures PdoKind(i.kind) ==> WithLiterals(Tokens([i])) == [Item(Quoted, EMPTY_LITERAL)]
    ensures !PdoKind(i.kind) ==> WithLiterals(Tokens([i])) == Tokens([i])
  {
    assert [i][1..] == [];
    if i.kind != White {
      assert Tokens([i]) == [if i.kind == BareDollar then Item(BareDollar, [DOLLAR]) else i];
    }
  }

  // Some :name is directly followed by a colon and a parameter character.
  ghost predicate Shielding(items: seq<Item>)
  {
    exists i :: 0 <= i < |items| && items[i].kind == Named && OpensNamed(Concat(items[i + 1..]))
  }

  ghost predicate Formed(items: seq<Item>)
  {
    forall i :: 0 <= i < |items| ==>
      && items[i].text != []
      && (items[i].kind == Named ==> IdentifierContinue(items[i].text[|items[i].text| - 1]))
      && (items[i].kind == Positional ==> items[i].text == [QUESTION])
  }

  lemma ShieldingFirst(items: seq<Item>)
    requires items != []
    ensures Shielding(items) <==> (items[0].kind == Named && OpensNamed(Concat(items[1..]))) || Shielding(items[1..])
  {
    if Shielding(items[1..]) {
      var i :| 0 <= i < |items[1..]| && items[1..][i].kind == Named && OpensNamed(Concat(items[1..][i + 1..]));
      assert items[1..][i + 1..] == items[(i + 1) + 1..] && items[i + 1] == items[1..][i];
    }
    if Shielding(items) {
      var i :| 0 <= i < |items| && items[i].kind == Named && OpensNamed(Concat(items[i + 1..]));
      assert i > 0 ==> items[1..][(i - 1) + 1..] == items[i + 1..] && items[1..][i - 1] == items[i];
    }
  }

  lemma GluedIf(p: Piece, i: Item, after: Bytes)
    requires p == if PdoKind(i.kind) then Swap(i, EMPTY_LITERAL) else Keep(i)
    requires i.text != [] && (i.kind == Named ==> IdentifierContinue(i.text[|i.text| - 1]))
    requires i.kind == Positional ==> i.text == [QUESTION]
    ensures Glued(p, after) <==> i.kind == Named && OpensNamed(after)
  {
  }

  lemma {:induction false} ShieldingIsGlue(items: seq<Item>)
    requires Formed(items)
    ensures NoGlue(ProbePieces(items)) <==> !Shielding(items)
  {
    if items != [] {
      var i, rest := items[0], items[1..];
      assert Formed(rest);
      ShieldingIsGlue(rest);
      ShieldingFirst(items);
      ProbeParts(rest);
      assert ProbePieces(items)[1..] == ProbePieces(rest);
      GluedIf(ProbePieces(items)[0], i, Concat(rest));
    }
  }

  // Pieces in which one inert text stands for every placeholder.
  lemma SameSwaps(items: seq<Item>, pieces: seq<Piece>, text: Bytes)
    requires |pieces| == |items| && Inert(text) && text != [] && text[0] == QUOTE
    requires forall i :: 0 <= i < |items| ==> Opens(items[i])
    requires forall i :: 0 <= i < |items| ==> pieces[i] == if PdoKind(items[i].kind) then Swap(items[i], text) else Keep(items[i])
    ensures WellSwapped(pieces) && Formed(items)
  {
    forall i | 0 <= i < |items|
      ensures GoodSwap(pieces[i])
    {
      assert Opens(items[i]);
    }
  }

  lemma ProbeCut(sql: Bytes)
    ensures var pieces := ProbePieces(ItemsOf(sql));
            && Cuts(-1, pieces, false) && WellSwapped(pieces) && Original(pieces) == sql
            && (NoGlue(pieces) <==> !Shielding(ItemsOf(sql)))
  {
    var items := ItemsOf(sql);
    ProbeParts(items);
    ItemsConcat(-1, sql, false);
    ItemsOpen(-1, sql, false);
    CutsItems(-1, ProbePieces(items), false);
    EmptyLiteralInert();
    SameSwaps(items, ProbePieces(items), EMPTY_LITERAL);
    ShieldingIsGlue(items);
  }

  lemma HasPdoConcat(a: seq<Item>, b: seq<Item>)
    ensures HasPdo(a + b) <==> HasPdo(a) || HasPdo(b)
  {
    if HasPdo(a) {
      var k :| 0 <= k < |a| && PdoKind(a[k].kind);
      assert (a + b)[k] == a[k];
    }
    if HasPdo(b) {
      HasPdoAfter(a, b);
    }
    if HasPdo(a + b) {
      var k :| 0 <= k < |a + b| && PdoKind((a + b)[k].kind);
      assert (a + b)[k] == if k < |a| then a[k] else b[k - |a|];
    }
  }

  lemma {:induction false} NoPdoTokens(items: seq<Item>)
    ensures HasPdo(Tokens(items)) <==> PdoTexts(items) != []
    ensures PdoTexts(items) != [] <==> HasPdo(items)
  {
    if items != [] {
      var i, rest := items[0], items[1..];
      NoPdoTokens(rest);
      HasPdoConcat(TokenOf(i), Tokens(rest));
      HasPdoConcat([i], rest);
      assert items == [i] + rest && [i][0] == i;
      assert TokenOf(i) != [] ==> (PdoKind(TokenOf(i)[0].kind) <==> PdoKind(i.kind));
    }
  }

  lemma {:induction false} LiteralsHoldNoPdo(tokens: seq<Item>)
    ensures !HasPdo(WithLiterals(tokens))
  {
    if tokens != [] {
      LiteralsHoldNoPdo(tokens[1..]);
    }
  }

  // A statement has placeholders exactly when one of its tokens is one.
  lemma PlaceholdersAreTokens(sql: Bytes, legacy: bool)
    requires 0 !in sql
    ensures !HasPdo(Tokens(ItemsOf(sql))) <==>
            NumbersOf(sql, legacy).Ok? && NumbersOf(sql, legacy).value.placeholders == []
  {
    var items := ItemsOf(sql);
    NoPdoTokens(items);
    RefusedExactlyWhenMixed(items, legacy);
    if NumbersOf(sql, legacy).Ok? {
      StartNumbered();
      NumberNumbered(START, [], 0, items, legacy);
      assert [] + PdoTexts(items) == PdoTexts(items);
    }
  }

  lemma {:induction false} ProbeHasNoNul(items: seq<Item>)
    requires 0 !in Concat(items)
    ensures 0 !in Flatten(ProbePieces(items))
  {
    if items != [] {
      ProbeHasNoNul(items[1..]);
    }
  }

  // The token stream of the probe is that of the statement, an empty literal in the
  // place of every placeholder, exactly when no :name shields another.
  lemma ProbeKeepsTokens(sql: Bytes)
    ensures Tokens(ItemsOf(ProbeOf(sql))) == WithLiterals(Tokens(ItemsOf(sql))) <==> !Shielding(ItemsOf(sql))
  {
    if Shielding(ItemsOf(sql)) {
      ShieldedTokens(sql);
    } else {
      ProbeCut(sql);
      ProbeTokens(ItemsOf(sql));
      Rescanned(-1, -1, ProbePieces(ItemsOf(sql)), false);
    }
  }

  lemma ShieldedTokens(sql: Bytes)
    requires Shielding(ItemsOf(sql))
    ensures Tokens(ItemsOf(ProbeOf(sql))) != WithLiterals(Tokens(ItemsOf(sql)))
  {
    var pieces := ProbePieces(ItemsOf(sql));
    ProbeCut(sql);
    ProbeTokens(ItemsOf(sql));
    LiteralsLead(ItemsOf(sql));
    Changed(-1, -1, pieces, false);
  }

  lemma LiteralsLead(items: seq<Item>)
    requires GoodSwaps(ProbePieces(items))
    ensures LeadingSwaps(ProbePieces(items))
  {
    var pieces := ProbePieces(items);
    ProbeParts(items);
  }

  // Planning the probe finds no PDO placeholder, whichever parser it is for,
  // exactly when no :name of the statement shields another.
  lemma ProbeHasNoPlaceholder(sql: Bytes, legacy: bool, probeLegacy: bool)
    requires NumbersOf(sql, legacy).Ok?
    ensures (NumbersOf(ProbeOf(sql), probeLegacy).Ok? && NumbersOf(ProbeOf(sql), probeLegacy).value.placeholders == [])
       <==> !Shielding(ItemsOf(sql))
  {
    var items := ItemsOf(sql);
    ProbeCut(sql);
    ItemsConcat(-1, sql, false);
    ProbeHasNoNul(items);
    PlaceholdersAreTokens(ProbeOf(sql), probeLegacy);
    if Shielding(items) {
      Uncovered(-1, -1, ProbePieces(items), false);
    } else {
      ProbeKeepsTokens(sql);
      LiteralsHoldNoPdo(Tokens(items));
    }
  }

  // A statement in the ? style has nothing that could shield.
  lemma PositionalNeverShields(sql: Bytes, legacy: bool)
    requires NumbersOf(sql, legacy).Ok? && NumbersOf(sql, legacy).value.style != NamedParameters
    ensures !Shielding(ItemsOf(sql))
  {
    StyleOfItems(START, 0, ItemsOf(sql), legacy);
  }

  lemma {:induction false} StyleOfItems(n: Numbers, pos: nat, items: seq<Item>, legacy: bool)
    requires Number(n, pos, items, legacy).Some?
    ensures forall i :: 0 <= i < |items| && PdoKind(items[i].kind) ==>
              Number(n, pos, items, legacy).value.style == StyleOf(items[i].kind)
    ensures n.style != NoParameters ==> Number(n, pos, items, legacy).value.style == n.style
    decreases |items|
  {
    if items != [] {
      var m := NumberItem(n, pos, items[0], legacy).value;
      StyleOfItems(m, pos + |items[0].text|, items[1..], legacy);
      assert forall i :: 0 < i < |items| ==> items[i] == items[1..][i - 1];
    }
  }

  const SHIELDED: Bytes := [58, 97, 58, 98]  // :a:b

  lemma ShieldedB()
    ensures Items(58, [98], true) == [Item(Word, [98])]
  {
    assert WordLength([98][1..]) == 0;
    assert [98] + [] == [98];
    FirstItem(58, [98], [], Word, true);
  }

  lemma ShieldedColon()
    ensures Items(97, [58, 98], true) == [Item(Other, [58])] + Items(58, [98], true)
  {
    assert [58] + [98] == [58, 98];
    assert Lex(97, [58] + [98], true) == Lexeme(Other, 1);
    FirstItem(97, [58], [98], Other, true);
  }

  lemma ShieldedA()
    ensures ItemsOf(SHIELDED) == [Item(Named, [58, 97])] + Items(97, [58, 98], true)
  {
    assert SHIELDED == [58, 97] + [58, 98];
    assert SHIELDED[1..] == [97, 58, 98] && SHIELDED[1..][1..] == [58, 98];
    assert ParameterLength(SHIELDED[1..][1..]) == 0;
    assert ParameterLength(SHIELDED[1..]) == 1;
    FirstItem(-1, [58, 97], [58, 98], Named, false);
  }

  lemma ShieldedItems()
    ensures ItemsOf(SHIELDED) == [Item(Named, [58, 97]), Item(Other, [58]), Item(Word, [98])]
  {
    ShieldedA();
    ShieldedColon();
    ShieldedB();
    Three(Item(Named, [58, 97]), Item(Other, [58]), Items(58, [98], true));
  }

  lemma Three(a: Item, b: Item, rest: seq<Item>)
    requires |rest| == 1
    ensures [a] + ([b] + rest) == [a, b, rest[0]]
  {
  }

  lemma ShieldedHasOne(items: seq<Item>)
    requires items == [Item(Named, [58, 97]), Item(Other, [58]), Item(Word, [98])]
    ensures Number(START, 0, items, false).Some? && |Number(START, 0, items, false).value.placeholders| == 1
    ensures Shielding(items)
  {
    assert items[0].kind == Named;
    assert Concat(items[1..]) == [58] + Concat(items[1..][1..]);
    assert items[1..][1..] == [items[2]] && [items[2]][1..] == [];
    assert Concat([items[2]]) == [98] + Concat([]);
    assert OpensNamed(Concat(items[0 + 1..]));
    var n := NumberItem(START, 0, items[0], false).value;
    assert Number(n, 2, items[1..], false) == Number(n, 3, items[1..][1..], false) == Number(n, 4, [], false);
  }

  lemma ShieldedUncovers(sql: Bytes, items: seq<Item>)
    requires 0 !in sql && items == ItemsOf(sql) == [Item(Named, [58, 97]), Item(Other, [58]), Item(Word, [98])]
    ensures NumbersOf(sql, false).Ok? && |NumbersOf(sql, false).value.placeholders| == 1
    ensures var probe := NumbersOf(ProbeOf(sql), false); !(probe.Ok? && probe.value.placeholders == [])
  {
    ShieldedHasOne(items);
    ProbeHasNoPlaceholder(sql, false, false);
  }

  // ":a:b" holds one placeholder; once it is replaced, its probe holds another.
  lemma ShieldedExample(sql: Bytes)
    requires sql == SHIELDED
    ensures NumbersOf(sql, false).Ok? && |NumbersOf(sql, false).value.placeholders| == 1
    ensures var probe := NumbersOf(ProbeOf(sql), false); !(probe.Ok? && probe.value.placeholders == [])
  {
    ShieldedItems();
    ShieldedUncovers(sql, ItemsOf(sql));
  }
}
