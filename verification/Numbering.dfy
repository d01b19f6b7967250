// How the scanner numbers parameters: PDO placeholders (? and :name) and
// DuckDB's own ($1, $name), and which binding slot each position gets.
module Numbering {
  import opened Options
  import opened Text
  import opened SqlLexer

  const ZEND_LONG_MAX: nat := 0x7fff_ffff_ffff_ffff
  const ZEND_ULONG_MAX: nat := 0xffff_ffff_ffff_ffff

  datatype Style = NoParameters | PositionalParameters | NamedParameters

  datatype Placeholder = Placeholder(offset: nat, length: nat, index: nat, numeric: bool)

  datatype Numbers = Numbers(
    style: Style,
    names: map<Bytes, nat>,
    placeholders: seq<Placeholder>,
    parameterCount: nat,
    nativeNames: map<Bytes, nat>,
    nativePositions: map<nat, nat>,
    natives: seq<Placeholder>,
    nativeParameterCount: nat,
    nativeNextPosition: nat)

  const START := Numbers(NoParameters, map[], [], 0, map[], map[], [], 0, 0)

  function StyleOf(k: Kind): Style
    requires PdoKind(k)
  {
    if k == Named then NamedParameters else PositionalParameters
  }

  // pdo_duckdb_sql_add_placeholder; None is the mixed-style error.
  function AddPdo(n: Numbers, offset: nat, text: Bytes, style: Style): Option<Numbers>
  {
    if n.style != NoParameters && n.style != style then None
    else
      var found := style == NamedParameters && text in n.names;
      var index := if found then n.names[text] else n.parameterCount;
      Some(n.(style := style,
              parameterCount := if found then n.parameterCount else n.parameterCount + 1,
              names := if !found && style == NamedParameters then n.names[text := index] else n.names,
              placeholders := n.placeholders + [Placeholder(offset, |text|, index, true)],
              nativeNextPosition := if index >= n.nativeNextPosition then index + 1 else n.nativeNextPosition))
  }

  // The number that digits and underscores spell; None when it overflows. The
  // legacy parser stops at the first underscore.
  function NumberValue(name: Bytes, legacy: bool, position: nat): Option<nat>
  {
    if name == [] then Some(position)
    else if name[0] == UNDERSCORE then
      if legacy then Some(position) else NumberValue(name[1..], legacy, position)
    else if !Digit(name[0]) || position > (ZEND_ULONG_MAX - (name[0] - 48)) / 10 then None
    else NumberValue(name[1..], legacy, position * 10 + (name[0] - 48))
  }

  function Undouble(name: Bytes, quote: int): Bytes
  {
    if name == [] then []
    else if name[0] == quote && |name| > 1 && name[1] == name[0] then [name[0]] + Undouble(name[2..], quote)
    else [name[0]] + Undouble(name[1..], quote)
  }

  function Lower(name: Bytes): (key: Bytes)
    ensures |key| == |name|
  {
    seq(|name|, i requires 0 <= i < |name| => if 65 <= name[i] <= 90 then name[i] + 32 else name[i])
  }

  function NativeKey(name: Bytes, quote: int): Bytes
  {
    Lower(if quote != 0 then Undouble(name, quote) else name)
  }

  // What a $ parameter asks for: a position of its own number, the next free
  // one (the legacy $0), the position of its name, or nothing at all.
  datatype Request = Numbered(position: nat) | Anonymous | ByName | Ignored

  function RequestOf(name: Bytes, numeric: bool, legacy: bool, next: nat): Request
  {
    if !numeric then ByName
    else
      match NumberValue(name, legacy, 0)
      case None => Ignored
      case Some(v) =>
        if v == 0 && legacy then (if next > ZEND_LONG_MAX then Ignored else Anonymous)
        else if v == 0 || v - 1 > ZEND_LONG_MAX then Ignored
        else Numbered(v - 1)
  }

  function PositionOf(n: Numbers, request: Request): nat
  {
    match request
    case Numbered(p) => p
    case Anonymous => n.nativeNextPosition
    case _ => n.nativeParameterCount
  }

  // pdo_duckdb_sql_add_native_placeholder
  function AddNative(n: Numbers, offset: nat, length: nat, name: Bytes, numeric: bool, quote: int, legacy: bool): Numbers
  {
    var request := RequestOf(name, numeric, legacy, n.nativeNextPosition);
    var key := NativeKey(name, quote);
    if request == Ignored then n
    else
      var found := request != Anonymous && key in n.nativeNames;
      var position := if found then n.nativeNames[key] else PositionOf(n, request);
      var isNew := !found && position !in n.nativePositions;
      n.(nativeNames := if !found && request != Anonymous then n.nativeNames[key := position] else n.nativeNames,
         nativePositions := if isNew then n.nativePositions[position := n.nativeParameterCount] else n.nativePositions,
         nativeParameterCount := if isNew then n.nativeParameterCount + 1 else n.nativeParameterCount,
         nativeNextPosition := if position >= n.nativeNextPosition then position + 1 else n.nativeNextPosition,
         natives := n.natives + [Placeholder(offset, length, position, numeric)])
  }

  function NumberItem(n: Numbers, offset: nat, item: Item, legacy: bool): Option<Numbers>
  {
    match item.kind
    case Native(name, numeric, quote) => Some(AddNative(n, offset, |item.text|, name, numeric, quote, legacy))
    case _ => if PdoKind(item.kind) then AddPdo(n, offset, item.text, StyleOf(item.kind)) else Some(n)
  }

  function Number(n: Numbers, offset: nat, items: seq<Item>, legacy: bool): Option<Numbers>
    decreases |items|
  {
    if items == [] then Some(n)
    else
      match NumberItem(n, offset, items[0], legacy)
      case None => None
      case Some(m) => Number(m, offset + |items[0].text|, items[1..], legacy)
  }

  // The slots when the statement has PDO parameters: those first, then each
  // further position a numbered $ parameter names.
  function ExtraSlots(positions: map<nat, nat>, natives: seq<Placeholder>): map<nat, nat>
    decreases |natives|
  {
    if natives == [] then positions
    else
      ExtraSlots(WithSlot(positions, natives[0]), natives[1..])
  }

  function FirstSlots(count: nat): (m: map<nat, nat>)
    ensures forall i :: i in m <==> 0 <= i < count
    ensures forall i :: i in m ==> m[i] == i
    ensures |m| == count
  {
    if count == 0 then map[]
    else
      var m := FirstSlots(count - 1);
      var all := m[count - 1 := count - 1];
      assert all.Keys == m.Keys + {count - 1};
      all
  }

  function Slots(n: Numbers): map<nat, nat>
  {
    if n.parameterCount > 0 then ExtraSlots(FirstSlots(n.parameterCount), n.natives) else n.nativePositions
  }

  // ---- What numbering promises ----

  // m numbers its keys 0, 1, ... without gaps and without doubles.
  ghost predicate Bijection(m: map<nat, nat>, count: nat)
  {
    && |m| == count
    && (forall p :: p in m ==> m[p] < count)
    && (forall p, q :: p in m && q in m && m[p] == m[q] ==> p == q)
    && (forall i :: 0 <= i < count ==> i in m.Values)
  }

  lemma BijectionExtend(m: map<nat, nat>, p: nat)
    requires Bijection(m, |m|) && p !in m
    ensures Bijection(m[p := |m|], |m| + 1)
  {
    var e := m[p := |m|];
    assert e.Keys == m.Keys + {p};
    assert |e| == |e.Keys| == |m| + 1;
    forall i | 0 <= i < |m| + 1
      ensures i in e.Values
    {
      if i == |m| {
        assert p in e && e[p] == i;
      } else {
        assert i in m.Values;
        var q :| q in m && m[q] == i;
        assert q in e && e[q] == i;
      }
    }
  }

  lemma FirstSlotsBijection(count: nat)
    ensures Bijection(FirstSlots(count), count)
  {
    var m := FirstSlots(count);
    forall i | 0 <= i < count
      ensures i in m.Values
    {
      assert i in m && m[i] == i;
    }
  }

  // The PDO placeholders of a cut statement, as written.
  function PdoTexts(items: seq<Item>): seq<Bytes>
  {
    if items == [] then []
    else ItemTexts(items[0]) + PdoTexts(items[1..])
  }

  // Each name once, in the order of first occurrence.
  function FirstOccurrences(texts: seq<Bytes>): seq<Bytes>
  {
    if texts == [] then []
    else
      var init, last := texts[..|texts| - 1], texts[|texts| - 1];
      if last in init then FirstOccurrences(init) else FirstOccurrences(init) + [last]
  }

  lemma {:induction false} FirstOccurrencesMembers(texts: seq<Bytes>)
    ensures forall t :: t in texts <==> t in FirstOccurrences(texts)
  {
    if texts != [] {
      var init, last := texts[..|texts| - 1], texts[|texts| - 1];
      FirstOccurrencesMembers(init);
      assert texts == init + [last];
    }
  }

  // The index each placeholder has: its own rank for ?, the rank of its name
  // among the names in order of first occurrence for :name.
  ghost predicate Ranked(n: Numbers, texts: seq<Bytes>)
  {
    && |n.placeholders| == |texts|
    && (n.style == NoParameters ==> texts == [] && n.parameterCount == 0)
    && (n.style == PositionalParameters ==>
          && n.parameterCount == |texts|
          && forall i :: 0 <= i < |texts| ==> n.placeholders[i].index == i)
    && (n.style == NamedParameters ==>
          && n.parameterCount == |FirstOccurrences(texts)|
          && forall i :: 0 <= i < |texts| ==>
               n.placeholders[i].index < n.parameterCount && FirstOccurrences(texts)[n.placeholders[i].index] == texts[i])
  }

  ghost predicate NamesKnown(n: Numbers, texts: seq<Bytes>)
  {
    && (n.style != NamedParameters ==> n.names == map[])
    && (n.style == NamedParameters ==>
          && (forall t :: t in n.names <==> t in texts)
          && forall t :: t in n.names ==> n.names[t] < |FirstOccurrences(texts)| && FirstOccurrences(texts)[n.names[t]] == t)
  }

  // nativeNextPosition is above everything numbered so far.
  ghost predicate Above(n: Numbers)
  {
    && (forall i :: 0 <= i < |n.placeholders| ==> n.placeholders[i].index < n.nativeNextPosition)
    && (forall i :: 0 <= i < |n.natives| ==> n.natives[i].index < n.nativeNextPosition)
    && (forall p :: p in n.nativePositions ==> p < n.nativeNextPosition)
  }

  ghost predicate NativesKnown(n: Numbers)
  {
    && Bijection(n.nativePositions, n.nativeParameterCount)
    && (forall k :: k in n.nativeNames ==> n.nativeNames[k] in n.nativePositions)
    && (forall i :: 0 <= i < |n.natives| ==> n.natives[i].index in n.nativePositions)
  }

  ghost predicate WellNumbered(n: Numbers, texts: seq<Bytes>)
  {
    Ranked(n, texts) && NamesKnown(n, texts) && Above(n) && NativesKnown(n)
  }

  lemma StartNumbered()
    ensures WellNumbered(START, [])
  {
  }

  lemma AddPdoRanked(n: Numbers, texts: seq<Bytes>, offset: nat, text: Bytes, style: Style)
    requires WellNumbered(n, texts) && style != NoParameters
    requires AddPdo(n, offset, text, style).Some?
    ensures Ranked(AddPdo(n, offset, text, style).value, texts + [text])
  {
    var m := AddPdo(n, offset, text, style).value;
    var all := texts + [text];
    assert all[..|all| - 1] == texts;
    FirstOccurrencesMembers(texts);
    assert forall i :: 0 <= i < |texts| ==> all[i] == texts[i] && m.placeholders[i] == n.placeholders[i];
    assert style == NamedParameters && n.style == NoParameters ==> FirstOccurrences(all) == [] + [text];
    assert FirstOccurrences(texts) <= FirstOccurrences(all);
  }

  lemma AddPdoNames(n: Numbers, texts: seq<Bytes>, offset: nat, text: Bytes, style: Style)
    requires WellNumbered(n, texts) && style != NoParameters
    requires AddPdo(n, offset, text, style).Some?
    ensures NamesKnown(AddPdo(n, offset, text, style).value, texts + [text])
  {
    var all := texts + [text];
    assert all[..|all| - 1] == texts;
    FirstOccurrencesMembers(texts);
    assert style == NamedParameters && n.style == NoParameters ==> FirstOccurrences(all) == [] + [text];
    assert FirstOccurrences(texts) <= FirstOccurrences(all);
  }

  lemma AddPdoNumbered(n: Numbers, texts: seq<Bytes>, offset: nat, text: Bytes, style: Style)
    requires WellNumbered(n, texts) && style != NoParameters
    requires AddPdo(n, offset, text, style).Some?
    ensures WellNumbered(AddPdo(n, offset, text, style).value, texts + [text])
  {
    AddPdoRanked(n, texts, offset, text, style);
    AddPdoNames(n, texts, offset, text, style);
  }

  lemma AddNativeKnown(n: Numbers, offset: nat, length: nat, name: Bytes, numeric: bool, quote: int, legacy: bool)
    requires NativesKnown(n) && Above(n)
    ensures NativesKnown(AddNative(n, offset, length, name, numeric, quote, legacy))
  {
    var m := AddNative(n, offset, length, name, numeric, quote, legacy);
    if m.nativeParameterCount > n.nativeParameterCount {
      BijectionExtend(n.nativePositions, m.natives[|n.natives|].index);
    }
  }

  lemma AddNativeAbove(n: Numbers, offset: nat, length: nat, name: Bytes, numeric: bool, quote: int, legacy: bool)
    requires Above(n)
    ensures Above(AddNative(n, offset, length, name, numeric, quote, legacy))
  {
  }

  lemma AddNativeNumbered(n: Numbers, texts: seq<Bytes>, offset: nat, length: nat, name: Bytes, numeric: bool,
                          quote: int, legacy: bool)
    requires WellNumbered(n, texts)
    ensures WellNumbered(AddNative(n, offset, length, name, numeric, quote, legacy), texts)
  {
    AddNativeKnown(n, offset, length, name, numeric, quote, legacy);
    AddNativeAbove(n, offset, length, name, numeric, quote, legacy);
  }

  function ItemTexts(i: Item): seq<Bytes> { if PdoKind(i.kind) then [i.text] else [] }

  lemma ItemNumbered(n: Numbers, texts: seq<Bytes>, offset: nat, i: Item, legacy: bool)
    requires WellNumbered(n, texts) && NumberItem(n, offset, i, legacy).Some?
    ensures WellNumbered(NumberItem(n, offset, i, legacy).value, texts + ItemTexts(i))
  {
    if PdoKind(i.kind) {
      AddPdoNumbered(n, texts, offset, i.text, StyleOf(i.kind));
    } else {
      assert texts + [] == texts;
      if i.kind.Native? {
        AddNativeNumbered(n, texts, offset, |i.text|, i.kind.name, i.kind.numeric, i.kind.quote, legacy);
      }
    }
  }

  lemma PdoTextsFirst(texts: seq<Bytes>, items: seq<Item>)
    requires items != []
    ensures texts + PdoTexts(items) == texts + ItemTexts(items[0]) + PdoTexts(items[1..])
  {
  }

  lemma {:induction false} NumberNumbered(n: Numbers, texts: seq<Bytes>, offset: nat, items: seq<Item>, legacy: bool)
    requires WellNumbered(n, texts) && Number(n, offset, items, legacy).Some?
    ensures WellNumbered(Number(n, offset, items, legacy).value, texts + PdoTexts(items))
    decreases |items|
  {
    if items == [] {
      assert texts + [] == texts;
    } else {
      var i := items[0];
      var m := NumberItem(n, offset, i, legacy).value;
      ItemNumbered(n, texts, offset, i, legacy);
      NumberNumbered(m, texts + ItemTexts(i), offset + |i.text|, items[1..], legacy);
      PdoTextsFirst(texts, items);
    }
  }

  // The legacy $0: it asks for the next free position, which nothing before it
  // in the statement uses.
  lemma LegacyZeroIsFresh(before: seq<Item>, name: Bytes, offset: nat, length: nat)
    requires Number(START, 0, before, true).Some?
    requires NumberValue(name, true, 0) == Some(0)
    ensures var n := Number(START, 0, before, true).value;
            var m := AddNative(n, offset, length, name, true, 0, true);
            n.nativeNextPosition <= ZEND_LONG_MAX ==>
              && m.natives == n.natives + [Placeholder(offset, length, n.nativeNextPosition, true)]
              && (forall i :: 0 <= i < |n.placeholders| ==> n.placeholders[i].index != n.nativeNextPosition)
              && (forall i :: 0 <= i < |n.natives| ==> n.natives[i].index != n.nativeNextPosition)
              && n.nativeNextPosition !in n.nativePositions
  {
    StartNumbered();
    NumberNumbered(START, [], 0, before, true);
  }

  function WithSlot(positions: map<nat, nat>, p: Placeholder): map<nat, nat>
  {
    if p.numeric && p.index !in positions then positions[p.index := |positions|] else positions
  }

  ghost predicate Keeps(positions: map<nat, nat>, m: map<nat, nat>)
  {
    forall p :: p in positions ==> p in m && m[p] == positions[p]
  }

  // A slot more, if natives[0] needs one, keeps the numbering gapless.
  lemma WithSlotBijection(positions: map<nat, nat>, p: Placeholder)
    requires Bijection(positions, |positions|)
    ensures var next := WithSlot(positions, p);
            Bijection(next, |next|) && Keeps(positions, next) && (p.numeric ==> p.index in next)
  {
    if p.numeric && p.index !in positions {
      BijectionExtend(positions, p.index);
    }
  }

  lemma {:induction false} ExtraSlotsBijection(positions: map<nat, nat>, natives: seq<Placeholder>)
    requires Bijection(positions, |positions|)
    ensures var m := ExtraSlots(positions, natives);
            && Bijection(m, |m|)
            && Keeps(positions, m)
            && (forall i :: 0 <= i < |natives| && natives[i].numeric ==> natives[i].index in m)
    decreases |natives|
  {
    if natives != [] {
      var next := WithSlot(positions, natives[0]);
      WithSlotBijection(positions, natives[0]);
      ExtraSlotsBijection(next, natives[1..]);
      var m := ExtraSlots(next, natives[1..]);
      forall i | 0 <= i < |natives| && natives[i].numeric
        ensures natives[i].index in m
      {
        if i > 0 {
          assert natives[i] == natives[1..][i - 1];
        }
      }
    }
  }

  // The slots of every accepted statement: a gapless numbering in which the
  // PDO parameters keep their own positions.
  lemma SlotsAreABijection(items: seq<Item>, legacy: bool)
    requires Number(START, 0, items, legacy).Some?
    ensures var n := Number(START, 0, items, legacy).value;
            && Bijection(Slots(n), |Slots(n)|)
            && n.parameterCount <= |Slots(n)|
            && (forall i :: 0 <= i < n.parameterCount ==> i in Slots(n) && Slots(n)[i] == i)
            && (forall i :: 0 <= i < |n.natives| && (n.natives[i].numeric || n.parameterCount == 0) ==> n.natives[i].index in Slots(n))
            && (forall i :: 0 <= i < |n.placeholders| ==> n.placeholders[i].index < n.parameterCount)
  {
    StartNumbered();
    NumberNumbered(START, [], 0, items, legacy);
    SlotsOf(Number(START, 0, items, legacy).value, [] + PdoTexts(items));
  }

  lemma SlotsOf(n: Numbers, texts: seq<Bytes>)
    requires WellNumbered(n, texts)
    ensures Bijection(Slots(n), |Slots(n)|)
    ensures n.parameterCount <= |Slots(n)|
    ensures forall i :: 0 <= i < n.parameterCount ==> i in Slots(n) && Slots(n)[i] == i
    ensures forall i :: 0 <= i < |n.natives| && (n.natives[i].numeric || n.parameterCount == 0) ==> n.natives[i].index in Slots(n)
    ensures forall i :: 0 <= i < |n.placeholders| ==> n.placeholders[i].index < n.parameterCount
  {
    if n.parameterCount > 0 {
      var first := FirstSlots(n.parameterCount);
      FirstSlotsBijection(n.parameterCount);
      ExtraSlotsBijection(first, n.natives);
      assert forall i :: i in first ==> i in Slots(n);
      SlotCount(Slots(n), n.parameterCount);
    }
  }

  lemma SlotCount(m: map<nat, nat>, count: nat)
    requires forall i :: 0 <= i < count ==> i in m
    ensures count <= |m|
  {
    var keys := FirstSlots(count).Keys;
    assert |FirstSlots(count)| == |keys|;
    assert keys <= m.Keys;
    SubsetSize(keys, m.Keys);
  }

  lemma {:induction false} SubsetSize(a: set<nat>, b: set<nat>)
    requires a <= b
    ensures |a| <= |b|
  {
    if a != {} {
      var x :| x in a;
      SubsetSize(a - {x}, b - {x});
    }
  }

  // Named placeholders: the same index exactly for the same name, and index k
  // for the k-th name in the order of first occurrence.
  lemma NamesRankByFirstOccurrence(items: seq<Item>, legacy: bool)
    requires var r := Number(START, 0, items, legacy); r.Some? && r.value.style == NamedParameters
    ensures var n, texts := Number(START, 0, items, legacy).value, PdoTexts(items);
            && |n.placeholders| == |texts| && n.parameterCount == |FirstOccurrences(texts)|
            && (forall i :: 0 <= i < |texts| ==>
                  n.placeholders[i].index < n.parameterCount && FirstOccurrences(texts)[n.placeholders[i].index] == texts[i])
            && (forall i, j :: 0 <= i < |texts| && 0 <= j < |texts| ==>
                  (n.placeholders[i].index == n.placeholders[j].index <==> texts[i] == texts[j]))
  {
    StartNumbered();
    NumberNumbered(START, [], 0, items, legacy);
    assert [] + PdoTexts(items) == PdoTexts(items);
    FirstOccurrencesDiffer(PdoTexts(items));
  }

  lemma {:induction false} FirstOccurrencesDiffer(texts: seq<Bytes>)
    ensures forall i, j :: 0 <= i < j < |FirstOccurrences(texts)| ==> FirstOccurrences(texts)[i] != FirstOccurrences(texts)[j]
  {
    if texts != [] {
      FirstOccurrencesDiffer(texts[..|texts| - 1]);
      FirstOccurrencesMembers(texts[..|texts| - 1]);
    }
  }

  // Placeholder i of the other style than placeholder j, or, for j == -1, than
  // the style already chosen.
  ghost predicate MixedAt(style: Style, items: seq<Item>, i: int, j: int)
  {
    && 0 <= i < |items| && -1 <= j < i && PdoKind(items[i].kind)
    && (if j == -1 then style != NoParameters && style != StyleOf(items[i].kind)
        else PdoKind(items[j].kind) && items[j].kind != items[i].kind)
  }

  lemma {:induction false} FailsWhenMixed(n: Numbers, offset: nat, items: seq<Item>, legacy: bool)
    ensures Number(n, offset, items, legacy).None? <==> exists i, j :: MixedAt(n.style, items, i, j)
    decreases |items|
  {
    if items != [] {
      match NumberItem(n, offset, items[0], legacy) {
        case None =>
          assert MixedAt(n.style, items, 0, -1);
        case Some(m) =>
          FailsWhenMixed(m, offset + |items[0].text|, items[1..], legacy);
          MixedShift(n, m, items);
      }
    }
  }

  // A statement is refused exactly when it holds placeholders of both styles.
  lemma RefusedExactlyWhenMixed(items: seq<Item>, legacy: bool)
    ensures Number(START, 0, items, legacy).None?
       <==> exists i, j :: 0 <= j < i < |items| && PdoKind(items[i].kind) && PdoKind(items[j].kind)
                           && items[j].kind != items[i].kind
  {
    FailsWhenMixed(START, 0, items, legacy);
    if i, j :| MixedAt(NoParameters, items, i, j) {
      assert 0 <= j < i;
    }
    if i, j :| 0 <= j < i < |items| && PdoKind(items[i].kind) && PdoKind(items[j].kind) && items[j].kind != items[i].kind {
      assert MixedAt(NoParameters, items, i, j);
    }
  }

  lemma MixedShift(n: Numbers, m: Numbers, items: seq<Item>)
    requires items != []
    requires m.style == (if PdoKind(items[0].kind) then StyleOf(items[0].kind) else n.style)
    requires PdoKind(items[0].kind) ==> n.style == NoParameters || n.style == m.style
    ensures (exists i, j :: MixedAt(n.style, items, i, j)) <==> (exists i, j :: MixedAt(m.style, items[1..], i, j))
  {
    if i, j :| MixedAt(n.style, items, i, j) {
      if j > 0 {
        assert MixedAt(m.style, items[1..], i - 1, j - 1);
      } else {
        assert MixedAt(m.style, items[1..], i - 1, -1);
      }
    }
    if i, j :| MixedAt(m.style, items[1..], i, j) {
      if j >= 0 {
        assert MixedAt(n.style, items, i + 1, j + 1);
      } else if PdoKind(items[0].kind) {
        assert MixedAt(n.style, items, i + 1, 0);
      } else {
        assert MixedAt(n.style, items, i + 1, -1);
      }
    }
  }
}
