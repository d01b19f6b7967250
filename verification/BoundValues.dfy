// Which value stands where in an expanded statement, and which number in a
// prepared one.
module BoundValues {
  import opened Options
  import opened Text
  import opened Digits
  import opened SqlLexer
  import opened Numbering
  import opened Plan
  import opened Render
  import opened Rewriting
  import opened Statements
  import opened NativeForm
  import opened Spelling

  function Joined(texts: seq<Bytes>): Bytes
  {
    if texts == [] then [] else texts[0] + Joined(texts[1..])
  }

  function Spaced(b: Binding): Bytes
    requires b.value.Some?
  {
    [SPACE] + BoundText(b) + [SPACE]
  }

  // The PDO parameter that item k is for: of the ?s its own, of the :names the one
  // of its name, in the order in which the names first occur.
  ghost predicate AsksFor(items: seq<Item>, k: nat, r: nat)
  {
    && k < |items|
    && ((items[k].kind == Positional && r == |PdoTexts(items[..k])|)
        || (items[k].kind == Named
            && var names := FirstOccurrences(PdoTexts(items)); r < |names| && names[r] == items[k].text))
  }

  // ---- $ parameters ----

  // What the digits of a numbered $ parameter denote.
  function NumberIn(k: Kind, legacy: bool): Option<nat>
    requires k.Native?
  {
    NumberValue(k.name, legacy, 0)
  }

  predicate LegacyZero(k: Kind, legacy: bool)
    requires k.Native?
  {
    k.numeric && legacy && NumberIn(k, legacy) == Some(0)
  }

  // Its number is none that can be asked for.
  predicate Unplaced(k: Kind, legacy: bool)
    requires k.Native?
  {
    k.numeric && (NumberIn(k, legacy).None? || NumberIn(k, legacy).value == 0 || NumberIn(k, legacy).value - 1 > ZEND_LONG_MAX)
  }

  function KeyOf(k: Kind): Bytes
    requires k.Native?
  {
    NativeKey(k.name, k.quote)
  }

  // A number or a name with a place of its own.
  predicate Placeable(i: Item, legacy: bool)
  {
    i.kind.Native? && !LegacyZero(i.kind, legacy) && !Unplaced(i.kind, legacy)
  }

  // ---- The items one by one ----

  // What text stands for item i, the c-th placeholder if it is a PDO one.
  ghost predicate Stands(m: Numbers, slots: map<nat, nat>, form: Form, i: Item, c: nat, text: Bytes, place: Option<nat>,
                         legacy: bool)
    requires Fits(m, slots, form)
  {
    if PdoKind(i.kind) then
      && c < |m.placeholders| && m.style == StyleOf(i.kind)
      && Owned(m, m.placeholders[c], false) && text == TextOr(Replacement(m, slots, form, m.placeholders[c], false), i.text)
    else if i.kind.Native? then
      && (Unplaced(i.kind, legacy) && !LegacyZero(i.kind, legacy) ==> place.None?)
      && (place.None? ==> text == i.text)
      && (place.Some? ==> text == TextOr(Replacement(m, slots, form, Placeholder(0, 0, place.value, i.kind.numeric), true), i.text))
      && (Placeable(i, legacy) ==>
            KeyOf(i.kind) in m.nativeNames && place == Some(m.nativeNames[KeyOf(i.kind)]) && Known(m, place.value, i.kind.numeric))
    else text == i.text
  }

  // Some $ parameter of the statement has this position.
  ghost predicate Known(m: Numbers, place: nat, numeric: bool)
  {
    exists j :: 0 <= j < |m.natives| && m.natives[j].index == place && m.natives[j].numeric == numeric
  }

  lemma {:induction false} StyleStays(n: Numbers, pos: nat, items: seq<Item>, legacy: bool)
    requires n.style != NoParameters && Number(n, pos, items, legacy).Some?
    ensures Number(n, pos, items, legacy).value.style == n.style
    decreases |items|
  {
    if items != [] {
      StyleStays(NumberItem(n, pos, items[0], legacy).value, pos + |items[0].text|, items[1..], legacy);
    }
  }

  lemma {:induction false} NamesStay(n: Numbers, pos: nat, items: seq<Item>, legacy: bool)
    requires Number(n, pos, items, legacy).Some?
    ensures var m := Number(n, pos, items, legacy).value;
            forall key :: key in n.nativeNames ==> key in m.nativeNames && m.nativeNames[key] == n.nativeNames[key]
    decreases |items|
  {
    if items != [] {
      NamesStay(NumberItem(n, pos, items[0], legacy).value, pos + |items[0].text|, items[1..], legacy);
    }
  }

  lemma JoinedFirst(text: Bytes, texts: seq<Bytes>)
    ensures Joined([text] + texts) == text + Joined(texts)
  {
    assert ([text] + texts)[1..] == texts;
  }

  lemma CountFirst(done: seq<Item>, rest: seq<Item>, k: nat)
    requires rest != [] && k < |rest|
    ensures k > 0 ==> done + rest[..k] == (done + [rest[0]]) + rest[1..][..k - 1]
    ensures k == 0 ==> done + rest[..k] == done
  {
  }

  lemma {:induction false} TextsAppend(a: seq<Item>, i: Item)
    ensures PdoTexts(a + [i]) == PdoTexts(a) + ItemTexts(i)
  {
    if a == [] {
      assert [] + [i] == [i] && [i][1..] == [];
    } else {
      TextsAppend(a[1..], i);
      assert (a + [i])[1..] == a[1..] + [i];
    }
  }

  // What a $ parameter leaves in the lists.
  lemma NativeEntered(n: Numbers, pos: nat, i: Item, legacy: bool)
    requires i.kind.Native?
    ensures var m := NumberItem(n, pos, i, legacy).value;
            && (m.natives == n.natives ==> !Placeable(i, legacy))
            && (m.natives != n.natives ==>
                  && (Placeable(i, legacy) || LegacyZero(i.kind, legacy)) && |m.natives| == |n.natives| + 1
                  && m.natives[|n.natives|].numeric == i.kind.numeric)
            && (Placeable(i, legacy) ==>
                  KeyOf(i.kind) in m.nativeNames && m.natives[|n.natives|].index == m.nativeNames[KeyOf(i.kind)])
  {
  }

  // The first item, given the numbers before it, n, behind it, after, and at the end, m.
  lemma FirstStands(m: Numbers, slots: map<nat, nat>, form: Form, n: Numbers, pos: nat, i: Item, rest: seq<Item>, legacy: bool,
                    pdo: seq<Placeholder>, native: seq<Placeholder>, after: Numbers)
      returns (text: Bytes, place: Option<nat>)
    requires Fits(m, slots, form) && i.text != [] && Solid(rest) && NumberItem(n, pos, i, legacy) == Some(after)
    requires Number(after, pos + |i.text|, rest, legacy) == Some(m)
    requires n.placeholders <= m.placeholders && n.natives <= m.natives
    requires pdo == m.placeholders[|n.placeholders|..] && native == m.natives[|n.natives|..]
    requires (PdoKind(i.kind) ==> pdo != []) && forall k :: 0 <= k < |pdo| ==> Owned(m, pdo[k], false)
    ensures text == TextOr(Chosen(m, slots, form, i, pos, pdo, native), i.text)
    ensures Stands(m, slots, form, i, |n.placeholders|, text, place, legacy)
  {
    text, place := TextOr(Chosen(m, slots, form, i, pos, pdo, native), i.text), None;
    if PdoKind(i.kind) {
      StyleStays(after, pos + |i.text|, rest, legacy);
    } else if i.kind.Native? {
      place := NativeStands(m, slots, form, n, pos, i, rest, legacy, native, text, after);
    }
  }

  // A $ parameter's entry is the first of those that are left.
  lemma HeadAt(m: Numbers, n: Numbers, pos: nat, i: Item, rest: seq<Item>, legacy: bool, native: seq<Placeholder>, after: Numbers)
    requires i.kind.Native? && after == NumberItem(n, pos, i, legacy).value
    requires Number(after, pos + |i.text|, rest, legacy) == Some(m) && Solid(rest) && i.text != []
    requires n.natives <= m.natives && native == m.natives[|n.natives|..]
    ensures if after.natives == n.natives then native == [] || native[0].offset != pos
            else native != [] && native[0].offset == pos && |n.natives| < |after.natives| && native[0] == after.natives[|n.natives|]
  {
    ItemGrows(n, pos, i, legacy);
    NumberAligned(after, pos + |i.text|, rest, legacy);
    AlignedAhead(rest, pos + |i.text|, m.placeholders[|after.placeholders|..], m.natives[|after.natives|..]);
    assert after.natives != n.natives ==> m.natives[|n.natives|] == after.natives[|n.natives|];
  }

  lemma NativeStands(m: Numbers, slots: map<nat, nat>, form: Form, n: Numbers, pos: nat, i: Item, rest: seq<Item>, legacy: bool,
                     native: seq<Placeholder>, text: Bytes, after: Numbers) returns (place: Option<nat>)
    requires Fits(m, slots, form) && i.kind.Native? && after == NumberItem(n, pos, i, legacy).value
    requires Number(after, pos + |i.text|, rest, legacy) == Some(m) && Solid(rest) && i.text != []
    requires n.natives <= m.natives && native == m.natives[|n.natives|..]
    requires text == TextOr(if native != [] && native[0].offset == pos then Replacement(m, slots, form, native[0], true) else None, i.text)
    ensures Stands(m, slots, form, i, |n.placeholders|, text, place, legacy)
  {
    NativeEntered(n, pos, i, legacy);
    HeadAt(m, n, pos, i, rest, legacy, native, after);
    NamesStay(after, pos + |i.text|, rest, legacy);
    place := if after.natives == n.natives then None else Some(native[0].index);
    if place.Some? {
      assert native[0] == m.natives[|n.natives|] && Known(m, place.value, i.kind.numeric);
    }
  }

  // texts stand for the items behind done.
  ghost predicate AllStand(m: Numbers, slots: map<nat, nat>, form: Form, done: seq<Item>, items: seq<Item>,
                           texts: seq<Bytes>, places: seq<Option<nat>>, legacy: bool)
    requires Fits(m, slots, form)
  {
    && |texts| == |places| == |items|
    && forall k :: 0 <= k < |items| ==>
         Stands(m, slots, form, items[k], |PdoTexts(done + items[..k])|, texts[k], places[k], legacy)
  }

  lemma StandsFirst(m: Numbers, slots: map<nat, nat>, form: Form, done: seq<Item>, items: seq<Item>, text: Bytes,
                    place: Option<nat>, texts: seq<Bytes>, places: seq<Option<nat>>, legacy: bool)
    requires Fits(m, slots, form) && items != []
    requires Stands(m, slots, form, items[0], |PdoTexts(done)|, text, place, legacy)
    requires AllStand(m, slots, form, done + [items[0]], items[1..], texts, places, legacy)
    ensures AllStand(m, slots, form, done, items, [text] + texts, [place] + places, legacy)
  {
    forall k | 0 <= k < |items|
      ensures Stands(m, slots, form, items[k], |PdoTexts(done + items[..k])|, ([text] + texts)[k], ([place] + places)[k], legacy)
    {
      CountFirst(done, items, k);
      if k > 0 {
        assert Stands(m, slots, form, items[1..][k - 1], |PdoTexts(done + [items[0]] + items[1..][..k - 1])|,
                      texts[k - 1], places[k - 1], legacy);
      }
    }
  }

  lemma WovenOne(m: Numbers, slots: map<nat, nat>, form: Form, pos: nat, i: Item, rest: seq<Item>,
                 pdo: seq<Placeholder>, native: seq<Placeholder>, pdo': seq<Placeholder>, native': seq<Placeholder>)
    requires Fits(m, slots, form) && forall k :: 0 <= k < |pdo| ==> Owned(m, pdo[k], false)
    requires pdo' == if PdoKind(i.kind) && pdo != [] then pdo[1..] else pdo
    requires native' == if i.kind.Native? && native != [] && native[0].offset == pos then native[1..] else native
    ensures Woven(m, slots, form, [i] + rest, pos, pdo, native)
         == TextOr(Chosen(m, slots, form, i, pos, pdo, native), i.text) + Woven(m, slots, form, rest, pos + |i.text|, pdo', native')
  {
    assert ([i] + rest)[1..] == rest;
  }

  // The lists behind the first item.
  lemma ListsBehind(m: Numbers, n: Numbers, done: seq<Item>, pos: nat, i: Item, rest: seq<Item>, legacy: bool,
                    pdo: seq<Placeholder>, native: seq<Placeholder>, after: Numbers)
      returns (pdo': seq<Placeholder>, native': seq<Placeholder>)
    requires NumberItem(n, pos, i, legacy) == Some(after) && Number(after, pos + |i.text|, rest, legacy) == Some(m)
    requires |n.placeholders| == |PdoTexts(done)| && n.placeholders <= m.placeholders && n.natives <= m.natives
    requires pdo == m.placeholders[|n.placeholders|..] && native == m.natives[|n.natives|..]
    requires Aligned([i] + rest, pos, pdo, native) && Solid(rest) && i.text != []
    ensures |after.placeholders| == |PdoTexts(done + [i])| && after.placeholders <= m.placeholders && after.natives <= m.natives
    ensures pdo' == m.placeholders[|after.placeholders|..] && native' == m.natives[|after.natives|..]
    ensures Aligned(rest, pos + |i.text|, pdo', native') && (PdoKind(i.kind) ==> pdo != [])
    ensures pdo' == if PdoKind(i.kind) && pdo != [] then pdo[1..] else pdo
    ensures native' == if i.kind.Native? && native != [] && native[0].offset == pos then native[1..] else native
  {
    ItemGrows(n, pos, i, legacy);
    NumberAligned(after, pos + |i.text|, rest, legacy);
    TextsAppend(done, i);
    RestOfLists(m, n, after, pos, i, rest, pdo, native);
    pdo', native' := m.placeholders[|after.placeholders|..], m.natives[|after.natives|..];
  }

  lemma {:induction false} Decomposed(m: Numbers, slots: map<nat, nat>, form: Form, n: Numbers, done: seq<Item>, pos: nat,
                                      rest: seq<Item>, legacy: bool, pdo: seq<Placeholder>, native: seq<Placeholder>)
      returns (texts: seq<Bytes>, places: seq<Option<nat>>)
    requires Fits(m, slots, form) && Number(n, pos, rest, legacy) == Some(m) && Solid(rest)
    requires |n.placeholders| == |PdoTexts(done)| && n.placeholders <= m.placeholders && n.natives <= m.natives
    requires pdo == m.placeholders[|n.placeholders|..] && native == m.natives[|n.natives|..]
    requires Aligned(rest, pos, pdo, native) && forall k :: 0 <= k < |pdo| ==> Owned(m, pdo[k], false)
    ensures Joined(texts) == Woven(m, slots, form, rest, pos, pdo, native)
    ensures AllStand(m, slots, form, done, rest, texts, places, legacy)
    decreases |rest|
  {
    texts, places := [], [];
    if rest != [] {
      var i, next := rest[0], pos + |rest[0].text|;
      assert rest == [i] + rest[1..] && Solid(rest[1..]);
      var after := NumberItem(n, pos, i, legacy).value;
      var pdo', native' := ListsBehind(m, n, done, pos, i, rest[1..], legacy, pdo, native, after);
      var text, place := FirstStands(m, slots, form, n, pos, i, rest[1..], legacy, pdo, native, after);
      WovenOne(m, slots, form, pos, i, rest[1..], pdo, native, pdo', native');
      var texts', places' := Decomposed(m, slots, form, after, done + [i], next, rest[1..], legacy, pdo', native');
      JoinedFirst(text, texts');
      StandsFirst(m, slots, form, done, rest, text, place, texts', places', legacy);
      texts, places := [text] + texts', [place] + places';
    }
  }

  lemma RestOfLists(m: Numbers, n: Numbers, after: Numbers, pos: nat, i: Item, rest: seq<Item>,
                    pdo: seq<Placeholder>, native: seq<Placeholder>)
    requires n.placeholders <= after.placeholders <= m.placeholders && n.natives <= after.natives <= m.natives
    requires pdo == m.placeholders[|n.placeholders|..] && native == m.natives[|n.natives|..]
    requires Aligned([i] + rest, pos, pdo, native) && i.text != []
    requires Aligned(rest, pos + |i.text|, m.placeholders[|after.placeholders|..], m.natives[|after.natives|..])
    requires |after.placeholders| == |n.placeholders| + |ItemTexts(i)|
    requires after.natives == n.natives || (i.kind.Native? && |after.natives| == |n.natives| + 1 && after.natives[|n.natives|].offset == pos)
    ensures m.placeholders[|after.placeholders|..] == if PdoKind(i.kind) && pdo != [] then pdo[1..] else pdo
    ensures m.natives[|after.natives|..] == if i.kind.Native? && native != [] && native[0].offset == pos then native[1..] else native
  {
    AlignedAhead(rest, pos + |i.text|, m.placeholders[|after.placeholders|..], m.natives[|after.natives|..]);
  }

  // ---- Where the positions of $ parameters come from ----

  ghost predicate NamedBy(key: Bytes, position: nat, i: Item, legacy: bool)
  {
    && Placeable(i, legacy) && KeyOf(i.kind) == key
    && (i.kind.numeric ==> NumberIn(i.kind, legacy).Some? && position + 1 == NumberIn(i.kind, legacy).value)
  }

  // Each name got its position from a parameter with that name, a number from its own.
  ghost predicate NamesFrom(n: Numbers, items: seq<Item>, legacy: bool)
  {
    forall key :: key in n.nativeNames ==> exists i :: i in items && NamedBy(key, n.nativeNames[key], i, legacy)
  }

  lemma NamesEntered(n: Numbers, pos: nat, done: seq<Item>, i: Item, legacy: bool)
    requires NamesFrom(n, done, legacy) && NumberItem(n, pos, i, legacy).Some?
    ensures NamesFrom(NumberItem(n, pos, i, legacy).value, done + [i], legacy)
  {
    var m := NumberItem(n, pos, i, legacy).value;
    forall key | key in m.nativeNames
      ensures exists j :: j in done + [i] && NamedBy(key, m.nativeNames[key], j, legacy)
    {
      if key in n.nativeNames {
        var j :| j in done && NamedBy(key, n.nativeNames[key], j, legacy);
        assert j in done + [i];
      } else {
        assert i in done + [i] && NamedBy(key, m.nativeNames[key], i, legacy);
      }
    }
  }

  lemma {:induction false} NamesComeFrom(n: Numbers, done: seq<Item>, pos: nat, rest: seq<Item>, legacy: bool)
    requires NamesFrom(n, done, legacy) && Number(n, pos, rest, legacy).Some?
    ensures NamesFrom(Number(n, pos, rest, legacy).value, done + rest, legacy)
    decreases |rest|
  {
    if rest == [] {
      assert done + rest == done;
    } else {
      NamesEntered(n, pos, done, rest[0], legacy);
      NamesComeFrom(NumberItem(n, pos, rest[0], legacy).value, done + [rest[0]], pos + |rest[0].text|, rest[1..], legacy);
      assert done + [rest[0]] + rest[1..] == done + rest;
    }
  }

  // Numbers are spelled with digits and underscores, and not quoted.
  predicate NumberSpelled(i: Item) { i.kind.Native? && i.kind.numeric ==> i.kind.quote == 0 && Spelled(i.kind.name) }

  lemma {:induction false} NumberRead(x: Bytes, afterDigit: bool)
    ensures Spelled(x[..NumberLength(x, afterDigit)])
  {
    var n := NumberLength(x, afterDigit);
    if n > 0 {
      if Digit(x[0]) {
        NumberRead(x[1..], true);
      } else {
        NumberRead(x[1..], false);
      }
      assert x[..n] == [x[0]] + x[1..][..n - 1];
    }
  }

  lemma {:induction false} NumbersSpelled(prev: int, r: Bytes, seen: bool)
    ensures forall k :: 0 <= k < |Items(prev, r, seen)| ==> NumberSpelled(Items(prev, r, seen)[k])
    decreases |r|
  {
    if r != [] {
      var l := Lex(prev, r, seen);
      LexSpelled(prev, r, seen);
      NumbersSpelled(r[l.length - 1], r[l.length..], seen || Significant(l.kind));
    }
  }

  lemma LexSpelled(prev: int, r: Bytes, seen: bool)
    requires r != []
    ensures NumberSpelled(Item(Lex(prev, r, seen).kind, r[..Lex(prev, r, seen).length]))
  {
    if Lex(prev, r, seen).kind.Native? {
      NumberRead(r[NameStart(r)..], false);
    }
  }

  lemma SpelledKey(k: Kind)
    requires k.Native? && k.quote == 0 && Spelled(k.name)
    ensures KeyOf(k) == k.name
  {
  }

  // What the places of the $ parameters are: the same for the same name, and a
  // number's own, unless a name is spelled like it.
  ghost predicate Placed(items: seq<Item>, places: seq<Option<nat>>, legacy: bool)
  {
    && |places| == |items|
    && (forall k :: 0 <= k < |items| ==> PlacedAt(items, items[k], places[k], legacy))
    && (forall j, k :: 0 <= j < |items| && 0 <= k < |items| ==> PlacedAlike(items[j], items[k], places[j], places[k], legacy))
  }

  ghost predicate PlacedAt(items: seq<Item>, i: Item, place: Option<nat>, legacy: bool)
  {
    && (i.kind.Native? && !LegacyZero(i.kind, legacy) ==> (place.None? <==> Unplaced(i.kind, legacy)))
    && (Placeable(i, legacy) && i.kind.numeric
        && (forall j :: j in items && j.kind.Native? && !j.kind.numeric ==> KeyOf(j.kind) != KeyOf(i.kind))
        ==> place == Some(NumberIn(i.kind, legacy).value - 1))
  }

  ghost predicate PlacedAlike(i: Item, j: Item, here: Option<nat>, there: Option<nat>, legacy: bool)
  {
    Placeable(i, legacy) && Placeable(j, legacy) && KeyOf(i.kind) == KeyOf(j.kind) ==> here == there
  }

  lemma NumberPlaced(m: Numbers, items: seq<Item>, i: Item, legacy: bool)
    requires NamesFrom(m, items, legacy) && Placeable(i, legacy) && i.kind.numeric && NumberSpelled(i)
    requires forall j :: j in items ==> NumberSpelled(j)
    requires forall j :: j in items && j.kind.Native? && !j.kind.numeric ==> KeyOf(j.kind) != KeyOf(i.kind)
    requires KeyOf(i.kind) in m.nativeNames
    ensures m.nativeNames[KeyOf(i.kind)] + 1 == NumberIn(i.kind, legacy).value
  {
    var key := KeyOf(i.kind);
    var j :| j in items && NamedBy(key, m.nativeNames[key], j, legacy);
    SpelledKey(i.kind);
    SpelledKey(j.kind);
  }

  // ---- The whole statement ----

  // Everything said above about an accepted statement and a form of it.
  lemma StatementDecomposed(sql: Bytes, legacy: bool, form: Form) returns (texts: seq<Bytes>, places: seq<Option<nat>>)
    requires NumbersOf(sql, legacy).Ok?
    requires var n := NumbersOf(sql, legacy).value; Fits(n, Slots(n), form)
    ensures var m, items := NumbersOf(sql, legacy).value, ItemsOf(sql);
            && Placed(items, places, legacy)
            && (forall k :: 0 <= k < |m.placeholders| ==> Owned(m, m.placeholders[k], false))
            && Joined(texts) == Woven(m, Slots(m), form, items, 0, m.placeholders, m.natives)
            && AllStand(m, Slots(m), form, [], items, texts, places, legacy)
  {
    var m, items := NumbersOf(sql, legacy).value, ItemsOf(sql);
    ItemsSolid(-1, sql, false);
    NumberAligned(START, 0, items, legacy);
    assert m.placeholders[0..] == m.placeholders && m.natives[0..] == m.natives;
    texts, places := Decomposed(m, Slots(m), form, START, [], 0, items, legacy, m.placeholders, m.natives);
    NamesComeFrom(START, [], 0, items, legacy);
    assert [] + items == items;
    NumbersSpelled(-1, sql, false);
    forall k | 0 <= k < |items|
      ensures Rooted(m, items[k], places[k], legacy)
    {
      assert Stands(m, Slots(m), form, items[k], |PdoTexts([] + items[..k])|, texts[k], places[k], legacy);
    }
    AllPlaced(m, items, places, legacy);
  }

  // What Stands says of the place alone.
  ghost predicate Rooted(m: Numbers, i: Item, place: Option<nat>, legacy: bool)
  {
    i.kind.Native? ==>
      && (Unplaced(i.kind, legacy) && !LegacyZero(i.kind, legacy) ==> place.None?)
      && (Placeable(i, legacy) ==> KeyOf(i.kind) in m.nativeNames && place == Some(m.nativeNames[KeyOf(i.kind)]))
  }

  lemma RootedPlaced(m: Numbers, items: seq<Item>, i: Item, place: Option<nat>, legacy: bool)
    requires Rooted(m, i, place, legacy) && NamesFrom(m, items, legacy) && NumberSpelled(i)
    requires forall j :: j in items ==> NumberSpelled(j)
    ensures PlacedAt(items, i, place, legacy)
  {
    if Placeable(i, legacy) && i.kind.numeric
       && (forall j :: j in items && j.kind.Native? && !j.kind.numeric ==> KeyOf(j.kind) != KeyOf(i.kind)) {
      NumberPlaced(m, items, i, legacy);
    }
  }

  lemma AllPlaced(m: Numbers, items: seq<Item>, places: seq<Option<nat>>, legacy: bool)
    requires NamesFrom(m, items, legacy) && |places| == |items| && forall j :: j in items ==> NumberSpelled(j)
    requires forall k :: 0 <= k < |items| ==> Rooted(m, items[k], places[k], legacy)
    ensures Placed(items, places, legacy)
  {
    forall k | 0 <= k < |items|
      ensures PlacedAt(items, items[k], places[k], legacy)
    {
      RootedPlaced(m, items, items[k], places[k], legacy);
    }
    forall j, k | 0 <= j < |items| && 0 <= k < |items|
      ensures PlacedAlike(items[j], items[k], places[j], places[k], legacy)
    {
      assert Rooted(m, items[j], places[j], legacy) && Rooted(m, items[k], places[k], legacy);
    }
  }

  lemma {:induction false} PdoTextAt(items: seq<Item>, k: nat)
    requires k < |items| && PdoKind(items[k].kind)
    ensures var c := |PdoTexts(items[..k])|; c < |PdoTexts(items)| && PdoTexts(items)[c] == items[k].text
  {
    if k == 0 {
      assert items[..0] == [];
    } else {
      PdoTextAt(items[1..], k - 1);
      assert items[..k][1..] == items[1..][..k - 1];
    }
  }

  // The index of a PDO placeholder is the parameter it is for.
  lemma IndexAsked(sql: Bytes, legacy: bool, k: nat)
    requires NumbersOf(sql, legacy).Ok? && k < |ItemsOf(sql)| && PdoKind(ItemsOf(sql)[k].kind)
    requires NumbersOf(sql, legacy).value.style == StyleOf(ItemsOf(sql)[k].kind)
    ensures var m, c := NumbersOf(sql, legacy).value, |PdoTexts(ItemsOf(sql)[..k])|;
            && c < |m.placeholders| && AsksFor(ItemsOf(sql), k, m.placeholders[c].index)
  {
    var m, items := NumbersOf(sql, legacy).value, ItemsOf(sql);
    StartNumbered();
    NumberNumbered(START, [], 0, items, legacy);
    assert [] + PdoTexts(items) == PdoTexts(items);
    PdoTextAt(items, k);
  }

  // The value of a $ parameter, or None where it stays as it is written: a name
  // beside PDO parameters, and a position without a value.
  function ValueAt(m: Numbers, values: seq<Binding>, place: Option<nat>, numeric: bool): Option<Binding>
  {
    if place.None? || (m.parameterCount > 0 && !numeric) || place.value >= |values| || place.value !in Slots(m)
       || Slots(m)[place.value] >= |values| || values[Slots(m)[place.value]].value.None? then None
    else Some(values[Slots(m)[place.value]])
  }

  // text is what is to stand for item k: the value of the PDO parameter it is for,
  // between two blanks, or that at the slot of a $ parameter's place, if there is one.
  ghost predicate Expanded(m: Numbers, items: seq<Item>, k: nat, text: Bytes, place: Option<nat>, values: seq<Binding>)
    requires k < |items|
  {
    var i := items[k];
    if PdoKind(i.kind) then
      exists r: nat :: AsksFor(items, k, r) && r < |values| && values[r].value.Some? && text == Spaced(values[r])
    else if i.kind.Native? then
      var v := ValueAt(m, values, place, i.kind.numeric); text == if v.None? then i.text else Spaced(v.value)
    else text == i.text
  }

  lemma StandsExpanded(sql: Bytes, legacy: bool, values: seq<Binding>, k: nat, text: Bytes, place: Option<nat>)
    requires NumbersOf(sql, legacy).Ok? && k < |ItemsOf(sql)|
    requires var m := NumbersOf(sql, legacy).value; Fits(m, Slots(m), ExpandedForm(values))
    requires var m := NumbersOf(sql, legacy).value;
             Stands(m, Slots(m), ExpandedForm(values), ItemsOf(sql)[k], |PdoTexts(ItemsOf(sql)[..k])|, text, place, legacy)
    ensures Expanded(NumbersOf(sql, legacy).value, ItemsOf(sql), k, text, place, values)
  {
    if PdoKind(ItemsOf(sql)[k].kind) {
      IndexAsked(sql, legacy, k);
    }
  }

  // What a placeholder asks for is one parameter.
  lemma AsksForOne(items: seq<Item>, k: nat, r: nat, q: nat)
    requires AsksFor(items, k, r) && AsksFor(items, k, q)
    ensures r == q
  {
    FirstOccurrencesDiffer(PdoTexts(items));
  }

  // A plan has the style of each of its placeholders.
  lemma {:induction false} StyleIs(n: Numbers, pos: nat, items: seq<Item>, legacy: bool, k: nat)
    requires Number(n, pos, items, legacy).Some? && k < |items| && PdoKind(items[k].kind)
    ensures Number(n, pos, items, legacy).value.style == StyleOf(items[k].kind)
    decreases |items|
  {
    var m := NumberItem(n, pos, items[0], legacy).value;
    if k == 0 {
      StyleStays(m, pos + |items[0].text|, items[1..], legacy);
    } else {
      StyleIs(m, pos + |items[0].text|, items[1..], legacy, k - 1);
    }
  }

  lemma {:induction false} PdoItemAt(items: seq<Item>, c: nat) returns (k: nat)
    requires c < |PdoTexts(items)|
    ensures k < |items| && PdoKind(items[k].kind) && |PdoTexts(items[..k])| == c
  {
    var first := |ItemTexts(items[0])|;
    if c < first {
      k := 0;
      assert items[..0] == [];
    } else {
      k := PdoItemAt(items[1..], c - first);
      k := k + 1;
      assert items[..k][1..] == items[1..][..k - 1];
    }
  }

  lemma Numbered(sql: Bytes, legacy: bool)
    requires NumbersOf(sql, legacy).Ok?
    ensures Ranked(NumbersOf(sql, legacy).value, PdoTexts(ItemsOf(sql)))
  {
    StartNumbered();
    NumberNumbered(START, [], 0, ItemsOf(sql), legacy);
    assert [] + PdoTexts(ItemsOf(sql)) == PdoTexts(ItemsOf(sql));
  }

  lemma AskedBelow(sql: Bytes, legacy: bool, k: nat, r: nat)
    requires NumbersOf(sql, legacy).Ok? && AsksFor(ItemsOf(sql), k, r)
    ensures r < NumbersOf(sql, legacy).value.parameterCount
  {
    Numbered(sql, legacy);
    StyleIs(START, 0, ItemsOf(sql), legacy, k);
    PdoTextAt(ItemsOf(sql), k);
  }

  lemma SomeoneAsks(sql: Bytes, legacy: bool, r: nat) returns (k: nat)
    requires NumbersOf(sql, legacy).Ok? && r < NumbersOf(sql, legacy).value.parameterCount
    ensures AsksFor(ItemsOf(sql), k, r)
  {
    var m, items := NumbersOf(sql, legacy).value, ItemsOf(sql);
    var texts := PdoTexts(items);
    Numbered(sql, legacy);
    var c := r;
    if m.style == NamedParameters {
      FirstOccurrencesMembers(texts);
      var name := FirstOccurrences(texts)[r];
      assert name in texts;
      c :| 0 <= c < |texts| && texts[c] == name;
    }
    k := PdoItemAt(items, c);
    PdoTextAt(items, k);
    StyleIs(START, 0, items, legacy, k);
  }

  // When a statement is expanded: there is a value for each slot, and each
  // placeholder's is set.
  lemma ExpandsWhen(sql: Bytes, legacy: bool, values: seq<Binding>)
    requires NumbersOf(sql, legacy).Ok?
    ensures ExpandedOf(sql, legacy, values) == Err(WrongCount) <==> |values| != |Slots(NumbersOf(sql, legacy).value)|
    ensures ExpandedOf(sql, legacy, values) == Err(Undefined) <==>
              && |values| == |Slots(NumbersOf(sql, legacy).value)|
              && exists k: nat, r: nat :: AsksFor(ItemsOf(sql), k, r) && r < |values| && values[r].value.None?
  {
    var m := NumbersOf(sql, legacy).value;
    forall r: nat | r < m.parameterCount && r < |values| && values[r].value.None?
      ensures exists k: nat :: AsksFor(ItemsOf(sql), k, r)
    {
      var k := SomeoneAsks(sql, legacy, r);
    }
    forall k: nat, r: nat | AsksFor(ItemsOf(sql), k, r)
      ensures r < m.parameterCount
    {
      AskedBelow(sql, legacy, k, r);
    }
  }

  // Each placeholder of an expanded statement has given way to the value bound to
  // the parameter it is for, and nothing else has changed: a ? to the value of its
  // own number, a :name to that of its name's rank, a $ parameter to the value at
  // the slot of its place, where there is one.
  lemma ExpandedValues(sql: Bytes, legacy: bool, values: seq<Binding>)
      returns (texts: seq<Bytes>, places: seq<Option<nat>>)
    requires NumbersOf(sql, legacy).Ok? && ExpandedOf(sql, legacy, values).Ok?
    ensures |texts| == |places| == |ItemsOf(sql)| && ExpandedOf(sql, legacy, values).value == Joined(texts)
    ensures forall k :: 0 <= k < |texts| ==>
              Expanded(NumbersOf(sql, legacy).value, ItemsOf(sql), k, texts[k], places[k], values)
    ensures Placed(ItemsOf(sql), places, legacy)
  {
    var m := NumbersOf(sql, legacy).value;
    PlanFits(sql, legacy, ExpandedForm(values));
    texts, places := StatementDecomposed(sql, legacy, ExpandedForm(values));
    forall k | 0 <= k < |texts|
      ensures Expanded(m, ItemsOf(sql), k, texts[k], places[k], values)
    {
      assert [] + ItemsOf(sql)[..k] == ItemsOf(sql)[..k];
      StandsExpanded(sql, legacy, values, k, texts[k], places[k]);
    }
  }

  // ---- The prepared statement ----

  lemma {:induction false} NativesIdle(n: Numbers, slots: map<nat, nat>, items: seq<Item>, pos: nat,
                                       pdo: seq<Placeholder>, native: seq<Placeholder>)
    requires Fits(n, slots, Form.NativeForm) && forall k :: 0 <= k < |pdo| ==> Owned(n, pdo[k], false)
    ensures Woven(n, slots, Form.NativeForm, items, pos, pdo, native) == Woven(n, slots, Form.NativeForm, items, pos, pdo, [])
    decreases |items|
  {
    if items != [] {
      var i, next := items[0], pos + |items[0].text|;
      NativesIdle(n, slots, items[1..], next, if PdoKind(i.kind) && pdo != [] then pdo[1..] else pdo,
                  if i.kind.Native? && native != [] && native[0].offset == pos then native[1..] else native);
    }
  }

  ghost predicate Prepared(items: seq<Item>, k: nat, text: Bytes)
    requires k < |items|
  {
    if PdoKind(items[k].kind) then exists r: nat :: AsksFor(items, k, r) && text == [DOLLAR] + DigitsOf(r + 1)
    else text == items[k].text
  }

  lemma StandsPrepared(sql: Bytes, legacy: bool, k: nat, text: Bytes, place: Option<nat>)
    requires NumbersOf(sql, legacy).Ok? && k < |ItemsOf(sql)|
    requires var m := NumbersOf(sql, legacy).value; Fits(m, Slots(m), Form.NativeForm)
    requires var m := NumbersOf(sql, legacy).value;
             Stands(m, Slots(m), Form.NativeForm, ItemsOf(sql)[k], |PdoTexts(ItemsOf(sql)[..k])|, text, place, legacy)
    ensures Prepared(ItemsOf(sql), k, text)
  {
    if PdoKind(ItemsOf(sql)[k].kind) {
      IndexAsked(sql, legacy, k);
    }
  }

  lemma NativeWoven(sql: Bytes, legacy: bool)
    requires NumbersOf(sql, legacy).Ok?
    requires var m := NumbersOf(sql, legacy).value; Fits(m, Slots(m), Form.NativeForm)
    requires forall k :: 0 <= k < |NumbersOf(sql, legacy).value.placeholders| ==>
               Owned(NumbersOf(sql, legacy).value, NumbersOf(sql, legacy).value.placeholders[k], false)
    ensures var m := NumbersOf(sql, legacy).value;
            NativeOf(sql, legacy) == Woven(m, Slots(m), Form.NativeForm, ItemsOf(sql), 0, m.placeholders, m.natives)
  {
    var m, items := NumbersOf(sql, legacy).value, ItemsOf(sql);
    PlanAligned(sql, legacy);
    AlignedWithoutNatives(items, 0, m.placeholders, m.natives);
    NativesIdle(m, Slots(m), items, 0, m.placeholders, m.natives);
    WovenNative(m, Slots(m), items, 0, m.placeholders);
  }

  // In the prepared statement each PDO placeholder is $ and the number of the
  // parameter it is for, and nothing else has changed.
  lemma PreparedNumbers(sql: Bytes, legacy: bool) returns (texts: seq<Bytes>)
    requires NumbersOf(sql, legacy).Ok?
    ensures |texts| == |ItemsOf(sql)| && NativeOf(sql, legacy) == Joined(texts)
    ensures forall k :: 0 <= k < |texts| ==> Prepared(ItemsOf(sql), k, texts[k])
  {
    var places;
    PlanFits(sql, legacy, Form.NativeForm);
    texts, places := StatementDecomposed(sql, legacy, Form.NativeForm);
    NativeWoven(sql, legacy);
    forall k | 0 <= k < |texts|
      ensures Prepared(ItemsOf(sql), k, texts[k])
    {
      assert [] + ItemsOf(sql)[..k] == ItemsOf(sql)[..k];
      StandsPrepared(sql, legacy, k, texts[k], places[k]);
    }
  }
}
