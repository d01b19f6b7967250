// The rewritten statement seen token by token: what the merge of the two
// placeholder lists comes to, and what a scanner makes of the result.
module Rewriting {
  import opened Sequences
  import opened Options
  import opened Text
  import opened SqlLexer
  import opened SqlScan
  import opened Rescan
  import opened Replace
  import opened Numbering
  import opened Plan
  import opened Render

  // ---- The placeholder lists follow the cut statement ----

  ghost predicate Aligned(items: seq<Item>, pos: nat, pdo: seq<Placeholder>, native: seq<Placeholder>)
    decreases |items|
  {
    if items == [] then pdo == [] && native == []
    else
      var i, next := items[0], pos + |items[0].text|;
      && i.text != []
      && if PdoKind(i.kind) then
           && pdo != [] && pdo[0].offset == pos && pdo[0].length == |i.text|
           && Aligned(items[1..], next, pdo[1..], native)
         else if i.kind.Native? && native != [] && native[0].offset == pos then
           native[0].length == |i.text| && Aligned(items[1..], next, pdo, native[1..])
         else Aligned(items[1..], next, pdo, native)
  }

  ghost predicate Solid(items: seq<Item>) { forall i :: 0 <= i < |items| ==> items[i].text != [] }

  lemma {:induction false} ItemsSolid(prev: int, r: Bytes, seen: bool)
    ensures Solid(Items(prev, r, seen))
    decreases |r|
  {
    if r != [] {
      var l := Lex(prev, r, seen);
      ItemsSolid(r[l.length - 1], r[l.length..], seen || Significant(l.kind));
    }
  }

  lemma ItemGrows(n: Numbers, pos: nat, i: Item, legacy: bool)
    requires NumberItem(n, pos, i, legacy).Some?
    ensures var m := NumberItem(n, pos, i, legacy).value;
            && m.placeholders == n.placeholders +
                 (if PdoKind(i.kind) then [m.placeholders[|m.placeholders| - 1]] else [])
            && (PdoKind(i.kind) ==> var p := m.placeholders[|m.placeholders| - 1]; p.offset == pos && p.length == |i.text|)
            && (m.natives == n.natives
                || (i.kind.Native? && |m.natives| == |n.natives| + 1 && m.natives[..|n.natives|] == n.natives
                    && m.natives[|n.natives|].offset == pos && m.natives[|n.natives|].length == |i.text|))
  {
  }

  // No native placeholder of the rest starts before the rest.
  lemma {:induction false} AlignedAhead(items: seq<Item>, pos: nat, pdo: seq<Placeholder>, native: seq<Placeholder>)
    requires Aligned(items, pos, pdo, native)
    ensures pdo != [] ==> pdo[0].offset >= pos
    ensures native != [] ==> native[0].offset >= pos
    decreases |items|
  {
    if items != [] {
      var i, next := items[0], pos + |items[0].text|;
      if PdoKind(i.kind) {
        AlignedAhead(items[1..], next, pdo[1..], native);
      } else if i.kind.Native? && native != [] && native[0].offset == pos {
        AlignedAhead(items[1..], next, pdo, native[1..]);
      } else {
        AlignedAhead(items[1..], next, pdo, native);
      }
    }
  }

  lemma {:induction false} NumberAligned(n: Numbers, pos: nat, items: seq<Item>, legacy: bool)
    requires Solid(items) && Number(n, pos, items, legacy).Some?
    ensures var m := Number(n, pos, items, legacy).value;
            && n.placeholders <= m.placeholders && n.natives <= m.natives
            && Aligned(items, pos, m.placeholders[|n.placeholders|..], m.natives[|n.natives|..])
    decreases |items|
  {
    if items != [] {
      var i, next := items[0], pos + |items[0].text|;
      var k := NumberItem(n, pos, i, legacy).value;
      var m := Number(n, pos, items, legacy).value;
      ItemGrows(n, pos, i, legacy);
      assert Solid(items[1..]);
      NumberAligned(k, next, items[1..], legacy);
      AlignedAhead(items[1..], next, m.placeholders[|k.placeholders|..], m.natives[|k.natives|..]);
      var pdo, native := m.placeholders[|n.placeholders|..], m.natives[|n.natives|..];
      if PdoKind(i.kind) {
        assert pdo[1..] == m.placeholders[|k.placeholders|..];
        assert pdo[0] == k.placeholders[|n.placeholders|];
      } else if k.natives != n.natives {
        assert native[1..] == m.natives[|k.natives|..];
        assert native[0] == k.natives[|n.natives|];
      }
    }
  }

  lemma {:induction false} AlignedWithoutNatives(items: seq<Item>, pos: nat, pdo: seq<Placeholder>, native: seq<Placeholder>)
    requires Aligned(items, pos, pdo, native)
    ensures Aligned(items, pos, pdo, [])
    decreases |items|
  {
    if items != [] {
      var i, next := items[0], pos + |items[0].text|;
      if PdoKind(i.kind) {
        AlignedWithoutNatives(items[1..], next, pdo[1..], native);
      } else if i.kind.Native? && native != [] && native[0].offset == pos {
        AlignedWithoutNatives(items[1..], next, pdo, native[1..]);
      } else {
        AlignedWithoutNatives(items[1..], next, pdo, native);
      }
    }
  }

  // ---- The merge, item by item ----

  function Chosen(n: Numbers, slots: map<nat, nat>, form: Form, i: Item, pos: nat,
                  pdo: seq<Placeholder>, native: seq<Placeholder>): Option<Bytes>
    requires Fits(n, slots, form) && forall k :: 0 <= k < |pdo| ==> Owned(n, pdo[k], false)
  {
    if PdoKind(i.kind) && pdo != [] then Replacement(n, slots, form, pdo[0], false)
    else if i.kind.Native? && native != [] && native[0].offset == pos then Replacement(n, slots, form, native[0], true)
    else None
  }

  // The statement with each placeholder's text in its place.
  function Woven(n: Numbers, slots: map<nat, nat>, form: Form, items: seq<Item>, pos: nat,
                 pdo: seq<Placeholder>, native: seq<Placeholder>): Bytes
    requires Fits(n, slots, form) && forall k :: 0 <= k < |pdo| ==> Owned(n, pdo[k], false)
    decreases |items|
  {
    if items == [] then []
    else
      var i, next := items[0], pos + |items[0].text|;
      TextOr(Chosen(n, slots, form, i, pos, pdo, native), i.text)
        + Woven(n, slots, form, items[1..], next,
                if PdoKind(i.kind) && pdo != [] then pdo[1..] else pdo,
                if i.kind.Native? && native != [] && native[0].offset == pos then native[1..] else native)
  }

  // The edits of the two lists are in order, and making them in sql from copied
  // on gives what stands before pos and then the woven items.
  ghost predicate Weaves(n: Numbers, slots: map<nat, nat>, form: Form, sql: Bytes, copied: nat, pos: nat,
                         items: seq<Item>, pdo: seq<Placeholder>, native: seq<Placeholder>)
    requires Fits(n, slots, form) && Within(n, pdo, false, |sql|) && Within(n, native, true, |sql|)
  {
    Splices(sql, copied, pos, EditsFor(n, slots, form, sql, pdo, native),
            Woven(n, slots, form, items, pos, pdo, native))
  }

  ghost predicate Splices(sql: Bytes, copied: nat, pos: nat, edits: seq<Edit>, woven: Bytes)
  {
    InOrder(edits, copied, |sql|) && copied <= pos <= |sql| && Splice(sql, copied, edits) == sql[copied..pos] + woven
  }

  lemma SpliceOne(sql: Bytes, copied: nat, edit: Edit, edits: seq<Edit>)
    requires copied <= edit.offset <= edit.end <= |sql| && InOrder(edits, edit.end, |sql|)
    ensures InOrder([edit] + edits, copied, |sql|)
    ensures Splice(sql, copied, [edit] + edits) == sql[copied..edit.offset] + edit.text + Splice(sql, edit.end, edits)
  {
    assert ([edit] + edits)[1..] == edits;
  }

  lemma SpliceCons(sql: Bytes, copied: nat, edit: Edit, edits: seq<Edit>, woven: Bytes, all: seq<Edit>, text: Bytes)
    requires copied <= edit.offset <= edit.end && Splices(sql, edit.end, edit.end, edits, woven)
    requires all == [edit] + edits && text == edit.text + woven
    ensures Splices(sql, copied, edit.offset, all, text)
  {
    SpliceOne(sql, copied, edit, edits);
    Associate(sql[copied..edit.offset], edit.text, woven);
    assert sql[edit.end..edit.end] + woven == woven;
  }

  // p is the first placeholder of the two lists and stands at item i; pdo' and
  // native' are the lists without it.
  ghost predicate Heads(n: Numbers, pos: nat, i: Item, pdo: seq<Placeholder>, native: seq<Placeholder>, isNative: bool,
                        p: Placeholder, pdo': seq<Placeholder>, native': seq<Placeholder>)
  {
    && (pdo != [] || native != []) && isNative == NativeFirst(pdo, native)
    && p.offset == pos && p.length == |i.text|
    && (isNative ==> i.kind.Native? && p == native[0] && pdo' == pdo && native' == native[1..])
    && (!isNative ==> PdoKind(i.kind) && p == pdo[0] && pdo' == pdo[1..] && native' == native)
  }

  lemma WovenFirst(n: Numbers, slots: map<nat, nat>, form: Form, pos: nat, i: Item, rest: seq<Item>,
                   pdo: seq<Placeholder>, native: seq<Placeholder>, isNative: bool,
                   p: Placeholder, pdo': seq<Placeholder>, native': seq<Placeholder>)
    requires Fits(n, slots, form) && Heads(n, pos, i, pdo, native, isNative, p, pdo', native')
    requires forall k :: 0 <= k < |pdo| ==> Owned(n, pdo[k], false)
    ensures Owned(n, p, isNative)
    ensures Woven(n, slots, form, [i] + rest, pos, pdo, native)
         == TextOr(Replacement(n, slots, form, p, isNative), i.text)
            + Woven(n, slots, form, rest, pos + |i.text|, pdo', native')
  {
    assert ([i] + rest)[1..] == rest;
  }

  // The first edit, both for the merge and for the woven text.
  lemma HeadEdit(n: Numbers, slots: map<nat, nat>, form: Form, sql: Bytes, pos: nat, i: Item, rest: seq<Item>,
                 pdo: seq<Placeholder>, native: seq<Placeholder>, isNative: bool,
                 p: Placeholder, pdo': seq<Placeholder>, native': seq<Placeholder>, edits: seq<Edit>, woven: Bytes)
      returns (edit: Edit)
    requires Fits(n, slots, form) && Within(n, pdo, false, |sql|) && Within(n, native, true, |sql|)
    requires Heads(n, pos, i, pdo, native, isNative, p, pdo', native')
    requires pos + |i.text| <= |sql| && sql[pos..pos + |i.text|] == i.text
    requires Within(n, pdo', false, |sql|) && Within(n, native', true, |sql|)
    requires edits == EditsFor(n, slots, form, sql, pdo', native')
    requires woven == Woven(n, slots, form, rest, pos + |i.text|, pdo', native')
    ensures edit.offset == pos && edit.end == pos + |i.text|
    ensures EditsFor(n, slots, form, sql, pdo, native) == [edit] + edits
    ensures Woven(n, slots, form, [i] + rest, pos, pdo, native) == edit.text + woven
  {
    EditsFirst(n, slots, form, sql, pdo, native, isNative, p);
    WovenFirst(n, slots, form, pos, i, rest, pdo, native, isNative, p, pdo', native');
    edit := EditFor(n, slots, form, sql, p, isNative);
  }

  lemma WeaveEdit(n: Numbers, slots: map<nat, nat>, form: Form, sql: Bytes, copied: nat, pos: nat, i: Item, rest: seq<Item>,
                  pdo: seq<Placeholder>, native: seq<Placeholder>, isNative: bool,
                  p: Placeholder, pdo': seq<Placeholder>, native': seq<Placeholder>)
    requires Fits(n, slots, form) && Within(n, pdo, false, |sql|) && Within(n, native, true, |sql|)
    requires Heads(n, pos, i, pdo, native, isNative, p, pdo', native')
    requires copied <= pos && pos + |i.text| <= |sql| && sql[pos..pos + |i.text|] == i.text
    requires Within(n, pdo', false, |sql|) && Within(n, native', true, |sql|)
    requires Weaves(n, slots, form, sql, pos + |i.text|, pos + |i.text|, rest, pdo', native')
    ensures Weaves(n, slots, form, sql, copied, pos, [i] + rest, pdo, native)
  {
    var edits, woven := EditsFor(n, slots, form, sql, pdo', native'), Woven(n, slots, form, rest, pos + |i.text|, pdo', native');
    var edit := HeadEdit(n, slots, form, sql, pos, i, rest, pdo, native, isNative, p, pdo', native', edits, woven);
    SpliceCons(sql, copied, edit, edits, woven, EditsFor(n, slots, form, sql, pdo, native),
               Woven(n, slots, form, [i] + rest, pos, pdo, native));
  }

  lemma WeaveKept(n: Numbers, slots: map<nat, nat>, form: Form, sql: Bytes, copied: nat, pos: nat, i: Item,
                  rest: seq<Item>, pdo: seq<Placeholder>, native: seq<Placeholder>)
    requires Fits(n, slots, form) && Within(n, pdo, false, |sql|) && Within(n, native, true, |sql|)
    requires !PdoKind(i.kind) && !(i.kind.Native? && native != [] && native[0].offset == pos) && copied <= pos
    requires Weaves(n, slots, form, sql, copied, pos + |i.text|, rest, pdo, native)
    requires sql[pos..pos + |i.text|] == i.text
    ensures Weaves(n, slots, form, sql, copied, pos, [i] + rest, pdo, native)
  {
    assert ([i] + rest)[1..] == rest;
    assert sql[copied..pos + |i.text|] == sql[copied..pos] + i.text;
  }

  lemma ConcatFirst(sql: Bytes, pos: nat, i: Item, rest: seq<Item>)
    requires pos <= |sql| && sql[pos..] == Concat([i] + rest)
    ensures pos + |i.text| <= |sql| && sql[pos..pos + |i.text|] == i.text && sql[pos + |i.text|..] == Concat(rest)
  {
    assert ([i] + rest)[1..] == rest;
    assert sql[pos..] == i.text + Concat(rest);
    assert sql[pos..pos + |i.text|] == sql[pos..][..|i.text|];
    assert sql[pos + |i.text|..] == sql[pos..][|i.text|..];
  }

  // Nothing of the statement is lost, doubled or moved by the merge.
  lemma {:induction false} MergeWeaves(n: Numbers, slots: map<nat, nat>, form: Form, sql: Bytes, copied: nat, pos: nat,
                                       items: seq<Item>, pdo: seq<Placeholder>, native: seq<Placeholder>)
    requires Fits(n, slots, form) && Within(n, pdo, false, |sql|) && Within(n, native, true, |sql|)
    requires copied <= pos <= |sql| && sql[pos..] == Concat(items) && Aligned(items, pos, pdo, native)
    ensures Weaves(n, slots, form, sql, copied, pos, items, pdo, native)
    decreases |items|
  {
    if items == [] {
      assert pos == |sql|;
    } else {
      var i, rest, next := items[0], items[1..], pos + |items[0].text|;
      assert items == [i] + rest;
      ConcatFirst(sql, pos, i, rest);
      if PdoKind(i.kind) {
        AlignedAhead(rest, next, pdo[1..], native);
        MergeWeaves(n, slots, form, sql, next, next, rest, pdo[1..], native);
        WeaveEdit(n, slots, form, sql, copied, pos, i, rest, pdo, native, false, pdo[0], pdo[1..], native);
      } else if i.kind.Native? && native != [] && native[0].offset == pos {
        AlignedAhead(rest, next, pdo, native[1..]);
        MergeWeaves(n, slots, form, sql, next, next, rest, pdo, native[1..]);
        WeaveEdit(n, slots, form, sql, copied, pos, i, rest, pdo, native, true, native[0], pdo, native[1..]);
      } else {
        MergeWeaves(n, slots, form, sql, copied, next, rest, pdo, native);
        WeaveKept(n, slots, form, sql, copied, pos, i, rest, pdo, native);
      }
    }
  }
}
