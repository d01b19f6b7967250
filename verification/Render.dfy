// Writing a statement out again: pdo_duckdb_sql_render merges the two
// placeholder lists by offset and copies the text between them.
module Render {
  import opened Options
  import opened Text
  import opened Digits
  import opened SqlLexer
  import opened Numbering
  import opened Plan

  // ---- Quoting a value ----

  function HexDigit(v: nat): byte
    requires v < 16
  {
    if v < 10 then 48 + v else 87 + v
  }

  function HexOf(data: Bytes): Bytes
  {
    if data == [] then [] else [HexDigit(data[0] / 16), HexDigit(data[0] % 16)] + HexOf(data[1..])
  }

  function Doubled(data: Bytes): Bytes
  {
    if data == [] then []
    else (if data[0] == QUOTE then [QUOTE, QUOTE] else [data[0]]) + Doubled(data[1..])
  }

  const FROM_HEX: Bytes := [115, 121, 115, 116, 101, 109, 46, 109, 97, 105, 110, 46,
                            102, 114, 111, 109, 95, 104, 101, 120, 40]  // system.main.from_hex(
  const DECODE: Bytes := [115, 121, 115, 116, 101, 109, 46, 109, 97, 105, 110, 46,
                          100, 101, 99, 111, 100, 101, 40]              // system.main.decode(

  function Literal(body: Bytes): Bytes { [QUOTE] + body + [QUOTE] }

  function QuotedBytes(data: Bytes, blob: bool): Bytes
  {
    if blob then FROM_HEX + Literal(HexOf(data)) + [41]
    else if 0 in data then DECODE + FROM_HEX + Literal(HexOf(data)) + [41, 41]
    else Literal(Doubled(data))
  }

  method AppendHex(data: Bytes) returns (out: Bytes)
    ensures out == HexOf(data)
  {
    out := [];
    var i := 0;
    while i < |data|
      invariant 0 <= i <= |data|
      invariant out + HexOf(data[i..]) == HexOf(data)
    {
      out := out + [HexDigit(data[i] / 16)];
      out := out + [HexDigit(data[i] % 16)];
      i := i + 1;
    }
  }

  method AppendBytes(output: Bytes, data: Bytes, blob: bool) returns (out: Bytes)
    ensures out == output + QuotedBytes(data, blob)
  {
    if blob || 0 in data {
      var hex := AppendHex(data);
      out := output + (if blob then FROM_HEX else DECODE + FROM_HEX) + [QUOTE];
      out := out + hex + (if blob then [QUOTE, 41] else [QUOTE, 41, 41]);
      assert blob ==> out == output + QuotedBytes(data, blob);
    } else {
      var body := [];
      var i := 0;
      while i < |data|
        invariant 0 <= i <= |data|
        invariant body + Doubled(data[i..]) == Doubled(data)
      {
        if data[i] == QUOTE {
          body := body + [QUOTE];
        }
        body := body + [data[i]];
        i := i + 1;
      }
      out := output + [QUOTE] + body + [QUOTE];
    }
  }

  // ---- What stands in place of a placeholder ----

  datatype Form = NativeForm | ProbeForm | ExpandedForm(values: seq<Binding>)

  const EMPTY_LITERAL: Bytes := [QUOTE, QUOTE]

  function BindingSlot(slots: map<nat, nat>, position: nat): Option<nat>
  {
    if position >= |slots| then None else if position in slots then Some(slots[position]) else None
  }

  function BoundText(b: Binding): Bytes
    requires b.value.Some?
  {
    if b.quote then QuotedBytes(b.value.value, b.blob) else b.value.value
  }

  // Every slot a plan can name has a value, and every PDO parameter's is set.
  ghost predicate Fits(n: Numbers, slots: map<nat, nat>, form: Form)
  {
    && (forall p :: p in slots ==> slots[p] < |slots|)
    && n.parameterCount <= |slots|
    && (forall i :: 0 <= i < |n.placeholders| ==> n.placeholders[i].index < n.parameterCount)
    && (form.ExpandedForm? ==>
          && |form.values| == |slots|
          && forall i :: 0 <= i < n.parameterCount ==> form.values[i].value.Some?)
  }

  ghost predicate Owned(n: Numbers, p: Placeholder, native: bool) { !native ==> p.index < n.parameterCount }

  // The text for a placeholder; None leaves it as it is.
  function Replacement(n: Numbers, slots: map<nat, nat>, form: Form, p: Placeholder, native: bool): Option<Bytes>
    requires Fits(n, slots, form) && Owned(n, p, native)
  {
    var slot :=
      if !native then Some(p.index)
      else if n.parameterCount > 0 && !p.numeric then None
      else BindingSlot(slots, p.index);
    match form
    case ExpandedForm(values) =>
      if native && (slot.None? || values[slot.value].value.None?) then None
      else Some([SPACE] + BoundText(values[slot.value]) + [SPACE])
    case ProbeForm => if native then None else Some([SPACE] + EMPTY_LITERAL + [SPACE])
    case NativeForm => if native then None else Some([DOLLAR] + DigitsOf(p.index + 1))
  }

  function TextOr(r: Option<Bytes>, text: Bytes): Bytes { if r.Some? then r.value else text }

  // ---- The merge ----

  // A stretch of the statement and the text that is written for it.
  datatype Edit = Edit(offset: nat, end: nat, text: Bytes)

  ghost predicate Within(n: Numbers, list: seq<Placeholder>, native: bool, length: nat)
  {
    forall i :: 0 <= i < |list| ==> Owned(n, list[i], native) && list[i].offset + list[i].length <= length
  }

  function EditFor(n: Numbers, slots: map<nat, nat>, form: Form, sql: Bytes, p: Placeholder, native: bool): Edit
    requires Fits(n, slots, form) && Owned(n, p, native) && p.offset + p.length <= |sql|
  {
    var end := p.offset + p.length;
    Edit(p.offset, end, TextOr(Replacement(n, slots, form, p, native), sql[p.offset..end]))
  }

  predicate NativeFirst(pdo: seq<Placeholder>, native: seq<Placeholder>)
    requires pdo != [] || native != []
  {
    native != [] && (pdo == [] || native[0].offset < pdo[0].offset)
  }

  function EditsFor(n: Numbers, slots: map<nat, nat>, form: Form, sql: Bytes,
                    pdo: seq<Placeholder>, native: seq<Placeholder>): seq<Edit>
    requires Fits(n, slots, form) && Within(n, pdo, false, |sql|) && Within(n, native, true, |sql|)
    decreases |pdo| + |native|
  {
    if pdo == [] && native == [] then []
    else if NativeFirst(pdo, native) then
      [EditFor(n, slots, form, sql, native[0], true)] + EditsFor(n, slots, form, sql, pdo, native[1..])
    else
      [EditFor(n, slots, form, sql, pdo[0], false)] + EditsFor(n, slots, form, sql, pdo[1..], native)
  }

  // The edits are disjoint and in order, from the position copied on.
  ghost predicate InOrder(edits: seq<Edit>, copied: nat, length: nat)
    decreases |edits|
  {
    if edits == [] then copied <= length
    else copied <= edits[0].offset <= edits[0].end <= length && InOrder(edits[1..], edits[0].end, length)
  }

  // sql from copied on, with the edits made.
  ghost function Splice(sql: Bytes, copied: nat, edits: seq<Edit>): Bytes
    requires InOrder(edits, copied, |sql|)
    decreases |edits|
  {
    if edits == [] then sql[copied..]
    else sql[copied..edits[0].offset] + edits[0].text + Splice(sql, edits[0].end, edits[1..])
  }

  // The blanks keep a negative number or a quoted value apart from its neighbours.
  method AppendBound(output: Bytes, b: Binding) returns (out: Bytes)
    requires b.value.Some?
    ensures out == output + ([SPACE] + BoundText(b) + [SPACE])
  {
    out := output + [SPACE];
    if b.quote {
      out := AppendBytes(out, b.value.value, b.blob);
    } else {
      out := out + b.value.value;
    }
    out := out + [SPACE];
  }

  // The text for one placeholder, appended.
  method RenderOne(n: Numbers, slots: map<nat, nat>, form: Form, p: Placeholder, native: bool, raw: Bytes, output: Bytes)
      returns (out: Bytes)
    requires Fits(n, slots, form) && Owned(n, p, native) && (native ==> form.ExpandedForm?)
    ensures out == output + TextOr(Replacement(n, slots, form, p, native), raw)
  {
    var slot := Some(p.index);
    if native {
      slot := if n.parameterCount > 0 && !p.numeric then None else BindingSlot(slots, p.index);
    }
    match form {
      case ExpandedForm(values) =>
        if native && (slot.None? || values[slot.value].value.None?) {
          return output + raw;
        }
        out := AppendBound(output, values[slot.value]);
      case ProbeForm =>
        out := output + ([SPACE] + EMPTY_LITERAL + [SPACE]);
      case NativeForm =>
        out := output + [DOLLAR];
        out := out + DigitsOf(p.index + 1);
        assert out == output + ([DOLLAR] + DigitsOf(p.index + 1));
    }
  }

  // The native list takes part only where values are written.
  function NativesFor(n: Numbers, form: Form): seq<Placeholder> { if form.ExpandedForm? then n.natives else [] }

  lemma EditsFirst(n: Numbers, slots: map<nat, nat>, form: Form, sql: Bytes, pdo: seq<Placeholder>,
                   native: seq<Placeholder>, isNative: bool, p: Placeholder)
    requires Fits(n, slots, form) && Within(n, pdo, false, |sql|) && Within(n, native, true, |sql|)
    requires (pdo != [] || native != []) && isNative == NativeFirst(pdo, native)
    requires p == if isNative then native[0] else pdo[0]
    ensures Owned(n, p, isNative) && p.offset + p.length <= |sql|
    ensures EditsFor(n, slots, form, sql, pdo, native)
         == [EditFor(n, slots, form, sql, p, isNative)]
            + EditsFor(n, slots, form, sql, if isNative then pdo else pdo[1..], if isNative then native[1..] else native)
  {
  }

  lemma SpliceFirst(sql: Bytes, copied: nat, edits: seq<Edit>, output: Bytes)
    requires edits != [] && InOrder(edits, copied, |sql|)
    ensures output + Splice(sql, copied, edits)
         == output + sql[copied..edits[0].offset] + edits[0].text + Splice(sql, edits[0].end, edits[1..])
  {
  }

  // output is what has been written once the lists are down to pdo and native.
  ghost predicate Writing(n: Numbers, slots: map<nat, nat>, form: Form, sql: Bytes, copied: nat,
                          pdo: seq<Placeholder>, native: seq<Placeholder>, output: Bytes, goal: Bytes)
  {
    && Fits(n, slots, form) && Within(n, pdo, false, |sql|) && Within(n, native, true, |sql|)
    && var edits := EditsFor(n, slots, form, sql, pdo, native);
       InOrder(edits, copied, |sql|) && output + Splice(sql, copied, edits) == goal
  }

  // The placeholder the merge takes next, and which list it is from.
  ghost predicate Next(pdo: seq<Placeholder>, native: seq<Placeholder>, isNative: bool, p: Placeholder)
  {
    (pdo != [] || native != []) && isNative == NativeFirst(pdo, native) && p == if isNative then native[0] else pdo[0]
  }

  lemma WritingOwns(n: Numbers, slots: map<nat, nat>, form: Form, sql: Bytes, copied: nat, pdo: seq<Placeholder>,
                    native: seq<Placeholder>, output: Bytes, goal: Bytes, isNative: bool, p: Placeholder)
    requires Writing(n, slots, form, sql, copied, pdo, native, output, goal) && Next(pdo, native, isNative, p)
    ensures Fits(n, slots, form) && Owned(n, p, isNative) && copied <= p.offset && p.offset + p.length <= |sql|
  {
    EditsFirst(n, slots, form, sql, pdo, native, isNative, p);
  }

  lemma WritingStep(n: Numbers, slots: map<nat, nat>, form: Form, sql: Bytes, copied: nat, pdo: seq<Placeholder>,
                    native: seq<Placeholder>, output: Bytes, goal: Bytes, isNative: bool, p: Placeholder, out: Bytes)
    requires Writing(n, slots, form, sql, copied, pdo, native, output, goal) && Next(pdo, native, isNative, p)
    requires Fits(n, slots, form) && Owned(n, p, isNative) && copied <= p.offset && p.offset + p.length <= |sql|
    requires out == output + sql[copied..p.offset] + EditFor(n, slots, form, sql, p, isNative).text
    ensures Writing(n, slots, form, sql, p.offset + p.length, if isNative then pdo else pdo[1..],
                    if isNative then native[1..] else native, out, goal)
  {
    EditsFirst(n, slots, form, sql, pdo, native, isNative, p);
    SpliceFirst(sql, copied, EditsFor(n, slots, form, sql, pdo, native), output);
  }

  // The plan's placeholders can be merged: their edits are disjoint and in order.
  ghost predicate Mergeable(n: Numbers, slots: map<nat, nat>, form: Form, sql: Bytes)
  {
    && Fits(n, slots, form) && Within(n, n.placeholders, false, |sql|) && Within(n, NativesFor(n, form), true, |sql|)
    && InOrder(EditsFor(n, slots, form, sql, n.placeholders, NativesFor(n, form)), 0, |sql|)
  }

  // sql with every placeholder's text in place.
  ghost function Rendered(n: Numbers, slots: map<nat, nat>, form: Form, sql: Bytes): Bytes
    requires Mergeable(n, slots, form, sql)
  {
    Splice(sql, 0, EditsFor(n, slots, form, sql, n.placeholders, NativesFor(n, form)))
  }

  lemma WritingStart(n: Numbers, slots: map<nat, nat>, form: Form, sql: Bytes)
    requires Mergeable(n, slots, form, sql)
    ensures Writing(n, slots, form, sql, 0, n.placeholders, NativesFor(n, form), [], Rendered(n, slots, form, sql))
  {
  }

  lemma WritingEnd(n: Numbers, slots: map<nat, nat>, form: Form, sql: Bytes, copied: nat, output: Bytes, goal: Bytes)
    requires Writing(n, slots, form, sql, copied, [], [], output, goal)
    ensures copied <= |sql| && output + sql[copied..] == goal
  {
  }

  // Copies up to the next placeholder and writes its text.
  method RenderNext(n: Numbers, slots: map<nat, nat>, form: Form, sql: Bytes, copied: nat, ghost pdo: seq<Placeholder>,
                    ghost native: seq<Placeholder>, output: Bytes, ghost goal: Bytes, isNative: bool, p: Placeholder,
                    ghost pdoLeft: seq<Placeholder>, ghost nativeLeft: seq<Placeholder>)
      returns (out: Bytes)
    requires Writing(n, slots, form, sql, copied, pdo, native, output, goal) && Next(pdo, native, isNative, p)
    requires pdoLeft == (if isNative then pdo else pdo[1..]) && nativeLeft == (if isNative then native[1..] else native)
    requires isNative ==> form.ExpandedForm?
    ensures Writing(n, slots, form, sql, p.offset + p.length, pdoLeft, nativeLeft, out, goal)
  {
    WritingOwns(n, slots, form, sql, copied, pdo, native, output, goal, isNative, p);
    out := output + sql[copied..p.offset];
    out := RenderOne(n, slots, form, p, isNative, sql[p.offset..p.offset + p.length], out);
    WritingStep(n, slots, form, sql, copied, pdo, native, output, goal, isNative, p, out);
  }

  // One turn of the merge, from the i-th placeholder and the j-th native one.
  method RenderTurn(n: Numbers, slots: map<nat, nat>, form: Form, sql: Bytes, copied: nat, i: nat, j: nat,
                    natives: seq<Placeholder>, output: Bytes, ghost goal: Bytes)
      returns (out: Bytes, next: nat, i': nat, j': nat)
    requires natives == NativesFor(n, form)
    requires i <= |n.placeholders| && j <= |natives| && (i < |n.placeholders| || j < |natives|)
    requires Writing(n, slots, form, sql, copied, n.placeholders[i..], natives[j..], output, goal)
    ensures i <= i' <= |n.placeholders| && j <= j' <= |natives| && i' + j' == i + j + 1
    ensures Writing(n, slots, form, sql, next, n.placeholders[i'..], natives[j'..], out, goal)
  {
    var isNative := j < |natives| && (i == |n.placeholders| || natives[j].offset < n.placeholders[i].offset);
    var p := if isNative then natives[j] else n.placeholders[i];
    i', j' := if isNative then i else i + 1, if isNative then j + 1 else j;
    out := RenderNext(n, slots, form, sql, copied, n.placeholders[i..], natives[j..], output, goal, isNative, p,
                      n.placeholders[i'..], natives[j'..]);
    next := p.offset + p.length;
  }

  // pdo_duckdb_sql_render
  method RenderSql(n: Numbers, slots: map<nat, nat>, form: Form, sql: Bytes) returns (output: Bytes)
    requires Mergeable(n, slots, form, sql)
    ensures output == Rendered(n, slots, form, sql)
  {
    output := [];
    var copied: nat, i: nat, j: nat := 0, 0, 0;
    var natives := NativesFor(n, form);
    ghost var goal := Rendered(n, slots, form, sql);
    WritingStart(n, slots, form, sql);
    assert n.placeholders[0..] == n.placeholders && natives[0..] == natives;
    while i < |n.placeholders| || j < |natives|
      invariant i <= |n.placeholders| && j <= |natives|
      invariant Writing(n, slots, form, sql, copied, n.placeholders[i..], natives[j..], output, goal)
      decreases |n.placeholders| - i + |natives| - j
    {
      output, copied, i, j := RenderTurn(n, slots, form, sql, copied, i, j, natives, output, goal);
    }
    assert n.placeholders[i..] == [] && natives[j..] == [];
    WritingEnd(n, slots, form, sql, copied, output, goal);
    output := output + sql[copied..];
  }
}
