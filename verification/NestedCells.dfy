// Rendering straight from the columnar vectors of a chunk.
module NestedCells {
  import opened Text
  import opened Decimals
  import opened NestedText
  import opened Wide
  import NestedRoundTrip

  // A list in row r spans length rows of the child from offset on.
  datatype Range = Range(offset: nat, length: nat)

  // A vector without a mask has no NULLs. size is the row count a list vector
  // reports for its child.
  datatype Vector = Vector(masked: bool, mask: seq<bool>, data: Data)

  datatype Data =
    | Texts(texts: seq<Bytes>)
    | Numbers(numbers: seq<int>)
    | Truths(truths: seq<bool>)
    | Lists(ranges: seq<Range>, size: nat, child: Vector)
    | Arrays(items: Vector)
    | Structs(columns: Columns)
    | Maps(ranges: seq<Range>, size: nat, keys: Vector, values: Vector)

  datatype Columns = NoColumn | Columns(head: Vector, tail: Columns)

  predicate FitsWidth(w: Width, n: int)
  {
    match w
    case Signed64 => -0x8000_0000_0000_0000 <= n < 0x8000_0000_0000_0000
    case Unsigned64 => 0 <= n < TWO64
    case Signed128 => -0x8000_0000_0000_0000 * TWO64 <= n < 0x8000_0000_0000_0000 * TWO64
    case Unsigned128 => 0 <= n < TWO64 * TWO64
  }

  // DECIMALs are stored in 128 bits at most.
  predicate Stored(t: Type, n: int)
  {
    FitsWidth(if t.Integer? then t.store else Signed128, n)
  }

  // vec has rows values of type t.
  predicate Holds(vec: Vector, t: Type, rows: nat)
    decreases t
  {
    && (vec.masked ==> |vec.mask| >= rows)
    && match t
       case Varchar => vec.data.Texts? && |vec.data.texts| >= rows
       case Integer(_) =>
         vec.data.Numbers? && |vec.data.numbers| >= rows && forall i :: 0 <= i < rows ==> Stored(t, vec.data.numbers[i])
       case Decimal(_, _) =>
         vec.data.Numbers? && |vec.data.numbers| >= rows && forall i :: 0 <= i < rows ==> Stored(t, vec.data.numbers[i])
       case Boolean => vec.data.Truths? && |vec.data.truths| >= rows
       case ListOf(item) =>
         vec.data.Lists? && |vec.data.ranges| >= rows && Holds(vec.data.child, item, vec.data.size)
       case ArrayOf(size, item) => vec.data.Arrays? && Holds(vec.data.items, item, rows * size)
       case StructOf(fields) => vec.data.Structs? && HoldColumns(vec.data.columns, fields, rows)
       case MapOf(key, value) =>
         && vec.data.Maps? && |vec.data.ranges| >= rows
         && Holds(vec.data.keys, key, vec.data.size) && Holds(vec.data.values, value, vec.data.size)
  }

  predicate HoldColumns(cs: Columns, fs: Fields, rows: nat)
    decreases fs
  {
    match fs
    case NoField => cs.NoColumn?
    case Field(_, kind, rest) => cs.Columns? && Holds(cs.head, kind, rows) && HoldColumns(cs.tail, rest, rows)
  }

  const IDX_MAX: nat := TWO64 - 1

  // A cell, or Broken where a list does not fit its child, or an array's place its index type.
  datatype Cell<T> = Cell(value: T) | Broken

  function InRange(r: Range, size: nat): bool { r.offset <= size && r.length <= size - r.offset }

  predicate RowValid(vec: Vector, row: nat)
    requires vec.masked ==> row < |vec.mask|
  {
    vec.masked ==> vec.mask[row]
  }

  function CellAt(vec: Vector, row: nat, t: Type, rows: nat): Cell<Value>
    requires Holds(vec, t, rows) && row < rows
    decreases t, 1, 0
  {
    if !RowValid(vec, row) then Cell(Null)
    else
      match t
      case Varchar => Cell(Characters(vec.data.texts[row]))
      case Integer(_) => Cell(Number(vec.data.numbers[row]))
      case Decimal(_, _) => Cell(Number(vec.data.numbers[row]))
      case Boolean => Cell(Truth(vec.data.truths[row]))
      case ListOf(item) =>
        var r := vec.data.ranges[row];
        if !InRange(r, vec.data.size) then Broken
        else Listed(CellsAt(vec.data.child, r.offset, r.length, item, vec.data.size))
      case ArrayOf(size, item) =>
        Spans(row, rows, size);
        if size > 0 && row > IDX_MAX / size then Broken
        else Listed(CellsAt(vec.data.items, row * size, size, item, rows * size))
      case StructOf(fields) => Listed(FieldsAt(vec.data.columns, row, fields, rows))
      case MapOf(key, value) =>
        var r := vec.data.ranges[row];
        if !InRange(r, vec.data.size) then Broken
        else
          var ps := PairsAt(t, vec.data.keys, vec.data.values, r.offset, r.length, vec.data.size);
          if ps.Broken? then Broken else Cell(Entries(ps.value))
  }

  lemma Spans(row: nat, rows: nat, size: nat)
    requires row < rows
    ensures row * size + size <= rows * size
  {
    Below(row, rows, size);
  }

  function Listed(c: Cell<Values>): Cell<Value>
  {
    if c.Broken? then Broken else Cell(Items(c.value))
  }

  function Consed(head: Cell<Value>, tail: Cell<Values>): Cell<Values>
  {
    if head.Broken? || tail.Broken? then Broken else Cell(Values(head.value, tail.value))
  }

  function CellsAt(vec: Vector, from: nat, count: nat, t: Type, rows: nat): Cell<Values>
    requires Holds(vec, t, rows) && from + count <= rows
    decreases t, 2, count
  {
    if count == 0 then Cell(NoValue)
    else Consed(CellAt(vec, from, t, rows), CellsAt(vec, from + 1, count - 1, t, rows))
  }

  function FieldsAt(cs: Columns, row: nat, fs: Fields, rows: nat): Cell<Values>
    requires HoldColumns(cs, fs, rows) && row < rows
    decreases fs, 2, 0
  {
    match fs
    case NoField => Cell(NoValue)
    case Field(_, kind, rest) => Consed(CellAt(cs.head, row, kind, rows), FieldsAt(cs.tail, row, rest, rows))
  }

  function PairsAt(t: Type, keys: Vector, values: Vector, from: nat, count: nat, rows: nat): Cell<Pairs>
    requires t.MapOf? && Holds(keys, t.key, rows) && Holds(values, t.value, rows) && from + count <= rows
    decreases t, 0, count
  {
    if count == 0 then Cell(NoPair)
    else
      var k := CellAt(keys, from, t.key, rows);
      var v := CellAt(values, from, t.value, rows);
      var rest := PairsAt(t, keys, values, from + 1, count - 1, rows);
      if k.Broken? || v.Broken? || rest.Broken? then Broken else Cell(Pair(k.value, v.value, rest.value))
  }

  // A cell that is not broken holds a value of its type.
  lemma {:induction false} CellTyped(vec: Vector, row: nat, t: Type, rows: nat)
    requires Holds(vec, t, rows) && row < rows && CellAt(vec, row, t, rows).Cell?
    ensures Typed(CellAt(vec, row, t, rows).value, t)
    decreases t, 1, 0
  {
    if RowValid(vec, row) {
      match t
      case ListOf(item) =>
        CellsTyped(vec.data.child, vec.data.ranges[row].offset, vec.data.ranges[row].length, item, vec.data.size);
      case ArrayOf(size, item) =>
        Spans(row, rows, size);
        CellsTyped(vec.data.items, row * size, size, item, rows * size);
      case StructOf(fields) => FieldsAtTyped(vec.data.columns, row, fields, rows);
      case MapOf(key, value) =>
        PairsAtTyped(t, vec.data.keys, vec.data.values, vec.data.ranges[row].offset, vec.data.ranges[row].length, vec.data.size);
      case _ =>
    }
  }

  lemma {:induction false} CellsTyped(vec: Vector, from: nat, count: nat, t: Type, rows: nat)
    requires Holds(vec, t, rows) && from + count <= rows && CellsAt(vec, from, count, t, rows).Cell?
    ensures AllTyped(CellsAt(vec, from, count, t, rows).value, t)
    ensures Count(CellsAt(vec, from, count, t, rows).value) == count
    decreases t, 2, count
  {
    if count > 0 {
      CellTyped(vec, from, t, rows);
      CellsTyped(vec, from + 1, count - 1, t, rows);
    }
  }

  lemma {:induction false} FieldsAtTyped(cs: Columns, row: nat, fs: Fields, rows: nat)
    requires HoldColumns(cs, fs, rows) && row < rows && FieldsAt(cs, row, fs, rows).Cell?
    ensures FieldsTyped(FieldsAt(cs, row, fs, rows).value, fs)
    decreases fs, 2, 0
  {
    if fs.Field? {
      CellTyped(cs.head, row, fs.kind, rows);
      FieldsAtTyped(cs.tail, row, fs.rest, rows);
    }
  }

  lemma {:induction false} PairsAtTyped(t: Type, keys: Vector, values: Vector, from: nat, count: nat, rows: nat)
    requires t.MapOf? && Holds(keys, t.key, rows) && Holds(values, t.value, rows) && from + count <= rows
    requires PairsAt(t, keys, values, from, count, rows).Cell?
    ensures PairsTyped(PairsAt(t, keys, values, from, count, rows).value, t.key, t.value)
    decreases t, 0, count
  {
    if count > 0 {
      CellTyped(keys, from, t.key, rows);
      CellTyped(values, from, t.value, rows);
      PairsAtTyped(t, keys, values, from + 1, count - 1, rows);
    }
  }

  // ---- The renderer ----

  class Output {
    var text: Bytes

    constructor ()
      ensures text == []
    {
      text := [];
    }

    method Append(s: Bytes)
      modifies this
      ensures text == old(text) + s
    {
      text := text + s;
    }

    method AppendEscaped(s: Bytes)
      modifies this
      ensures text == old(text) + Quoted(s)
    {
      if s == [] {
        Append([QUOTE, QUOTE]);
        return;
      }
      var quotes := NeedsQuotes(s);
      if !quotes {
        Append(s);
        return;
      }
      ghost var before := text;
      Append([QUOTE]);
      for i := 0 to |s|
        invariant text + Escaped(s[i..]) == before + [QUOTE] + Escaped(s)
      {
        ghost var written := text;
        assert s[i..][1..] == s[i + 1..];
        var c: Bytes := if Escapes(s[i]) then [BACKSLASH, s[i]] else [s[i]];
        Together(written, c, Escaped(s[i + 1..]));
        Append(c);
      }
      assert s[|s|..] == [] && text == before + [QUOTE] + Escaped(s);
      Append([QUOTE]);
      assert before + [QUOTE] + Escaped(s) + [QUOTE] == before + ([QUOTE] + Escaped(s) + [QUOTE]);
    }

    method AppendSigned(n: int)
      requires -0x8000_0000_0000_0000 <= n < 0x8000_0000_0000_0000
      modifies this
      ensures text == old(text) + Signed(n)
    {
      var magnitude := AbsoluteI64(n);
      var digits := FormatU64(magnitude);
      Append((if n < 0 then [45] else []) + digits);
    }

    method AppendInteger(n: int, width: Width)
      requires FitsWidth(width, n)
      modifies this
      ensures text == old(text) + Signed(n)
    {
      match width
      case Signed64 =>
        AppendSigned(n);
      case Unsigned64 =>
        var digits := FormatU64(n);
        Append(digits);
      case Signed128 =>
        var s := HugeintToString(Hugeint(n / TWO64, n % TWO64), true);
        Append(s);
      case Unsigned128 =>
        var digits := FormatU128(n / TWO64, n % TWO64, true);
        Append(digits);
    }

    method AppendDecimal(n: int, width: nat, scale: nat)
      requires -0x8000_0000_0000_0000 * TWO64 <= n < 0x8000_0000_0000_0000 * TWO64 && MetaOk(width, scale)
      modifies this
      ensures text == old(text) + Rendered(n, width, scale)
    {
      var s := DecimalToString(Hugeint(n / TWO64, n % TWO64), width, scale, true);
      Append(s);
    }
  }

  lemma Together(a: Bytes, b: Bytes, c: Bytes)
    ensures a + (b + c) == (a + b) + c
  {
  }

  lemma ThreeTogether(s: Bytes, a: Bytes, b: Bytes, c: Bytes)
    ensures s + (a + (b + c)) == (s + a + b) + c
  {
  }

  lemma FourTogether(s: Bytes, a: Bytes, b: Bytes, c: Bytes, d: Bytes)
    ensures s + (a + (b + (c + d))) == (s + a + b + c) + d
  {
    ThreeTogether(s, a, b, c + d);
    Together(s + a + b, c, d);
  }

  lemma FiveTogether(s: Bytes, a: Bytes, b: Bytes, c: Bytes, d: Bytes, e: Bytes)
    ensures s + (a + (b + (c + (d + e)))) == (s + a + b + c + d) + e
  {
    FourTogether(s, a, b, c, d + e);
    Together(s + a + b + c, d, e);
  }

  // Where a loop over values stands: what is written and the values to come make
  // up the text of all of them.
  ghost predicate Underway(start: Bytes, text: Bytes, whole: Cell<Values>, left: Cell<Values>, item: Type, first: bool)
  {
    && (whole.Cell? <==> left.Cell?)
    && (left.Cell? ==> text + RenderItems(left.value, item, first) == start + RenderItems(whole.value, item, true))
  }

  lemma ItemWritten(start: Bytes, text: Bytes, whole: Cell<Values>, left: Cell<Values>, item: Type, first: bool,
                    head: Cell<Value>, rest: Cell<Values>, written: Bytes)
    requires Underway(start, text, whole, left, item, first) && left == Consed(head, rest) && head.Cell?
    requires written == text + Comma(first) + Render(head.value, item)
    ensures Underway(start, written, whole, rest, item, false)
  {
    if rest.Cell? {
      ThreeTogether(text, Comma(first), Render(head.value, item), RenderItems(rest.value, item, false));
    }
  }

  ghost predicate FieldsUnderway(start: Bytes, text: Bytes, whole: Cell<Values>, fields: Fields,
                                 left: Cell<Values>, fs: Fields, first: bool)
  {
    && (whole.Cell? <==> left.Cell?)
    && (left.Cell? ==> text + RenderFields(left.value, fs, first) == start + RenderFields(whole.value, fields, true))
  }

  lemma FieldWritten(start: Bytes, text: Bytes, whole: Cell<Values>, fields: Fields, left: Cell<Values>, fs: Fields,
                     first: bool, head: Cell<Value>, rest: Cell<Values>, written: Bytes)
    requires FieldsUnderway(start, text, whole, fields, left, fs, first)
    requires fs.Field? && left == Consed(head, rest) && head.Cell?
    requires written == text + Comma(first) + NameText(fs.name) + Render(head.value, fs.kind)
    ensures FieldsUnderway(start, written, whole, fields, rest, fs.rest, false)
  {
    if rest.Cell? {
      FourTogether(text, Comma(first), NameText(fs.name), Render(head.value, fs.kind), RenderFields(rest.value, fs.rest, false));
    }
  }

  ghost predicate PairsUnderway(start: Bytes, text: Bytes, whole: Cell<Pairs>, left: Cell<Pairs>, key: Type, value: Type,
                                first: bool)
  {
    && (whole.Cell? <==> left.Cell?)
    && (left.Cell? ==> text + RenderPairs(left.value, key, value, first) == start + RenderPairs(whole.value, key, value, true))
  }

  lemma PairWritten(start: Bytes, text: Bytes, whole: Cell<Pairs>, key: Type, value: Type, first: bool,
                    k: Value, v: Value, rest: Cell<Pairs>, written: Bytes)
    requires PairsUnderway(start, text, whole, if rest.Broken? then Broken else Cell(Pair(k, v, rest.value)), key, value, first)
    requires written == text + Comma(first) + Render(k, key) + [61] + Render(v, value)
    ensures PairsUnderway(start, written, whole, rest, key, value, false)
  {
    if rest.Cell? {
      FiveTogether(text, Comma(first), Render(k, key), [61], Render(v, value), RenderPairs(rest.value, key, value, false));
    }
  }

  // Appends the text of a cell, or fails where a list does not fit its child.
  method RenderCell(out: Output, vec: Vector, row: nat, t: Type, ghost rows: nat) returns (ok: bool)
    requires Holds(vec, t, rows) && row < rows && TypeValid(t)
    modifies out
    ensures ok <==> CellAt(vec, row, t, rows).Cell?
    ensures ok ==> out.text == old(out.text) + Render(CellAt(vec, row, t, rows).value, t)
    decreases t, 2
  {
    if vec.masked && !vec.mask[row] {
      out.Append(NULL);
      return true;
    }
    match t
    case Varchar =>
      out.AppendEscaped(vec.data.texts[row]);
      ok := true;
    case Integer(store) =>
      out.AppendInteger(vec.data.numbers[row], store);
      ok := true;
    case Boolean =>
      out.Append(if vec.data.truths[row] then TRUE else FALSE);
      ok := true;
    case Decimal(width, scale) =>
      out.AppendDecimal(vec.data.numbers[row], width, scale);
      ok := true;
    case ListOf(item) =>
      var r := vec.data.ranges[row];
      if r.offset > vec.data.size || r.length > vec.data.size - r.offset {
        return false;
      }
      ok := RenderList(out, vec.data.child, r.offset, r.length, item, vec.data.size);
    case ArrayOf(size, item) =>
      if size > 0 && row > IDX_MAX / size {
        return false;
      }
      Spans(row, rows, size);
      ok := RenderList(out, vec.data.items, row * size, size, item, rows * size);
    case StructOf(fields) =>
      ok := RenderStruct(out, vec.data.columns, row, fields, rows);
    case MapOf(key, value) =>
      var r := vec.data.ranges[row];
      if r.offset > vec.data.size || r.length > vec.data.size - r.offset {
        return false;
      }
      ok := RenderMap(out, t, vec.data.keys, vec.data.values, r.offset, r.length, vec.data.size);
  }

  method RenderList(out: Output, child: Vector, offset: nat, length: nat, item: Type, ghost rows: nat) returns (ok: bool)
    requires Holds(child, item, rows) && offset + length <= rows && TypeValid(item)
    modifies out
    ensures ok <==> CellsAt(child, offset, length, item, rows).Cell?
    ensures ok ==> out.text == old(out.text) + ([91] + RenderItems(CellsAt(child, offset, length, item, rows).value, item, true) + [93])
    decreases item, 3
  {
    ghost var whole, before := CellsAt(child, offset, length, item, rows), out.text;
    out.Append([91]);
    ghost var start := out.text;
    for i := 0 to length
      invariant Underway(start, out.text, whole, CellsAt(child, offset + i, length - i, item, rows), item, i == 0)
    {
      ghost var text := out.text;
      if i > 0 {
        out.Append([44, 32]);
      }
      assert out.text == text + Comma(i == 0);
      ok := RenderCell(out, child, offset + i, item, rows);
      if !ok {
        return;
      }
      ItemWritten(start, text, whole, CellsAt(child, offset + i, length - i, item, rows), item, i == 0,
                  CellAt(child, offset + i, item, rows), CellsAt(child, offset + i + 1, length - i - 1, item, rows), out.text);
    }
    ok := true;
    ghost var text := RenderItems(whole.value, item, true);
    assert out.text == start + text;
    Enclosed(before, [91], text, [93]);
    out.Append([93]);
  }

  lemma Enclosed(before: Bytes, open: Bytes, text: Bytes, close: Bytes)
    ensures before + open + text + close == before + (open + text + close)
  {
  }

  method RenderStruct(out: Output, columns: Columns, row: nat, fields: Fields, ghost rows: nat) returns (ok: bool)
    requires HoldColumns(columns, fields, rows) && row < rows && FieldsValid(fields)
    modifies out
    ensures ok <==> FieldsAt(columns, row, fields, rows).Cell?
    ensures ok ==> out.text == old(out.text) + ([123] + RenderFields(FieldsAt(columns, row, fields, rows).value, fields, true) + [125])
    decreases fields, 2
  {
    ghost var whole, before := FieldsAt(columns, row, fields, rows), out.text;
    out.Append([123]);
    ghost var start := out.text;
    var cs, fs, first := columns, fields, true;
    while fs.Field?
      invariant HoldColumns(cs, fs, rows) && FieldsValid(fs) && (fs == fields || fs < fields)
      invariant FieldsUnderway(start, out.text, whole, fields, FieldsAt(cs, row, fs, rows), fs, first)
      decreases fs
    {
      ghost var text := out.text;
      if !first {
        out.Append([44, 32]);
      }
      assert out.text == text + Comma(first);
      out.Append(NameText(fs.name));
      ok := RenderCell(out, cs.head, row, fs.kind, rows);
      if !ok {
        return;
      }
      FieldWritten(start, text, whole, fields, FieldsAt(cs, row, fs, rows), fs, first,
                   CellAt(cs.head, row, fs.kind, rows), FieldsAt(cs.tail, row, fs.rest, rows), out.text);
      cs, fs, first := cs.tail, fs.rest, false;
    }
    ok := true;
    ghost var text := RenderFields(whole.value, fields, true);
    assert out.text == start + text;
    Enclosed(before, [123], text, [125]);
    out.Append([125]);
  }

  method RenderMap(out: Output, t: Type, keys: Vector, values: Vector, offset: nat, length: nat, ghost rows: nat) returns (ok: bool)
    requires t.MapOf? && TypeValid(t)
    requires Holds(keys, t.key, rows) && Holds(values, t.value, rows) && offset + length <= rows
    modifies out
    ensures ok <==> PairsAt(t, keys, values, offset, length, rows).Cell?
    ensures ok ==> out.text == old(out.text)
                               + ([123] + RenderPairs(PairsAt(t, keys, values, offset, length, rows).value, t.key, t.value, true) + [125])
    decreases t, 1
  {
    ghost var whole, before := PairsAt(t, keys, values, offset, length, rows), out.text;
    out.Append([123]);
    ghost var start := out.text;
    for i := 0 to length
      invariant PairsUnderway(start, out.text, whole, PairsAt(t, keys, values, offset + i, length - i, rows), t.key, t.value, i == 0)
    {
      ghost var text := out.text;
      ok := RenderPair(out, t, keys, values, offset + i, i == 0, rows);
      if !ok {
        return;
      }
      PairWritten(start, text, whole, t.key, t.value, i == 0,
                  CellAt(keys, offset + i, t.key, rows).value, CellAt(values, offset + i, t.value, rows).value,
                  PairsAt(t, keys, values, offset + i + 1, length - i - 1, rows), out.text);
    }
    ok := true;
    ghost var text := RenderPairs(whole.value, t.key, t.value, true);
    assert out.text == start + text;
    Enclosed(before, [123], text, [125]);
    out.Append([125]);
  }

  // One entry of a map, and the comma in front of it.
  method RenderPair(out: Output, t: Type, keys: Vector, values: Vector, at: nat, first: bool, ghost rows: nat)
      returns (ok: bool)
    requires t.MapOf? && TypeValid(t) && Holds(keys, t.key, rows) && Holds(values, t.value, rows) && at < rows
    modifies out
    ensures ok <==> CellAt(keys, at, t.key, rows).Cell? && CellAt(values, at, t.value, rows).Cell?
    ensures ok ==>
              out.text == old(out.text) + Comma(first) + Render(CellAt(keys, at, t.key, rows).value, t.key) + [61]
                          + Render(CellAt(values, at, t.value, rows).value, t.value)
    decreases t, 0
  {
    if !first {
      out.Append([44, 32]);
    }
    assert out.text == old(out.text) + Comma(first);
    ok := RenderCell(out, keys, at, t.key, rows);
    if !ok {
      return;
    }
    out.Append([61]);
    ok := RenderCell(out, values, at, t.value, rows);
  }

  // The text of a nested column's cell. It can be read back to the cell's value;
  // without one the generic renderer is used.
  method ColumnToString(vec: Vector, row: nat, t: Type, ghost rows: nat) returns (ok: bool, text: Bytes)
    requires Holds(vec, t, rows) && row < rows && TypeValid(t)
    ensures ok <==> Nested(t) && CellAt(vec, row, t, rows).Cell?
    ensures ok ==> Read(t, text) == Got(CellAt(vec, row, t, rows).value, [])
  {
    if !t.ListOf? && !t.ArrayOf? && !t.StructOf? && !t.MapOf? {
      return false, [];
    }
    var out := new Output();
    ok := RenderCell(out, vec, row, t, rows);
    text := out.text;
    if ok {
      ghost var v := CellAt(vec, row, t, rows).value;
      CellTyped(vec, row, t, rows);
      NestedRoundTrip.ReadBack(v, t, []);
      assert [] + Render(v, t) == Render(v, t) + [] == Render(v, t);
    }
  }
}
