// Columns of nested values written down as DuckDB lays them out, and the renderer
// giving each row back.
module WrittenColumns {
  import opened Text
  import opened NestedText
  import opened NestedCells
  import Spelling

  // ---- Lists of values ----

  function ToSeq(vs: Values): seq<Value>
  {
    if vs.NoValue? then [] else [vs.head] + ToSeq(vs.tail)
  }

  function FromSeq(s: seq<Value>): Values
  {
    if s == [] then NoValue else Values(s[0], FromSeq(s[1..]))
  }

  lemma {:induction false} BackFromSeq(vs: Values)
    ensures FromSeq(ToSeq(vs)) == vs && |ToSeq(vs)| == Count(vs)
  {
    if vs.Values? {
      BackFromSeq(vs.tail);
      assert ToSeq(vs)[1..] == ToSeq(vs.tail);
    }
  }

  // The items a row adds to the child of its column; a NULL adds none.
  function RowItems(v: Value): seq<Value> { if v.Items? then ToSeq(v.values) else [] }

  // An ARRAY's row adds as many as any other, also where it is NULL.
  function RowArray(v: Value, size: nat): seq<Value> { if v.Items? then ToSeq(v.values) else seq(size, _ => Null) }

  function KeysOf(ps: Pairs): seq<Value> { if ps.NoPair? then [] else [ps.key] + KeysOf(ps.rest) }

  function ValuesOf(ps: Pairs): seq<Value> { if ps.NoPair? then [] else [ps.value] + ValuesOf(ps.rest) }

  function RowKeys(v: Value): seq<Value> { if v.Entries? then KeysOf(v.pairs) else [] }

  function RowValues(v: Value): seq<Value> { if v.Entries? then ValuesOf(v.pairs) else [] }

  // What the rows add, one after another.
  function Chained(rows: seq<seq<Value>>): seq<Value>
  {
    if rows == [] then [] else Chained(rows[..|rows| - 1]) + rows[|rows| - 1]
  }

  // Where each row's part of the child begins, and how long it is.
  function RangesOf(rows: seq<seq<Value>>): (rs: seq<Range>)
    ensures |rs| == |rows|
  {
    seq(|rows|, i requires 0 <= i < |rows| => Range(|Chained(rows[..i])|, |rows[i]|))
  }

  function Each(vs: seq<Value>, part: Value -> seq<Value>): (rows: seq<seq<Value>>)
    ensures |rows| == |vs| && forall i :: 0 <= i < |vs| ==> rows[i] == part(vs[i])
  {
    seq(|vs|, i requires 0 <= i < |vs| => part(vs[i]))
  }

  // A row's part of the child is found at its range.
  lemma {:induction false} PartAt(rows: seq<seq<Value>>, i: nat)
    requires i < |rows|
    ensures var r := RangesOf(rows)[i];
            r.offset + r.length <= |Chained(rows)| && Chained(rows)[r.offset..r.offset + r.length] == rows[i]
    decreases |rows|
  {
    var init, last := rows[..|rows| - 1], rows[|rows| - 1];
    if i < |rows| - 1 {
      PartAt(init, i);
      assert init[..i] == rows[..i] && init[i] == rows[i];
      assert RangesOf(init)[i] == RangesOf(rows)[i];
    }
  }

  lemma Part(rows: seq<seq<Value>>, all: seq<Value>, i: nat, row: seq<Value>, r: Range)
    requires i < |rows| && all == Chained(rows) && row == rows[i] && r == RangesOf(rows)[i]
    ensures r.offset + r.length <= |all| && all[r.offset..r.offset + r.length] == row
  {
    PartAt(rows, i);
  }

  // ---- A column ----

  function HeadOf(vs: Values): Value { if vs.Values? then vs.head else Null }

  function TailOf(vs: Values): Values { if vs.Values? then vs.tail else NoValue }

  function FieldRows(vs: seq<Value>): seq<Values>
  {
    seq(|vs|, i requires 0 <= i < |vs| => if vs[i].Items? then vs[i].values else NoValue)
  }

  function Heads(rows: seq<Values>): (vs: seq<Value>)
    ensures |vs| == |rows|
  {
    seq(|rows|, i requires 0 <= i < |rows| => HeadOf(rows[i]))
  }

  function Tails(rows: seq<Values>): (ts: seq<Values>)
    ensures |ts| == |rows|
  {
    seq(|rows|, i requires 0 <= i < |rows| => TailOf(rows[i]))
  }

  function MaskOf(vs: seq<Value>): (mask: seq<bool>)
    ensures |mask| == |vs|
  {
    seq(|vs|, i requires 0 <= i < |vs| => !vs[i].Null?)
  }

  function ArrayRows(vs: seq<Value>, size: nat): seq<seq<Value>>
  {
    Each(vs, v => RowArray(v, size))
  }

  // The vector of a column that holds the values vs.
  function VectorOf(t: Type, vs: seq<Value>): Vector
    decreases t
  {
    var data :=
      match t
      case Varchar => Texts(seq(|vs|, i requires 0 <= i < |vs| => if vs[i].Characters? then vs[i].bytes else []))
      case Integer(_) => Numbers(seq(|vs|, i requires 0 <= i < |vs| => if vs[i].Number? then vs[i].n else 0))
      case Decimal(_, _) => Numbers(seq(|vs|, i requires 0 <= i < |vs| => if vs[i].Number? then vs[i].n else 0))
      case Boolean => Truths(seq(|vs|, i requires 0 <= i < |vs| => vs[i].Truth? && vs[i].b))
      case ListOf(item) =>
        var rows := Each(vs, RowItems);
        Lists(RangesOf(rows), |Chained(rows)|, VectorOf(item, Chained(rows)))
      case ArrayOf(size, item) => Arrays(VectorOf(item, Chained(ArrayRows(vs, size))))
      case StructOf(fields) => Structs(ColumnsOf(fields, FieldRows(vs)))
      case MapOf(key, value) =>
        var keys, values := Each(vs, RowKeys), Each(vs, RowValues);
        Maps(RangesOf(keys), |Chained(keys)|, VectorOf(key, Chained(keys)), VectorOf(value, Chained(values)));
    Vector(true, MaskOf(vs), data)
  }

  function ColumnsOf(fs: Fields, rows: seq<Values>): Columns
    decreases fs
  {
    match fs
    case NoField => NoColumn
    case Field(_, kind, rest) => Columns(VectorOf(kind, Heads(rows)), ColumnsOf(rest, Tails(rows)))
  }

  // ---- What can be written ----

  // v is of type t, and its numbers fit their width.
  predicate Fit(v: Value, t: Type)
  {
    v.Null? ||
    match t
    case Varchar => v.Characters?
    case Integer(_) => v.Number? && Stored(t, v.n)
    case Boolean => v.Truth?
    case Decimal(_, _) => v.Number? && Stored(t, v.n)
    case ListOf(item) => v.Items? && AllFit(v.values, item)
    case ArrayOf(size, item) => v.Items? && Count(v.values) == size && AllFit(v.values, item)
    case StructOf(fields) => v.Items? && FieldsFit(v.values, fields)
    case MapOf(key, value) => v.Entries? && PairsFit(v.pairs, key, value)
  }

  predicate AllFit(vs: Values, t: Type) { vs.Values? ==> Fit(vs.head, t) && AllFit(vs.tail, t) }

  predicate FieldsFit(vs: Values, fs: Fields)
  {
    match fs
    case NoField => vs.NoValue?
    case Field(_, kind, rest) => vs.Values? && Fit(vs.head, kind) && FieldsFit(vs.tail, rest)
  }

  predicate PairsFit(ps: Pairs, key: Type, value: Type)
  {
    ps.Pair? ==> Fit(ps.key, key) && Fit(ps.value, value) && PairsFit(ps.rest, key, value)
  }

  predicate EachFit(vs: seq<Value>, t: Type) { forall i :: 0 <= i < |vs| ==> Fit(vs[i], t) }

  // No ARRAY's child has more rows than can be numbered.
  predicate Addressable(t: Type, vs: seq<Value>)
    decreases t
  {
    match t
    case ListOf(item) => Addressable(item, Chained(Each(vs, RowItems)))
    case ArrayOf(size, item) => |vs| * size <= IDX_MAX && Addressable(item, Chained(ArrayRows(vs, size)))
    case StructOf(fields) => FieldsAddressable(fields, FieldRows(vs))
    case MapOf(key, value) =>
      Addressable(key, Chained(Each(vs, RowKeys))) && Addressable(value, Chained(Each(vs, RowValues)))
    case _ => true
  }

  predicate FieldsAddressable(fs: Fields, rows: seq<Values>)
    decreases fs
  {
    fs.Field? ==> Addressable(fs.kind, Heads(rows)) && FieldsAddressable(fs.rest, Tails(rows))
  }

  // ---- Reading back ----

  // vec holds vs, row by row.
  ghost predicate Gives(vec: Vector, t: Type, vs: seq<Value>)
  {
    Holds(vec, t, |vs|) && forall i :: 0 <= i < |vs| ==> CellAt(vec, i, t, |vs|) == Cell(vs[i])
  }

  lemma {:induction false} CellsGive(vec: Vector, t: Type, all: seq<Value>, from: nat, count: nat)
    requires Gives(vec, t, all) && from + count <= |all|
    ensures CellsAt(vec, from, count, t, |all|) == Cell(FromSeq(all[from..from + count]))
    decreases count
  {
    if count > 0 {
      CellsGive(vec, t, all, from + 1, count - 1);
      assert all[from..from + count][1..] == all[from + 1..from + 1 + (count - 1)];
    }
  }

  lemma {:induction false} FitItems(vs: Values, t: Type)
    requires AllFit(vs, t)
    ensures EachFit(ToSeq(vs), t)
  {
    if vs.Values? {
      FitItems(vs.tail, t);
    }
  }

  lemma {:induction false} ChainedFit(rows: seq<seq<Value>>, t: Type)
    requires forall i :: 0 <= i < |rows| ==> EachFit(rows[i], t)
    ensures EachFit(Chained(rows), t)
  {
    if rows != [] {
      ChainedFit(rows[..|rows| - 1], t);
    }
  }

  // The items in a part of the child.
  lemma PartGives(item: Type, child: Vector, all: seq<Value>, values: Values, r: Range)
    requires Gives(child, item, all) && r.offset + r.length <= |all|
    requires all[r.offset..r.offset + r.length] == ToSeq(values)
    ensures CellsAt(child, r.offset, r.length, item, |all|) == Cell(values)
  {
    CellsGive(child, item, all, r.offset, r.length);
    BackFromSeq(values);
  }

  lemma ListGives(item: Type, vs: seq<Value>)
    requires EachFit(vs, ListOf(item))
    requires var all := Chained(Each(vs, RowItems)); Gives(VectorOf(item, all), item, all)
    ensures Gives(VectorOf(ListOf(item), vs), ListOf(item), vs)
  {
    var rows := Each(vs, RowItems);
    var all, vec := Chained(rows), VectorOf(ListOf(item), vs);
    forall i | 0 <= i < |vs|
      ensures CellAt(vec, i, ListOf(item), |vs|) == Cell(vs[i])
    {
      if vs[i].Items? {
        Part(rows, all, i, ToSeq(vs[i].values), RangesOf(rows)[i]);
        PartGives(item, vec.data.child, all, vs[i].values, RangesOf(rows)[i]);
      }
    }
  }

  lemma ChainedOne(rows: seq<seq<Value>>, i: nat)
    requires 0 < i <= |rows|
    ensures Chained(rows[..i]) == Chained(rows[..i - 1]) + rows[i - 1]
  {
    assert rows[..i][..i - 1] == rows[..i - 1];
  }

  lemma {:induction false} ArrayOffset(vs: seq<Value>, size: nat, item: Type, i: nat)
    requires EachFit(vs, ArrayOf(size, item)) && i <= |vs|
    ensures |Chained(ArrayRows(vs, size)[..i])| == i * size
  {
    if i > 0 {
      ArrayOffset(vs, size, item, i - 1);
      ChainedOne(ArrayRows(vs, size), i);
      assert Fit(vs[i - 1], ArrayOf(size, item));
      if vs[i - 1].Items? {
        BackFromSeq(vs[i - 1].values);
      }
      assert i * size == (i - 1) * size + size;
    }
  }

  lemma RowBelow(row: nat, rows: nat, size: nat)
    requires row < rows && rows * size <= IDX_MAX && size > 0
    ensures row <= IDX_MAX / size
  {
    Product(row, rows, size);
    Quotient(row, size, IDX_MAX);
  }

  lemma Product(a: nat, b: nat, c: nat)
    requires a <= b
    ensures a * c <= b * c
  {
  }

  lemma Quotient(a: nat, c: nat, m: nat)
    requires a * c <= m && c > 0
    ensures a <= m / c
  {
    assert (m / c + 1) * c > m;
    if a > m / c {
      Product(m / c + 1, a, c);
    }
  }

  lemma ArrayGives(size: nat, item: Type, vs: seq<Value>)
    requires EachFit(vs, ArrayOf(size, item)) && |vs| * size <= IDX_MAX
    requires var all := Chained(ArrayRows(vs, size)); Gives(VectorOf(item, all), item, all)
    ensures Gives(VectorOf(ArrayOf(size, item), vs), ArrayOf(size, item), vs)
  {
    var rows := ArrayRows(vs, size);
    var all, vec, t := Chained(rows), VectorOf(ArrayOf(size, item), vs), ArrayOf(size, item);
    ArrayOffset(vs, size, item, |vs|);
    assert rows[..|vs|] == rows;
    forall i | 0 <= i < |vs|
      ensures CellAt(vec, i, t, |vs|) == Cell(vs[i])
    {
      if vs[i].Items? {
        ArrayOffset(vs, size, item, i);
        if size > 0 {
          RowBelow(i, |vs|, size);
        }
        BackFromSeq(vs[i].values);
        assert Fit(vs[i], t) && RangesOf(rows)[i] == Range(i * size, size);
        Part(rows, all, i, ToSeq(vs[i].values), Range(i * size, size));
        PartGives(item, vec.data.items, all, vs[i].values, Range(i * size, size));
      }
    }
  }

  ghost predicate FieldsGive(cs: Columns, fs: Fields, rows: seq<Values>)
  {
    HoldColumns(cs, fs, |rows|)
    && forall i :: 0 <= i < |rows| && FieldsFit(rows[i], fs) ==> FieldsAt(cs, i, fs, |rows|) == Cell(rows[i])
  }

  // The rows of a structure: each fits, or is NULL and has no values.
  predicate RowsFit(rows: seq<Values>, fs: Fields)
  {
    forall i :: 0 <= i < |rows| ==> rows[i].NoValue? || FieldsFit(rows[i], fs)
  }

  function Zipped(keys: seq<Value>, values: seq<Value>): Pairs
    requires |keys| == |values|
  {
    if keys == [] then NoPair else Pair(keys[0], values[0], Zipped(keys[1..], values[1..]))
  }

  lemma {:induction false} ZippedBack(ps: Pairs)
    ensures |KeysOf(ps)| == |ValuesOf(ps)| && Zipped(KeysOf(ps), ValuesOf(ps)) == ps
  {
    if ps.Pair? {
      ZippedBack(ps.rest);
      assert KeysOf(ps)[1..] == KeysOf(ps.rest) && ValuesOf(ps)[1..] == ValuesOf(ps.rest);
    }
  }

  lemma {:induction false} FitPairs(ps: Pairs, key: Type, value: Type)
    requires PairsFit(ps, key, value)
    ensures EachFit(KeysOf(ps), key) && EachFit(ValuesOf(ps), value)
  {
    if ps.Pair? {
      FitPairs(ps.rest, key, value);
    }
  }

  lemma {:induction false} PairsGive(t: Type, keys: Vector, values: Vector, ks: seq<Value>, vs: seq<Value>, from: nat, count: nat)
    requires t.MapOf? && |ks| == |vs| && Gives(keys, t.key, ks) && Gives(values, t.value, vs) && from + count <= |ks|
    ensures PairsAt(t, keys, values, from, count, |ks|)
         == Cell(Zipped(ks[from..from + count], vs[from..from + count]))
    decreases count
  {
    if count > 0 {
      PairsGive(t, keys, values, ks, vs, from + 1, count - 1);
      assert ks[from..from + count][1..] == ks[from + 1..from + 1 + (count - 1)];
      assert vs[from..from + count][1..] == vs[from + 1..from + 1 + (count - 1)];
    }
  }

  // Keys and values stand at the same places.
  lemma {:induction false} SameRanges(vs: seq<Value>)
    ensures |Chained(Each(vs, RowKeys))| == |Chained(Each(vs, RowValues))|
    ensures RangesOf(Each(vs, RowKeys)) == RangesOf(Each(vs, RowValues))
  {
    forall i | 0 <= i <= |vs|
      ensures |Chained(Each(vs, RowKeys)[..i])| == |Chained(Each(vs, RowValues)[..i])|
    {
      SameLengths(vs, i);
    }
    forall i | 0 <= i < |vs|
      ensures RangesOf(Each(vs, RowKeys))[i] == RangesOf(Each(vs, RowValues))[i]
    {
      if vs[i].Entries? {
        ZippedBack(vs[i].pairs);
      }
    }
    assert Each(vs, RowKeys)[..|vs|] == Each(vs, RowKeys) && Each(vs, RowValues)[..|vs|] == Each(vs, RowValues);
  }

  lemma {:induction false} SameLengths(vs: seq<Value>, i: nat)
    requires i <= |vs|
    ensures |Chained(Each(vs, RowKeys)[..i])| == |Chained(Each(vs, RowValues)[..i])|
  {
    if i > 0 {
      SameLengths(vs, i - 1);
      ChainedOne(Each(vs, RowKeys), i);
      ChainedOne(Each(vs, RowValues), i);
      if vs[i - 1].Entries? {
        ZippedBack(vs[i - 1].pairs);
      }
    }
  }

  lemma EntriesGive(t: Type, keys: Vector, values: Vector, ks: seq<Value>, ws: seq<Value>, pairs: Pairs, r: Range)
    requires t.MapOf? && |ks| == |ws| && Gives(keys, t.key, ks) && Gives(values, t.value, ws)
    requires r.offset + r.length <= |ks|
    requires ks[r.offset..r.offset + r.length] == KeysOf(pairs) && ws[r.offset..r.offset + r.length] == ValuesOf(pairs)
    ensures PairsAt(t, keys, values, r.offset, r.length, |ks|) == Cell(pairs)
  {
    PairsGive(t, keys, values, ks, ws, r.offset, r.length);
    ZippedBack(pairs);
  }

  lemma MapGives(key: Type, value: Type, vs: seq<Value>)
    requires EachFit(vs, MapOf(key, value))
    requires var ks := Chained(Each(vs, RowKeys)); Gives(VectorOf(key, ks), key, ks)
    requires var ws := Chained(Each(vs, RowValues)); Gives(VectorOf(value, ws), value, ws)
    ensures Gives(VectorOf(MapOf(key, value), vs), MapOf(key, value), vs)
  {
    var keys, values := Each(vs, RowKeys), Each(vs, RowValues);
    var ks, ws, vec, t := Chained(keys), Chained(values), VectorOf(MapOf(key, value), vs), MapOf(key, value);
    SameRanges(vs);
    forall i | 0 <= i < |vs|
      ensures CellAt(vec, i, t, |vs|) == Cell(vs[i])
    {
      if vs[i].Entries? {
        Part(keys, ks, i, KeysOf(vs[i].pairs), RangesOf(keys)[i]);
        Part(values, ws, i, ValuesOf(vs[i].pairs), RangesOf(keys)[i]);
        EntriesGive(t, vec.data.keys, vec.data.values, ks, ws, vs[i].pairs, RangesOf(keys)[i]);
      }
    }
  }

  lemma StructGives(fields: Fields, vs: seq<Value>)
    requires EachFit(vs, StructOf(fields)) && FieldsGive(ColumnsOf(fields, FieldRows(vs)), fields, FieldRows(vs))
    ensures Gives(VectorOf(StructOf(fields), vs), StructOf(fields), vs)
  {
    var rows, vec := FieldRows(vs), VectorOf(StructOf(fields), vs);
    forall i | 0 <= i < |vs|
      ensures CellAt(vec, i, StructOf(fields), |vs|) == Cell(vs[i])
    {
      if vs[i].Items? {
        assert rows[i] == vs[i].values && FieldsFit(rows[i], fields);
      }
    }
  }

  lemma RowsOfListsFit(item: Type, vs: seq<Value>)
    requires EachFit(vs, ListOf(item))
    ensures EachFit(Chained(Each(vs, RowItems)), item)
  {
    forall i | 0 <= i < |vs|
      ensures EachFit(Each(vs, RowItems)[i], item)
    {
      if vs[i].Items? {
        FitItems(vs[i].values, item);
      }
    }
    ChainedFit(Each(vs, RowItems), item);
  }

  lemma RowsOfArraysFit(size: nat, item: Type, vs: seq<Value>)
    requires EachFit(vs, ArrayOf(size, item))
    ensures EachFit(Chained(ArrayRows(vs, size)), item)
  {
    forall i | 0 <= i < |vs|
      ensures EachFit(ArrayRows(vs, size)[i], item)
    {
      if vs[i].Items? {
        FitItems(vs[i].values, item);
      }
    }
    ChainedFit(ArrayRows(vs, size), item);
  }

  lemma RowsOfMapsFit(key: Type, value: Type, vs: seq<Value>)
    requires EachFit(vs, MapOf(key, value))
    ensures EachFit(Chained(Each(vs, RowKeys)), key) && EachFit(Chained(Each(vs, RowValues)), value)
  {
    forall i | 0 <= i < |vs|
      ensures EachFit(Each(vs, RowKeys)[i], key) && EachFit(Each(vs, RowValues)[i], value)
    {
      if vs[i].Entries? {
        FitPairs(vs[i].pairs, key, value);
      }
    }
    ChainedFit(Each(vs, RowKeys), key);
    ChainedFit(Each(vs, RowValues), value);
  }

  // A written column holds the values it was written from.
  lemma {:induction false} ColumnGives(t: Type, vs: seq<Value>)
    requires EachFit(vs, t) && Addressable(t, vs)
    ensures Gives(VectorOf(t, vs), t, vs)
    decreases t
  {
    match t
    case ListOf(item) =>
      RowsOfListsFit(item, vs);
      ColumnGives(item, Chained(Each(vs, RowItems)));
      ListGives(item, vs);
    case ArrayOf(size, item) =>
      RowsOfArraysFit(size, item, vs);
      ColumnGives(item, Chained(ArrayRows(vs, size)));
      ArrayGives(size, item, vs);
    case StructOf(fields) =>
      assert RowsFit(FieldRows(vs), fields);
      ColumnsGive(fields, FieldRows(vs));
      StructGives(fields, vs);
    case MapOf(key, value) =>
      RowsOfMapsFit(key, value, vs);
      ColumnGives(key, Chained(Each(vs, RowKeys)));
      ColumnGives(value, Chained(Each(vs, RowValues)));
      MapGives(key, value, vs);
    case _ =>
  }

  lemma {:induction false} ColumnsGive(fs: Fields, rows: seq<Values>)
    requires RowsFit(rows, fs) && FieldsAddressable(fs, rows)
    ensures FieldsGive(ColumnsOf(fs, rows), fs, rows)
    decreases fs
  {
    if fs.Field? {
      ColumnGives(fs.kind, Heads(rows));
      ColumnsGive(fs.rest, Tails(rows));
    }
  }

  // Write a column of values down; then the renderer's text for each row, read back,
  // is that row's value.
  method RowReadsBack(t: Type, vs: seq<Value>, row: nat) returns (text: Bytes)
    requires TypeValid(t) && (t.ListOf? || t.ArrayOf? || t.StructOf? || t.MapOf?)
    requires EachFit(vs, t) && Addressable(t, vs) && row < |vs|
    ensures Read(t, text) == Got(vs[row], [])
  {
    ColumnGives(t, vs);
    var ok;
    ok, text := ColumnToString(VectorOf(t, vs), row, t, |vs|);
  }

  // A list or map that reaches beyond its child is refused.
  method BeyondRefused(vec: Vector, row: nat, t: Type, rows: nat) returns (ok: bool)
    requires Holds(vec, t, rows) && row < rows && TypeValid(t) && (t.ListOf? || t.MapOf?) && RowValid(vec, row)
    requires vec.data.ranges[row].offset + vec.data.ranges[row].length > vec.data.size
    ensures !ok
  {
    var text;
    ok, text := ColumnToString(vec, row, t, rows);
  }

  // Plain words are written as they are, but for the word NULL.
  lemma PlainWord(s: Bytes)
    requires s != [] && forall i :: 0 <= i < |s| ==> Letter(s[i]) || Digit(s[i]) || s[i] == UNDERSCORE
    ensures Render(Characters(s), Varchar) == s <==> !Spelling.SameLetters(s, NestedText.NULL)
  {
    if Spelling.SameLetters(s, NestedText.NULL) {
      assert NullWord(s);
    }
  }
}
