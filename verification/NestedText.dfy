// The text of nested values, and a reader that takes it apart again.
module NestedText {
  import opened Text
  import opened Decimals

  datatype Type =
    | Varchar
    | Integer(store: Width)
    | Boolean
    | Decimal(width: nat, scale: nat)
    | ListOf(item: Type)
    | ArrayOf(size: nat, item: Type)
    | StructOf(fields: Fields)
    | MapOf(key: Type, value: Type)

  // How integers are stored: in up to 64 bits or in 128, with a sign or without.
  datatype Width = Signed64 | Unsigned64 | Signed128 | Unsigned128

  datatype Fields = NoField | Field(name: Bytes, kind: Type, rest: Fields)

  // Number is an integer, or the unscaled value of a DECIMAL.
  datatype Value =
    | Null
    | Characters(bytes: Bytes)
    | Number(n: int)
    | Truth(b: bool)
    | Items(values: Values)
    | Entries(pairs: Pairs)

  datatype Values = NoValue | Values(head: Value, tail: Values)

  datatype Pairs = NoPair | Pair(key: Value, value: Value, rest: Pairs)

  function Count(vs: Values): nat { if vs.NoValue? then 0 else 1 + Count(vs.tail) }

  predicate TypeValid(t: Type)
  {
    match t
    case Decimal(width, scale) => MetaOk(width, scale)
    case ListOf(item) => TypeValid(item)
    case ArrayOf(_, item) => TypeValid(item)
    case StructOf(fields) => FieldsValid(fields)
    case MapOf(key, value) => TypeValid(key) && TypeValid(value)
    case _ => true
  }

  predicate FieldsValid(fs: Fields)
  {
    fs.Field? ==> TypeValid(fs.kind) && FieldsValid(fs.rest)
  }

  // v is a value, or NULL, of type t.
  predicate Typed(v: Value, t: Type)
  {
    v.Null? ||
    match t
    case Varchar => v.Characters?
    case Integer(_) => v.Number?
    case Boolean => v.Truth?
    case Decimal(_, _) => v.Number?
    case ListOf(item) => v.Items? && AllTyped(v.values, item)
    case ArrayOf(size, item) => v.Items? && Count(v.values) == size && AllTyped(v.values, item)
    case StructOf(fields) => v.Items? && FieldsTyped(v.values, fields)
    case MapOf(key, value) => v.Entries? && PairsTyped(v.pairs, key, value)
  }

  predicate AllTyped(vs: Values, t: Type)
  {
    vs.Values? ==> Typed(vs.head, t) && AllTyped(vs.tail, t)
  }

  predicate FieldsTyped(vs: Values, fs: Fields)
  {
    match fs
    case NoField => vs.NoValue?
    case Field(_, kind, rest) => vs.Values? && Typed(vs.head, kind) && FieldsTyped(vs.tail, rest)
  }

  predicate PairsTyped(ps: Pairs, key: Type, value: Type)
  {
    ps.Pair? ==> Typed(ps.key, key) && Typed(ps.value, value) && PairsTyped(ps.rest, key, value)
  }

  // ---- Characters ----

  const NULL: Bytes := [78, 85, 76, 76]
  const TRUE: Bytes := [116, 114, 117, 101]
  const FALSE: Bytes := [102, 97, 108, 115, 101]

  // " ' ( ) , : = [ ] { } and, in DuckDB 2.0, the backslash
  predicate Special(c: byte)
  {
    c in {34 as byte, 39 as byte, 40 as byte, 41 as byte, 44 as byte, 58 as byte, 61 as byte,
          91 as byte, 93 as byte, 123 as byte, 125 as byte, 92 as byte}
  }

  predicate NullWord(s: Bytes)
  {
    |s| == 4 && (s[0] == 110 || s[0] == 78) && (s[1] == 117 || s[1] == 85)
    && (s[2] == 108 || s[2] == 76) && (s[3] == 108 || s[3] == 76)
  }

  predicate NeedsQuotes(s: Bytes)
  {
    s == [] || Blank(s[0]) || (|s| >= 2 && Blank(s[|s| - 1])) || NullWord(s)
    || exists i :: 0 <= i < |s| && Special(s[i])
  }

  predicate Escapes(c: byte) { c == QUOTE || c == BACKSLASH }

  function Escaped(s: Bytes): Bytes
  {
    if s == [] then [] else (if Escapes(s[0]) then [BACKSLASH, s[0]] else [s[0]]) + Escaped(s[1..])
  }

  function Quoted(s: Bytes): Bytes
  {
    if NeedsQuotes(s) then [QUOTE] + Escaped(s) + [QUOTE] else s
  }

  // ---- The text of a value ----

  function Comma(first: bool): Bytes { if first then [] else [44, 32] }

  function Render(v: Value, t: Type): Bytes
  {
    if v.Null? then NULL
    else
      match t
      case Varchar => if v.Characters? then Quoted(v.bytes) else []
      case Integer(_) => if v.Number? then Signed(v.n) else []
      case Boolean => if v.Truth? then (if v.b then TRUE else FALSE) else []
      case Decimal(width, scale) => if v.Number? then Rendered(v.n, width, scale) else []
      case ListOf(item) => if v.Items? then [91] + RenderItems(v.values, item, true) + [93] else []
      case ArrayOf(_, item) => if v.Items? then [91] + RenderItems(v.values, item, true) + [93] else []
      case StructOf(fields) => if v.Items? then [123] + RenderFields(v.values, fields, true) + [125] else []
      case MapOf(key, value) => if v.Entries? then [123] + RenderPairs(v.pairs, key, value, true) + [125] else []
  }

  function RenderItems(vs: Values, t: Type, first: bool): Bytes
  {
    if vs.NoValue? then [] else Comma(first) + (Render(vs.head, t) + RenderItems(vs.tail, t, false))
  }

  function NameText(name: Bytes): Bytes { [QUOTE] + name + [QUOTE, COLON, 32] }

  function RenderFields(vs: Values, fs: Fields, first: bool): Bytes
  {
    if vs.NoValue? || fs.NoField? then []
    else Comma(first) + (NameText(fs.name) + (Render(vs.head, fs.kind) + RenderFields(vs.tail, fs.rest, false)))
  }

  function RenderPairs(ps: Pairs, key: Type, value: Type, first: bool): Bytes
  {
    if ps.NoPair? then []
    else Comma(first) + (Render(ps.key, key) + ([61] + (Render(ps.value, value) + RenderPairs(ps.rest, key, value, false))))
  }

  // ---- Reading it back ----

  datatype Got<T> = Got(value: T, rest: Bytes) | Lost

  // Ends an unquoted value: , ] } =
  predicate Delimiter(c: byte) { c == 44 || c == 93 || c == 125 || c == 61 }

  predicate Delimited(rest: Bytes) { rest == [] || Delimiter(rest[0]) }

  function TokenLength(s: Bytes): (n: nat)
    ensures n <= |s|
  {
    if s == [] || Delimiter(s[0]) then 0 else 1 + TokenLength(s[1..])
  }

  // The rest of a quoted text whose quote has been read.
  function Unquote(s: Bytes): (r: Got<Bytes>)
    ensures r.Got? ==> |r.rest| < |s|
    decreases |s|
  {
    if s == [] then Lost
    else if s[0] == QUOTE then Got([], s[1..])
    else
      var escape := s[0] == BACKSLASH && |s| > 1;
      var c := if escape then s[1] else s[0];
      var more := Unquote(if escape then s[2..] else s[1..]);
      if more.Got? then Got([c] + more.value, more.rest) else Lost
  }

  function ReadToken(token: Bytes, t: Type): Value
  {
    if token == NULL then Null
    else
      match t
      case Varchar => Characters(token)
      case Integer(_) => Number(Unscaled(token))
      case Boolean => Truth(token == TRUE)
      case Decimal(_, _) => Number(Unscaled(token))
      case _ => Null
  }

  predicate Nested(t: Type) { t.ListOf? || t.ArrayOf? || t.StructOf? || t.MapOf? }

  // s without a prefix.
  function Skip(s: Bytes, prefix: Bytes): (r: Got<()>)
    ensures r.Got? ==> |r.rest| + |prefix| == |s| && s == prefix + r.rest
  {
    if prefix <= s then
      assert s == prefix + s[|prefix|..];
      Got((), s[|prefix|..])
    else Lost
  }

  // Reads a value of type t at the start of s.
  function Read(t: Type, s: Bytes): (r: Got<Value>)
    ensures r.Got? ==> |r.rest| <= |s|
    decreases t, 0, |s|
  {
    if Nested(t) && Skip(s, NULL).Lost? then
      if s == [] then Lost else ReadInside(t, s[1..])
    else if t.Varchar? && s != [] && s[0] == QUOTE then
      var q := Unquote(s[1..]);
      if q.Got? then Got(Characters(q.value), q.rest) else Lost
    else
      var n := TokenLength(s);
      Got(ReadToken(s[..n], t), s[n..])
  }

  // What stands behind an opening bracket.
  function ReadInside(t: Type, s: Bytes): (r: Got<Value>)
    ensures r.Got? ==> |r.rest| <= |s|
    decreases t, 0, |s|, 1
  {
    match t
    case ListOf(item) => ReadItems(item, s, true)
    case ArrayOf(_, item) => ReadItems(item, s, true)
    case StructOf(fields) => ReadFields(fields, s, true)
    case MapOf(key, value) => ReadPairs(t, key, value, s, true)
    case _ => Lost
  }

  function ReadItems(t: Type, s: Bytes, first: bool): (r: Got<Value>)
    ensures r.Got? ==> |r.rest| <= |s| && r.value.Items?
    decreases t, 1, |s|
  {
    if s != [] && s[0] == 93 then Got(Items(NoValue), s[1..])
    else
      var skipped := Skip(s, Comma(first));
      if skipped.Lost? then Lost
      else
        var head := Read(t, skipped.rest);
        if head.Lost? || |head.rest| >= |s| then Lost
        else
          var tail := ReadItems(t, head.rest, false);
          if tail.Lost? then Lost else Got(Items(Values(head.value, tail.value.values)), tail.rest)
  }

  function ReadFields(fs: Fields, s: Bytes, first: bool): (r: Got<Value>)
    ensures r.Got? ==> |r.rest| <= |s| && r.value.Items?
    decreases fs, 1, |s|
  {
    if fs.NoField? then
      if s != [] && s[0] == 125 then Got(Items(NoValue), s[1..]) else Lost
    else
      var comma := Skip(s, Comma(first));
      if comma.Lost? then Lost
      else
        var name := Skip(comma.rest, NameText(fs.name));
        if name.Lost? then Lost
        else
          var head := Read(fs.kind, name.rest);
          if head.Lost? then Lost
          else
            var tail := ReadFields(fs.rest, head.rest, false);
            if tail.Lost? then Lost else Got(Items(Values(head.value, tail.value.values)), tail.rest)
  }

  // map is the type that holds key and value.
  function ReadPairs(whole: Type, key: Type, value: Type, s: Bytes, first: bool): (r: Got<Value>)
    requires whole == MapOf(key, value)
    ensures r.Got? ==> |r.rest| <= |s| && r.value.Entries?
    decreases whole, 0, |s|, 0
  {
    if s != [] && s[0] == 125 then Got(Entries(NoPair), s[1..])
    else
      var comma := Skip(s, Comma(first));
      if comma.Lost? then Lost
      else
        var k := Read(key, comma.rest);
        if k.Lost? || Skip(k.rest, [61]).Lost? then Lost
        else
          var v := Read(value, Skip(k.rest, [61]).rest);
          if v.Lost? then Lost
          else
            var tail := ReadPairs(whole, key, value, v.rest, false);
            if tail.Lost? then Lost else Got(Entries(Pair(k.value, v.value, tail.value.pairs)), tail.rest)
  }
}
