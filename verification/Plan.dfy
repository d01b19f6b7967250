// The placeholder plan of a statement and the statements written from it.
module Plan {
  import opened Options
  import opened Text
  import opened SqlLexer
  import opened SqlScan
  import opened Numbering

  datatype Error = ContainsNul | MixedParameters | WrongCount | Undefined

  datatype Result<+T> = Ok(value: T) | Err(error: Error)

  // A bound value: text to be quoted, bytes to be sent as a blob, or SQL.
  datatype Binding = Binding(value: Option<Bytes>, quote: bool, blob: bool)

  // ---- Planning ----

  function ItemsOf(sql: Bytes): seq<Item> { Items(-1, sql, false) }

  function NumbersOf(sql: Bytes, legacy: bool): Result<Numbers>
  {
    if 0 in sql then Err(ContainsNul)
    else
      match Number(START, 0, ItemsOf(sql), legacy)
      case None => Err(MixedParameters)
      case Some(n) => Ok(n)
  }

  class SqlPlan {
    const sql: Bytes
    const legacyParser: bool
    var style: Style
    var names: map<Bytes, nat>
    var nativeNames: map<Bytes, nat>
    var nativePositions: map<nat, nat>
    var placeholders: seq<Placeholder>
    var nativePlaceholders: seq<Placeholder>
    var parameterCount: nat
    var bindingCount: nat
    var nativeParameterCount: nat
    var nativeNextPosition: nat

    constructor (sql: Bytes, legacyParser: bool)
      ensures this.sql == sql && this.legacyParser == legacyParser && View() == START
    {
      this.sql, this.legacyParser := sql, legacyParser;
      style, names, placeholders, parameterCount := NoParameters, map[], [], 0;
      nativeNames, nativePositions, nativePlaceholders := map[], map[], [];
      nativeParameterCount, nativeNextPosition, bindingCount := 0, 0, 0;
    }

    function View(): Numbers
      reads this
    {
      Numbers(style, names, placeholders, parameterCount, nativeNames, nativePositions, nativePlaceholders,
              nativeParameterCount, nativeNextPosition)
    }

    // A finished plan holds the numbers of its statement and their slots.
    ghost predicate Valid()
      reads this
    {
      var r := NumbersOf(sql, legacyParser);
      && r.Ok?
      && View() == r.value.(nativePositions := Slots(r.value))
      && bindingCount == |Slots(r.value)|
    }

    method AddPlaceholder(offset: nat, length: nat, style: Style) returns (ok: bool)
      requires offset + length <= |sql|
      modifies this
      ensures var r := AddPdo(old(View()), offset, sql[offset..offset + length], style);
              ok == r.Some? && View() == if ok then r.value else old(View())
    {
      if this.style != NoParameters && this.style != style {
        return false;
      }
      this.style := style;
      var index := parameterCount;
      var text := sql[offset..offset + length];
      if style == NamedParameters && text in names {
        index := names[text];
      } else {
        parameterCount := parameterCount + 1;
        if style == NamedParameters {
          names := names[text := index];
        }
      }
      placeholders := placeholders + [Placeholder(offset, length, index, true)];
      if index >= nativeNextPosition {
        nativeNextPosition := index + 1;
      }
      return true;
    }

    // What the $ parameter asks for, from its digits.
    method ReadRequest(name: Bytes, numeric: bool) returns (request: Request)
      ensures request == RequestOf(name, numeric, legacyParser, nativeNextPosition)
    {
      if !numeric {
        return ByName;
      }
      var number := ReadNumber(name, legacyParser);
      if number.None? {
        return Ignored;
      }
      var position := number.value;
      if position == 0 && legacyParser {
        return if nativeNextPosition > ZEND_LONG_MAX then Ignored else Anonymous;
      } else if position == 0 || position - 1 > ZEND_LONG_MAX {
        return Ignored;
      }
      return Numbered(position - 1);
    }

    // The position for a request, remembered under its name and given a slot.
    method Locate(key: Bytes, request: Request) returns (position: nat)
      requires request != Ignored
      modifies this`nativeNames, this`nativePositions, this`nativeParameterCount
      ensures var was := old(View());
              var found := request != Anonymous && key in was.nativeNames;
              && position == (if found then was.nativeNames[key] else PositionOf(was, request))
              && nativeNames == (if !found && request != Anonymous then was.nativeNames[key := position] else was.nativeNames)
              && nativePositions == (if !found && position !in was.nativePositions
                                     then was.nativePositions[position := was.nativeParameterCount] else was.nativePositions)
              && nativeParameterCount == was.nativeParameterCount + (if !found && position !in was.nativePositions then 1 else 0)
    {
      if request != Anonymous && key in nativeNames {
        return nativeNames[key];
      }
      match request {
        case Numbered(p) => position := p;
        case Anonymous => position := nativeNextPosition;
        case _ => position := nativeParameterCount;
      }
      if request != Anonymous {
        nativeNames := nativeNames[key := position];
      }
      if position !in nativePositions {
        nativePositions := nativePositions[position := nativeParameterCount];
        nativeParameterCount := nativeParameterCount + 1;
      }
    }

    method AddNativePlaceholder(offset: nat, length: nat, name: Bytes, numeric: bool, quote: int)
      modifies this
      ensures View() == AddNative(old(View()), offset, length, name, numeric, quote, legacyParser)
    {
      var key := name;
      if quote != 0 {
        key := DecodeName(name, quote);
      }
      key := Lower(key);
      var request := ReadRequest(name, numeric);
      if request == Ignored {
        return;
      }
      var position := Locate(key, request);
      if position >= nativeNextPosition {
        nativeNextPosition := position + 1;
      }
      nativePlaceholders := nativePlaceholders + [Placeholder(offset, length, position, numeric)];
    }

    // Counts the placeholder that one turn of the scanner has read.
    method Register(kind: Kind, pos: nat, next: nat) returns (ok: bool)
      requires pos <= next <= |sql|
      modifies this
      ensures var r := NumberItem(old(View()), pos, Item(kind, sql[pos..next]), legacyParser);
              ok == r.Some? && View() == if ok then r.value else old(View())
    {
      ok := true;
      if kind.Native? {
        AddNativePlaceholder(pos, next - pos, kind.name, kind.numeric, kind.quote);
      } else if PdoKind(kind) {
        ok := AddPlaceholder(pos, next - pos, StyleOf(kind));
      }
    }

    // The slots once all parameters are known.
    method AssignSlots()
      modifies this
      ensures View() == old(View()).(nativePositions := Slots(old(View())))
      ensures bindingCount == |Slots(old(View()))|
    {
      if parameterCount > 0 {
        nativePositions := map[];
        var i := 0;
        while i < parameterCount
          invariant 0 <= i <= parameterCount
          invariant View() == old(View()).(nativePositions := FirstSlots(i))
        {
          nativePositions := nativePositions[i := i];
          i := i + 1;
        }
        i := 0;
        while i < |nativePlaceholders|
          invariant 0 <= i <= |nativePlaceholders|
          invariant View() == old(View()).(nativePositions := nativePositions)
          invariant ExtraSlots(nativePositions, nativePlaceholders[i..])
                 == ExtraSlots(FirstSlots(parameterCount), nativePlaceholders)
        {
          var placeholder := nativePlaceholders[i];
          if placeholder.numeric && placeholder.index !in nativePositions {
            nativePositions := nativePositions[placeholder.index := |nativePositions|];
          }
          i := i + 1;
        }
      }
      bindingCount := |nativePositions|;
    }
  }

  // The doubled quotes of a quoted name made single.
  method DecodeName(name: Bytes, quote: int) returns (key: Bytes)
    ensures key == Undouble(name, quote)
  {
    key := [];
    var i := 0;
    while i < |name|
      invariant 0 <= i <= |name|
      invariant key + Undouble(name[i..], quote) == Undouble(name, quote)
    {
      assert name[i..][1..] == name[i + 1..];
      assert i + 1 < |name| ==> name[i..][2..] == name[i + 2..];
      key := key + [name[i]];
      if name[i] == quote && i + 1 < |name| && name[i + 1] == name[i] {
        i := i + 1;
      }
      i := i + 1;
    }
  }

  method ReadNumber(name: Bytes, legacy: bool) returns (number: Option<nat>)
    ensures number == NumberValue(name, legacy, 0)
  {
    var position: nat := 0;
    var i := 0;
    while i < |name|
      invariant 0 <= i <= |name|
      invariant NumberValue(name[i..], legacy, position) == NumberValue(name, legacy, 0)
    {
      if name[i] == UNDERSCORE {
        if legacy {
          return Some(position);
        }
      } else {
        var c: int := name[i];
        var digit := c - 48;
        if digit < 0 || digit > 9 || position > (ZEND_ULONG_MAX - digit) / 10 {
          return None;
        }
        position := position * 10 + digit;
      }
      i := i + 1;
    }
    return Some(position);
  }

  // pdo_duckdb_sql_plan_create
  method PlanCreate(sql: Bytes, legacy: bool) returns (r: Result<SqlPlan>)
    ensures r.Ok? == NumbersOf(sql, legacy).Ok?
    ensures r.Err? ==> r.error == NumbersOf(sql, legacy).error
    ensures r.Ok? ==> fresh(r.value) && r.value.sql == sql && r.value.legacyParser == legacy && r.value.Valid()
  {
    if 0 in sql {
      return Err(ContainsNul);
    }
    var plan := new SqlPlan(sql, legacy);
    var pos, seen := 0, false;
    assert sql[0..] == sql;
    while pos < |sql|
      invariant 0 <= pos <= |sql| && fresh(plan)
      invariant Remaining(plan.View(), sql, pos, seen, legacy) == Remaining(START, sql, 0, false, legacy)
    {
      var kind, next := ScanToken(sql, pos, seen);
      ItemsTurn(sql, pos, seen, kind, next);
      Turn(plan.View(), sql, pos, seen, kind, next, legacy, NumberItem(plan.View(), pos, Item(kind, sql[pos..next]), legacy));
      var ok := plan.Register(kind, pos, next);
      if !ok {
        return Err(MixedParameters);
      }
      seen := seen || Significant(kind);
      pos := next;
    }
    plan.AssignSlots();
    return Ok(plan);
  }

  // The numbers once the statement from pos on is read too.
  ghost function Remaining(n: Numbers, sql: Bytes, pos: nat, seen: bool, legacy: bool): Option<Numbers>
    requires pos <= |sql|
  {
    Number(n, pos, Items(Before(sql, pos), sql[pos..], seen), legacy)
  }

  lemma ItemsTurn(sql: Bytes, pos: nat, seen: bool, kind: Kind, next: nat)
    requires pos < next <= |sql| && Lexeme(kind, next - pos) == Lex(Before(sql, pos), sql[pos..], seen)
    ensures Items(Before(sql, pos), sql[pos..], seen)
         == [Item(kind, sql[pos..next])] + Items(Before(sql, next), sql[next..], seen || Significant(kind))
  {
    var r := sql[pos..];
    assert r[..next - pos] == sql[pos..next] && r[next - pos..] == sql[next..];
  }

  lemma NumberFirst(n: Numbers, pos: nat, i: Item, rest: seq<Item>, legacy: bool, next: nat, after: Option<Numbers>)
    requires pos + |i.text| == next && after == NumberItem(n, pos, i, legacy)
    ensures after.None? ==> Number(n, pos, [i] + rest, legacy) == None
    ensures after.Some? ==> Number(n, pos, [i] + rest, legacy) == Number(after.value, next, rest, legacy)
  {
    assert ([i] + rest)[1..] == rest;
  }

  lemma Turn(n: Numbers, sql: Bytes, pos: nat, seen: bool, kind: Kind, next: nat, legacy: bool, after: Option<Numbers>)
    requires pos < next <= |sql|
    requires Items(Before(sql, pos), sql[pos..], seen)
          == [Item(kind, sql[pos..next])] + Items(Before(sql, next), sql[next..], seen || Significant(kind))
    requires after == NumberItem(n, pos, Item(kind, sql[pos..next]), legacy)
    ensures after.None? ==> Remaining(n, sql, pos, seen, legacy) == None
    ensures after.Some? ==>
              Remaining(n, sql, pos, seen, legacy) == Remaining(after.value, sql, next, seen || Significant(kind), legacy)
  {
    var i, rest := Item(kind, sql[pos..next]), Items(Before(sql, next), sql[next..], seen || Significant(kind));
    NumberFirst(n, pos, i, rest, legacy, next, after);
  }
}
