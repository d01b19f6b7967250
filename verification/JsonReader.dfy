// The recursive-descent reader, with the position it advances.
module JsonReader {
  import opened Text
  import opened JsonText
  import opened JsonGrammar
  import JsonComplete
  import JsonSound

  const VALUE_DEPTH: nat := 128

  // The nodes that may still be opened below one at this depth, itself included.
  function Budget(depth: nat): nat { if depth < VALUE_DEPTH then VALUE_DEPTH - depth else 0 }

  // Entries already read, in n bytes, and those still to come.
  function Accumulated(entries: seq<Entry>, n: nat, r: ParsedMembers): ParsedMembers
  {
    if r.MembersOk? then MembersOk(entries + r.entries, n + r.length) else MembersFail
  }

  lemma AccumulatedNext(entries: seq<Entry>, n: nat, entry: Entry, m: nat, rest: ParsedMembers)
    ensures Accumulated(entries, n, Prepended(entry, m, rest)) == Accumulated(entries + [entry], n + m, rest)
  {
    if rest.MembersOk? {
      assert entries + ([entry] + rest.entries) == (entries + [entry]) + rest.entries;
    }
  }

  lemma DecimalOf(s: Bytes, w: nat, f: int, e: int)
    requires w == WholeLength(s)
    requires w > 0 ==> f == FractionLength(s[w..])
    requires w > 0 && f >= 0 ==> e == ExponentLength(s[w + f..])
    ensures DecimalLength(s) == if w == 0 || f < 0 || e < 0 then 0 else w + f + e
  {
  }

  // Marks the texts at which the scan is taken to read scalars.
  ghost predicate Looked(s: Bytes) { |s| >= 0 }

  // scan reads scalars as decode has them.
  ghost predicate Implements(scan: Scan, decode: Decoder)
  {
    forall s: Bytes {:trigger Looked(s)} :: Looked(s) ==> scan(s) == ParseScalar(decode, s)
  }

  // What the loop over members has to make of the text from position at on.
  ghost predicate Remains(scan: Scan, data: Bytes, start: nat, at: nat, braced: bool, budget: nat,
                          whole: ParsedMembers, entries: seq<Entry>)
  {
    && start <= at <= |data| && |entries| <= HT_MAX_SIZE
    && whole == Accumulated(entries, at - start,
                            ParseMembers(scan, data[at..], braced, HT_MAX_SIZE - |entries|, budget))
  }

  // What follows a member, seen from the text it was read from and from the whole data.
  lemma TailSeen(data: Bytes, at: nat, behind: nat, next: nat)
    requires at <= behind <= next <= |data| && next == behind + SpaceRun(data[behind..])
    ensures behind - at + SpaceRun(data[at..][behind - at..]) == next - at
    ensures next < |data| ==> data[at..][next - at] == data[next]
    ensures next < |data| ==> data[at..][next - at + 1..] == data[next + 1..]
  {
    JsonComplete.DropTwice(data, at, behind - at);
    if next < |data| {
      JsonComplete.DropTwice(data, at, next - at + 1);
    }
  }

  lemma TailEnds(scan: Scan, s: Bytes, braced: bool, room: nat, budget: nat, entry: Entry, at: nat)
    requires 0 < at <= |s| && room > 0
    ensures var next := at + SpaceRun(s[at..]);
            && (next == |s| ==> ParseTail(scan, s, braced, room, budget, entry, at) == MembersFail)
            && (next < |s| && s[next] == Closing(braced) ==>
                  ParseTail(scan, s, braced, room, budget, entry, at) == MembersOk([entry], next + 1))
            && (next < |s| && s[next] != Closing(braced) && s[next] != 44 ==>
                  ParseTail(scan, s, braced, room, budget, entry, at) == MembersFail)
  {
  }

  lemma TailGoesOn(scan: Scan, s: Bytes, braced: bool, room: nat, budget: nat, entry: Entry, at: nat, rest: Bytes)
    requires 0 < at <= |s| && room > 0
    requires at + SpaceRun(s[at..]) < |s| && s[at + SpaceRun(s[at..])] == 44
    requires s[at + SpaceRun(s[at..]) + 1..] == rest
    ensures ParseTail(scan, s, braced, room, budget, entry, at) ==
            Prepended(entry, at + SpaceRun(s[at..]) + 1, ParseMembers(scan, rest, braced, room - 1, budget))
  {
  }

  // What is left to make of the text behind a member that was read from at up to behind.
  ghost predicate TailRemains(scan: Scan, data: Bytes, start: nat, at: nat, braced: bool, budget: nat,
                              whole: ParsedMembers, entries: seq<Entry>, entry: Entry, behind: nat)
  {
    && start <= at < behind <= |data| && |entries| < HT_MAX_SIZE
    && whole == Accumulated(entries, at - start,
                            ParseTail(scan, data[at..], braced, HT_MAX_SIZE - |entries|, budget, entry, behind - at))
  }

  lemma EntryAhead(scan: Scan, data: Bytes, start: nat, at: nat, braced: bool, budget: nat, whole: ParsedMembers,
                   entries: seq<Entry>, key: Key, k: nat, value: Parsed)
    requires Remains(scan, data, start, at, braced, budget, whole, entries) && |entries| < HT_MAX_SIZE
    requires Entered(scan, data[at..], braced, HT_MAX_SIZE - |entries|, budget, key, k, value)
    ensures value.Fail? ==> whole == MembersFail
    ensures value.Ok? ==> TailRemains(scan, data, start, at, braced, budget, whole, entries,
                                      Entry(key, value.tree), at + k + value.length)
  {
  }

  // next is the position behind the member's tail.
  lemma TailAhead(scan: Scan, data: Bytes, start: nat, at: nat, braced: bool, budget: nat,
                  whole: ParsedMembers, entries: seq<Entry>, entry: Entry, behind: nat, next: nat)
    requires TailRemains(scan, data, start, at, braced, budget, whole, entries, entry, behind)
    requires next == behind + SpaceRun(data[behind..])
    ensures next == |data| ==> whole == MembersFail
    ensures next < |data| && data[next] == Closing(braced) ==>
              whole == MembersOk(entries + [entry], next + 1 - start)
    ensures next < |data| && data[next] != Closing(braced) && data[next] != 44 ==> whole == MembersFail
  {
    TailSeen(data, at, behind, next);
    TailEnds(scan, data[at..], braced, HT_MAX_SIZE - |entries|, budget, entry, behind - at);
  }

  lemma RemainsStep(scan: Scan, data: Bytes, start: nat, at: nat, braced: bool, budget: nat,
                    whole: ParsedMembers, entries: seq<Entry>, entry: Entry, behind: nat, next: nat)
    requires TailRemains(scan, data, start, at, braced, budget, whole, entries, entry, behind)
    requires next == behind + SpaceRun(data[behind..]) && next < |data| && data[next] == 44
    ensures Remains(scan, data, start, next + 1, braced, budget, whole, entries + [entry])
  {
    var room := HT_MAX_SIZE - |entries|;
    MoreAhead(scan, data, at, braced, room, budget, entry, behind, next);
    AccumulatedNext(entries, at - start, entry, next + 1 - at,
                    ParseMembers(scan, data[next + 1..], braced, room - 1, budget));
  }

  lemma MoreAhead(scan: Scan, data: Bytes, at: nat, braced: bool, room: nat, budget: nat, entry: Entry, behind: nat, next: nat)
    requires at < behind <= |data| && next == behind + SpaceRun(data[behind..]) && room > 0
    requires next < |data| && data[next] == 44
    ensures ParseTail(scan, data[at..], braced, room, budget, entry, behind - at) ==
            Prepended(entry, next + 1 - at, ParseMembers(scan, data[next + 1..], braced, room - 1, budget))
  {
    TailSeen(data, at, behind, next);
    TailGoesOn(scan, data[at..], braced, room, budget, entry, behind - at, data[next + 1..]);
  }

  // No room for another member, or no member.
  lemma NothingAhead(scan: Scan, data: Bytes, start: nat, at: nat, braced: bool, budget: nat,
                     whole: ParsedMembers, entries: seq<Entry>)
    requires Remains(scan, data, start, at, braced, budget, whole, entries)
    requires ParseMembers(scan, data[at..], braced, HT_MAX_SIZE - |entries|, budget) == MembersFail
    ensures whole == MembersFail
  {
  }

  // What the members come to once the value behind the first key is known.
  ghost predicate Entered(scan: Scan, s: Bytes, braced: bool, room: nat, budget: nat, key: Key, k: nat, value: Parsed)
  {
    && room > 0
    && (value.Fail? ==> ParseMembers(scan, s, braced, room, budget) == MembersFail)
    && (value.Ok? ==>
          && 0 < k + value.length <= |s|
          && ParseMembers(scan, s, braced, room, budget) ==
             ParseTail(scan, s, braced, room, budget, Entry(key, value.tree), k + value.length))
  }

  lemma ValueUnrolled(scan: Scan, s: Bytes, k: nat, t: Bytes, braced: bool, room: nat, budget: nat, key: Key)
    requires k <= |s| && s[k..] == t && room > 0
    ensures var value := ParseNode(scan, t, budget);
            && (value.Fail? ==> ParseValue(scan, s, braced, room, budget, key, k) == MembersFail)
            && (value.Ok? ==>
                  && 0 < k + value.length <= |s|
                  && ParseValue(scan, s, braced, room, budget, key, k) ==
                     ParseTail(scan, s, braced, room, budget, Entry(key, value.tree), k + value.length))
  {
  }

  lemma ValueAhead(scan: Scan, s: Bytes, k: nat, t: Bytes, braced: bool, room: nat, budget: nat, key: Key)
    requires k <= |s| && s[k..] == t && room > 0
    requires ParseKey(scan, s, braced) == KeyOk(key, k)
    ensures Entered(scan, s, braced, room, budget, key, k, ParseNode(scan, t, budget))
  {
    JsonComplete.MembersUnrolled(scan, s, braced, room, budget, key, k);
    ValueUnrolled(scan, s, k, t, braced, room, budget, key);
  }

  // A turn of the members loop ends it or reads an entry.
  datatype Turn = Done(members: ParsedMembers) | Next(entry: Entry)

  class JsonInput {
    const data: Bytes
    var position: nat

    constructor (data: Bytes)
      ensures this.data == data && position == 0
    {
      this.data, position := data, 0;
    }

    method Space()
      requires position <= |data|
      modifies `position
      ensures position == old(position) + SpaceRun(data[old(position)..])
    {
      while position < |data|
        invariant old(position) <= position <= |data|
        invariant position + SpaceRun(data[position..]) == old(position) + SpaceRun(data[old(position)..])
      {
        var c := data[position];
        if !JsonSpace(c) {
          break;
        }
        assert data[position..][1..] == data[position + 1..];
        position := position + 1;
      }
    }

    // Skips to the byte behind the closing quote.
    method SkipString() returns (closed: bool)
      requires position < |data|
      modifies `position
      ensures position <= |data|
      ensures closed <==> StringRest(data[old(position) + 1..]) > 0
      ensures closed ==> position == old(position) + 1 + StringRest(data[old(position) + 1..])
    {
      ghost var start := position + 1;
      position := position + 1;
      while position < |data|
        invariant start <= position <= |data|
        invariant StringRest(data[start..]) ==
                  if StringRest(data[position..]) == 0 then 0 else position - start + StringRest(data[position..])
      {
        var c := data[position];
        assert data[position..][1..] == data[position + 1..];
        position := position + 1;
        if c == BACKSLASH {
          if position == |data| {
            break;
          }
          assert data[position - 1..][2..] == data[position + 1..];
          position := position + 1;
        } else if c == DOUBLE_QUOTE {
          return true;
        }
      }
      return false;
    }

    method ReadString(decode: Decoder) returns (r: Parsed)
      requires position < |data| && data[position] == DOUBLE_QUOTE
      modifies `position
      ensures r == ParseString(decode, data[old(position)..]) && position <= |data|
      ensures r.Ok? ==> position == old(position) + r.length
    {
      var start := position;
      var closed := SkipString();
      assert data[start..][1..] == data[start + 1..];
      if !closed {
        return Fail;
      }
      var token := data[start..position];
      assert token == data[start..][..position - start];
      var decoded := decode(token);
      r := if decoded.Decoded? then Ok(String(decoded.text), position - start) else Fail;
    }

    method Word(word: Bytes) returns (matches: bool)
      requires position <= |data|
      ensures matches <==> WordAt(data[position..], word)
    {
      if |word| > |data| - position {
        return false;
      }
      for i := 0 to |word|
        invariant forall j :: 0 <= j < i ==> Lowered(data[position + j]) == word[j]
      {
        if Lowered(data[position + i]) != word[i] {
          assert data[position..][i] == data[position + i];
          return false;
        }
      }
      assert forall j :: 0 <= j < |word| ==> data[position..][j] == data[position + j];
      return true;
    }

    method SkipDigits()
      requires position <= |data|
      modifies `position
      ensures position == old(position) + DigitRun(data[old(position)..])
    {
      while position < |data| && Digit(data[position])
        invariant old(position) <= position <= |data|
        invariant position + DigitRun(data[position..]) == old(position) + DigitRun(data[old(position)..])
      {
        assert data[position..][1..] == data[position + 1..];
        position := position + 1;
      }
    }

    method SkipWhole() returns (ok: bool)
      requires position < |data|
      modifies `position
      ensures ok <==> WholeLength(data[old(position)..]) > 0
      ensures position == old(position) + WholeLength(data[old(position)..])
    {
      if data[position] == 48 {
        position := position + 1;
        return true;
      }
      if data[position] < 49 || data[position] > 57 {
        return false;
      }
      SkipDigits();
      return true;
    }

    method SkipFraction() returns (ok: bool)
      requires position <= |data|
      modifies `position
      ensures position <= |data|
      ensures ok <==> FractionLength(data[old(position)..]) >= 0
      ensures ok ==> position == old(position) + FractionLength(data[old(position)..])
    {
      if position < |data| && data[position] == 46 {
        assert data[position..][1..] == data[position + 1..];
        position := position + 1;
        if position == |data| || !Digit(data[position]) {
          return false;
        }
        SkipDigits();
      }
      return true;
    }

    method SkipExponent() returns (ok: bool)
      requires position <= |data|
      modifies `position
      ensures position <= |data|
      ensures ok <==> ExponentLength(data[old(position)..]) >= 0
      ensures ok ==> position == old(position) + ExponentLength(data[old(position)..])
    {
      if position < |data| && (data[position] == 101 || data[position] == 69) {
        ghost var s := data[position..];
        position := position + 1;
        assert s[1..] == data[position..];
        if position < |data| && (data[position] == 43 || data[position] == 45) {
          position := position + 1;
          assert s[2..] == data[position..];
        }
        if position == |data| || !Digit(data[position]) {
          return false;
        }
        SkipDigits();
      }
      return true;
    }

    method SkipDecimal() returns (ok: bool)
      requires position < |data|
      modifies `position
      ensures position <= |data|
      ensures ok <==> DecimalLength(data[old(position)..]) > 0
      ensures ok ==> position == old(position) + DecimalLength(data[old(position)..])
    {
      ghost var start, s := position, data[position..];
      ok := SkipWhole();
      ghost var w := position - start;
      if !ok {
        DecimalOf(s, w, 0, 0);
        return;
      }
      assert s[w..] == data[position..];
      ghost var f := FractionLength(s[w..]);
      ok := SkipFraction();
      if !ok {
        DecimalOf(s, w, f, 0);
        return;
      }
      assert s[w + f..] == data[position..];
      ghost var e := ExponentLength(s[w + f..]);
      ok := SkipExponent();
      DecimalOf(s, w, f, e);
    }

    method ReadNumber() returns (ok: bool)
      requires position < |data|
      modifies `position
      ensures position <= |data|
      ensures ok <==> NumberLength(data[old(position)..]) > 0
      ensures ok ==> position == old(position) + NumberLength(data[old(position)..])
    {
      ghost var start := position;
      if data[position] == 45 {
        position := position + 1;
      }
      assert data[start..][position - start..] == data[position..];
      if position == |data| {
        assert data[position..] == [];
        return false;
      }
      ok := ReadUnsigned();
    }

    method ReadUnsigned() returns (ok: bool)
      requires position < |data|
      modifies `position
      ensures position <= |data|
      ensures ok <==> UnsignedLength(data[old(position)..]) > 0
      ensures ok ==> position == old(position) + UnsignedLength(data[old(position)..])
    {
      var nan := Word(NAN);
      if nan {
        position := position + 3;
        return true;
      }
      var infinity := Word(INFINITY);
      if infinity {
        position := position + 8;
        return true;
      }
      var inf := Word(INF);
      if inf {
        position := position + 3;
        return true;
      }
      ok := SkipDecimal();
    }

    method ReadScalar(decode: Decoder) returns (r: Parsed)
      requires position < |data|
      modifies `position
      ensures r == ParseScalar(decode, data[old(position)..]) && position <= |data|
      ensures r.Ok? ==> position == old(position) + r.length
    {
      var start := position;
      ghost var s := data[start..];
      var c := data[position];
      if c == DOUBLE_QUOTE {
        r := ReadString(decode);
        return;
      }
      var nan := Word(NAN);
      var inf := Word(INF);
      if c == 45 || Digit(c) || nan || inf {
        var ok := ReadNumber();
        if ok {
          assert s[..position - start] == data[start..position];
          return Ok(Number(data[start..position]), position - start);
        }
        return Fail;
      }
      assert forall n :: 0 <= n <= |data| - start ==> s[..n] == data[start..start + n];
      if |data| - position >= 4 && data[position..position + 4] == NULL {
        position := position + 4;
        return Ok(Null, 4);
      }
      if |data| - position >= 4 && data[position..position + 4] == TRUE {
        position := position + 4;
        return Ok(Boolean(true), 4);
      }
      if |data| - position >= 5 && data[position..position + 5] == FALSE {
        position := position + 5;
        return Ok(Boolean(false), 5);
      }
      return Fail;
    }

    method ReadLeaf(decode: Decoder, ghost scan: Scan) returns (r: Parsed)
      requires Implements(scan, decode) && position < |data|
      modifies `position
      ensures r == Checked(scan(data[old(position)..]), data[old(position)..]) && position <= |data|
      ensures r.Ok? ==> position == old(position) + r.length
    {
      assert Looked(data[position..]);
      r := ReadScalar(decode);
    }

    method ReadKey(decode: Decoder, ghost scan: Scan, braced: bool) returns (r: ParsedKey)
      requires Implements(scan, decode) && position <= |data|
      modifies `position
      ensures r == ParseKey(scan, data[old(position)..], braced) && position <= |data|
      ensures r.KeyOk? ==> position == old(position) + r.length
    {
      if !braced {
        return KeyOk(NoKey, 0);
      }
      ghost var s := data[position..];
      var start := position;
      Space();
      ghost var before := position - start;
      assert s[before..] == data[position..];
      if position == |data| || data[position] != DOUBLE_QUOTE {
        assert before < |s| ==> s[before] == data[position];
        return KeyFail;
      }
      assert s[before] == data[position];
      r := ReadToken(decode, scan, start);
    }

    method ReadToken(decode: Decoder, ghost scan: Scan, start: nat) returns (r: ParsedKey)
      requires Implements(scan, decode) && start <= position < |data|
      modifies `position
      ensures r == ParseToken(scan, data[start..], old(position) - start) && position <= |data|
      ensures r.KeyOk? ==> position == start + r.length
    {
      JsonComplete.DropTwice(data, start, position - start);
      var token := ReadLeaf(decode, scan);
      if token.Fail? || !token.tree.String? {
        return KeyFail;
      }
      r := ReadColon(start, token.tree.text);
    }

    method ReadColon(start: nat, text: Bytes) returns (r: ParsedKey)
      requires start <= position <= |data|
      modifies `position
      ensures r == ParseColon(data[start..], text, old(position) - start) && position <= |data|
      ensures r.KeyOk? ==> position == start + r.length
    {
      JsonComplete.DropTwice(data, start, position - start);
      Space();
      assert position < |data| ==> data[start..][position - start] == data[position];
      if position == |data| || data[position] != COLON {
        return KeyFail;
      }
      position := position + 1;
      return KeyOk(Key(text), position - start);
    }

    // One value with the space before it.
    method ReadNode(decode: Decoder, ghost scan: Scan, depth: nat) returns (r: Parsed)
      requires Implements(scan, decode) && position <= |data|
      modifies `position
      ensures r == ParseNode(scan, data[old(position)..], Budget(depth)) && position <= |data|
      ensures r.Ok? ==> position == old(position) + r.length
      decreases Budget(depth), 1, 0
    {
      if depth >= VALUE_DEPTH {
        return Fail;
      }
      var start := position;
      Space();
      JsonComplete.DropTwice(data, start, position - start);
      var body := ReadBody(decode, scan, depth);
      r := if body.Ok? then Ok(body.tree, position - start) else Fail;
    }

    method ReadBody(decode: Decoder, ghost scan: Scan, depth: nat) returns (r: Parsed)
      requires Implements(scan, decode) && position <= |data| && depth < VALUE_DEPTH
      modifies `position
      ensures r == ParseBody(scan, data[old(position)..], Budget(depth)) && position <= |data|
      ensures r.Ok? ==> position == old(position) + r.length
      decreases Budget(depth), 0, 1
    {
      if position == |data| {
        return Fail;
      }
      var c := data[position];
      if c != Opening(true) && c != Opening(false) {
        r := ReadLeaf(decode, scan);
        return;
      }
      r := ReadCollection(decode, scan, c == Opening(true), depth);
    }

    method ReadCollection(decode: Decoder, ghost scan: Scan, braced: bool, depth: nat) returns (r: Parsed)
      requires Implements(scan, decode) && position < |data| && depth < VALUE_DEPTH
      modifies `position
      ensures r == ParseCollection(scan, data[old(position)..], braced, Budget(depth)) && position <= |data|
      ensures r.Ok? ==> position == old(position) + r.length
      decreases Budget(depth), 0, 0
    {
      ghost var s := data[position..];
      var start := position;
      position := position + 1;
      assert s[1..] == data[position..];
      Space();
      ghost var inner := position - start;
      assert s[inner..] == data[position..];
      assert position < |data| ==> s[inner] == data[position];
      if position < |data| && data[position] == Closing(braced) {
        position := position + 1;
        return Ok(Collection(braced, []), position - start);
      }
      var members := ReadMembers(decode, scan, braced, depth + 1);
      r := if members.MembersOk? then Ok(Collection(braced, members.entries), position - start) else Fail;
    }

    method ReadMembers(decode: Decoder, ghost scan: Scan, braced: bool, depth: nat) returns (r: ParsedMembers)
      requires Implements(scan, decode) && position <= |data| && 0 < depth <= VALUE_DEPTH
      modifies `position
      ensures r == ParseMembers(scan, data[old(position)..], braced, HT_MAX_SIZE, Budget(depth)) && position <= |data|
      ensures r.MembersOk? ==> position == old(position) + r.length
      decreases Budget(depth), 3
    {
      ghost var start, budget := position, Budget(depth);
      ghost var whole := ParseMembers(scan, data[start..], braced, HT_MAX_SIZE, budget);
      var begin := position;
      var entries: seq<Entry> := [];
      while true
        invariant Remains(scan, data, start, position, braced, budget, whole, entries)
        decreases |data| - position
      {
        var turn := ReadMember(decode, scan, braced, depth, begin, entries, whole);
        if turn.Done? {
          return turn.members;
        }
        entries := entries + [turn.entry];
      }
      r := MembersFail;
    }

    method ReadMember(decode: Decoder, ghost scan: Scan, braced: bool, depth: nat, start: nat, entries: seq<Entry>,
                      ghost whole: ParsedMembers)
      returns (turn: Turn)
      requires Implements(scan, decode) && position <= |data| && 0 < depth <= VALUE_DEPTH
      requires Remains(scan, data, start, position, braced, Budget(depth), whole, entries)
      modifies `position
      ensures position <= |data|
      ensures turn.Done? ==> turn.members == whole && (whole.MembersOk? ==> position == start + whole.length)
      ensures turn.Next? ==>
                old(position) < position
                && Remains(scan, data, start, position, braced, Budget(depth), whole, entries + [turn.entry])
      decreases Budget(depth), 2
    {
      ghost var at, budget := position, Budget(depth);
      if |entries| == HT_MAX_SIZE {
        NothingAhead(scan, data, start, at, braced, budget, whole, entries);
        return Done(MembersFail);
      }
      ghost var s := data[at..];
      ghost var k;
      var value, key;
      value, key, k := ReadEntry(decode, scan, braced, depth, HT_MAX_SIZE - |entries|, s);
      EntryAhead(scan, data, start, at, braced, budget, whole, entries, key, k, value);
      if value.Fail? {
        return Done(MembersFail);
      }
      turn := ReadTail(scan, braced, budget, start, at, entries, Entry(key, value.tree), whole);
    }

    // A key, if any, and its value.
    method ReadEntry(decode: Decoder, ghost scan: Scan, braced: bool, depth: nat, ghost room: nat, ghost s: Bytes)
      returns (value: Parsed, key: Key, ghost k: nat)
      requires Implements(scan, decode) && position <= |data| && 0 < depth <= VALUE_DEPTH && room > 0
      requires s == data[position..]
      modifies `position
      ensures position <= |data|
      ensures Entered(scan, s, braced, room, Budget(depth), key, k, value)
      ensures value.Ok? ==> position == old(position) + k + value.length
      decreases Budget(depth), 1, 1
    {
      ghost var at := position;
      var parsed := ReadKey(decode, scan, braced);
      if parsed.KeyFail? {
        return Fail, NoKey, 0;
      }
      key, k := parsed.key, position - at;
      JsonComplete.DropTwice(data, at, k);
      ValueAhead(scan, s, k, data[position..], braced, room, Budget(depth), key);
      value := ReadNode(decode, scan, depth);
    }

    // Behind a member: the closing bracket, or a comma.
    method ReadTail(ghost scan: Scan, braced: bool, ghost budget: nat, start: nat, ghost at: nat, entries: seq<Entry>,
                    entry: Entry, ghost whole: ParsedMembers)
      returns (turn: Turn)
      requires TailRemains(scan, data, start, at, braced, budget, whole, entries, entry, position)
      modifies `position
      ensures position <= |data|
      ensures turn.Done? ==> turn.members == whole && (whole.MembersOk? ==> position == start + whole.length)
      ensures turn.Next? ==>
                && turn.entry == entry && at < position
                && Remains(scan, data, start, position, braced, budget, whole, entries + [entry])
    {
      ghost var behind := position;
      Space();
      TailAhead(scan, data, start, at, braced, budget, whole, entries, entry, behind, position);
      if position == |data| {
        return Done(MembersFail);
      }
      var c := data[position];
      position := position + 1;
      if c == Closing(braced) {
        return Done(MembersOk(entries + [entry], position - start));
      }
      if c != 44 {
        return Done(MembersFail);
      }
      RemainsStep(scan, data, start, at, braced, budget, whole, entries, entry, behind, position - 1);
      return Next(entry);
    }
  }

  // A JSON column value of any depth allowed: accepted exactly when it is a text
  // of a value nested less deep than the budget, and then as that value.
  method ReadDocument(decode: Decoder, text: Bytes, depth: nat) returns (r: Parsed)
    ensures r == JsonSound.ParseDocument(Scalars(decode), text, Budget(depth))
  {
    var input := new JsonInput(text);
    ghost var scan := Scalars(decode);
    assert text[0..] == text;
    r := input.ReadNode(decode, scan, depth);
    if r.Ok? {
      input.Space();
      if input.position != |text| {
        r := Fail;
      }
    }
  }
}
