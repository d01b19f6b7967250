// The parser reads exactly what the grammar writes.
module JsonComplete {
  import opened Text
  import opened JsonText
  import opened JsonGrammar

  lemma Nest(a: Bytes, b: Bytes, c: Bytes, d: Bytes, rest: Bytes)
    ensures (a + (b + (c + d))) + rest == a + (b + (c + (d + rest)))
  {
  }

  lemma Drop(a: Bytes, b: Bytes)
    ensures (a + b)[|a|..] == b && (a + b)[..|a|] == a && |a + b| == |a| + |b|
  {
  }

  // How the parser tells the kinds of values apart.
  lemma BodyStarts(decode: Decoder, b: Body)
    requires BodyGood(decode, b)
    ensures BodyText(b) != [] && !JsonSpace(BodyText(b)[0])
    ensures BodyText(b)[0] !in {93 as byte, 125 as byte, 44 as byte}
    ensures BodyText(b)[0] in {91 as byte, 123 as byte} ==> b.Empty? || b.Filled?
    ensures BodyText(b)[0] == DOUBLE_QUOTE ==> b.Quoted?
  {
    match b
    case Word(json) =>
    case Numeral(n) => NumeralStarts(n);
    case Quoted(token) =>
    case Empty(braced, inner) =>
    case Filled(braced, inner, members) =>
  }

  lemma NumeralStarts(n: Numeral)
    requires NumeralValid(n)
    ensures var s := NumeralText(n); s != [] && (s[0] == 45 || Digit(s[0]) || s[0] in {110 as byte, 78 as byte, 105 as byte, 73 as byte})
    ensures NumberStart(NumeralText(n))
  {
    if !n.negative {
      assert NumeralText(n) == Unsigned(n);
      if n.Special? {
        SpecialStarts(n.word);
      }
    }
  }

  lemma SpecialStarts(w: Bytes)
    requires NumeralValid(Special(false, w))
    ensures w[0] in {110 as byte, 78 as byte, 105 as byte, 73 as byte} && (WordAt(w, NAN) || WordAt(w, INF))
  {
    assert NAN[0] == 110 && INF[0] == 105 && INFINITY[0] == 105;
    if WordAt(w, INFINITY) {
      assert forall i :: 0 <= i < 3 ==> INFINITY[i] == INF[i];
    }
    assert Lowered(w[0]) in {110, 105};
  }

  // ---- Single tokens ----

  predicate Scalar(b: Body) { b.Word? || b.Numeral? || b.Quoted? }

  ghost predicate ReadsScalar(scan: Scan, decode: Decoder, b: Body, rest: Bytes)
  {
    scan(BodyText(b) + rest) == Ok(BodyTree(decode, b), |BodyText(b)|)
  }

  // The scan reads every scalar to its end.
  ghost predicate Reads(scan: Scan, decode: Decoder)
  {
    forall b: Body, rest: Bytes | BodyGood(decode, b) && Scalar(b) && (b.Numeral? ==> Boundary(rest)) ::
      ReadsScalar(scan, decode, b, rest)
  }

  lemma CompleteWord(decode: Decoder, json: Json, rest: Bytes)
    requires json.Null? || json.Boolean?
    ensures ParseScalar(decode, WordText(json) + rest) == Ok(json, |WordText(json)|)
  {
    var s := WordText(json) + rest;
    assert s[0] in {110 as byte, 116 as byte, 102 as byte} && (s[0] == 110 ==> s[1] == 117);
    assert NAN[1] == 97 && INF[0] == 105 && NAN[0] == 110;
    assert !WordAt(s, NAN) && !WordAt(s, INF);
    assert WordText(json) <= s;
  }

  lemma CompleteNumeral(decode: Decoder, n: Numeral, rest: Bytes)
    requires NumeralValid(n) && Boundary(rest)
    ensures ParseScalar(decode, NumeralText(n) + rest) == Ok(Number(NumeralText(n)), |NumeralText(n)|)
  {
    NumeralStarts(n);
    StartsFurther(NumeralText(n), rest);
    NumberIs(n, rest);
    Drop(NumeralText(n), rest);
  }

  lemma StartsFurther(s: Bytes, rest: Bytes)
    requires NumberStart(s)
    ensures NumberStart(s + rest)
  {
    var t := s + rest;
    assert forall i :: 0 <= i < |s| ==> t[i] == s[i];
  }

  lemma CompleteToken(decode: Decoder, token: Bytes, rest: Bytes)
    requires StringToken(token) && decode(token).Decoded?
    ensures ParseScalar(decode, token + rest) == Ok(String(decode(token).text), |token|)
  {
    var body := token[1..|token| - 1];
    StringRestIs(body, rest);
    var s := token + rest;
    assert token == [DOUBLE_QUOTE] + (body + [DOUBLE_QUOTE]);
    assert s[1..] == body + ([DOUBLE_QUOTE] + rest);
    Drop(token, rest);
  }

  lemma ScalarsRead(decode: Decoder)
    ensures Reads(Scalars(decode), decode)
  {
    forall b: Body, rest: Bytes | BodyGood(decode, b) && Scalar(b) && (b.Numeral? ==> Boundary(rest))
      ensures ReadsScalar(Scalars(decode), decode, b, rest)
    {
      match b
      case Word(json) => CompleteWord(decode, json, rest);
      case Numeral(n) => CompleteNumeral(decode, n, rest);
      case Quoted(token) => CompleteToken(decode, token, rest);
    }
  }

  lemma SpaceThen(space: Bytes, more: Bytes)
    requires AllSpace(space) && more != [] && !JsonSpace(more[0])
    ensures SpaceRun(space + more) == |space|
    ensures (space + more)[|space|] == more[0] && (space + more)[|space|..] == more
  {
    SpaceRunIs(space, more);
  }

  lemma CompleteKey(scan: Scan, decode: Decoder, m: Member, braced: bool, rest: Bytes)
    requires Reads(scan, decode) && KeyGood(decode, m, braced)
    ensures ParseKey(scan, KeyText(m, braced) + rest, braced) ==
            KeyOk(KeyOf(decode, m, braced), |KeyText(m, braced)|)
  {
    if braced {
      var colon: Bytes := [COLON];
      Nest(m.before, m.token, m.between, colon, rest);
      var after := m.between + (colon + rest);
      SpaceThen(m.before, m.token + after);
      assert ReadsScalar(scan, decode, Quoted(m.token), after);
      SpaceThen(m.between, colon + rest);
      Drop(m.token, after);
      KeyRead(scan, KeyText(m, braced) + rest, |m.before|, m.token + after, decode(m.token).text, |m.token|,
              after, |m.between|);
    }
  }

  lemma DropTwice(s: Bytes, a: nat, b: nat)
    requires a + b <= |s|
    ensures s[a..][b..] == s[a + b..]
    ensures b < |s| - a ==> s[a..][b] == s[a + b]
  {
  }

  // A token found after space, and a colon after more space.
  lemma KeyRead(scan: Scan, s: Bytes, before: nat, t: Bytes, text: Bytes, n: nat, after: Bytes, between: nat)
    requires SpaceRun(s) == before < |s| && s[before..] == t && t[0] == DOUBLE_QUOTE
    requires scan(t) == Ok(String(text), n) && 0 < n <= |t| && t[n..] == after
    requires SpaceRun(after) == between < |after| && after[between] == COLON
    ensures ParseKey(scan, s, true) == KeyOk(Key(text), before + n + between + 1)
  {
    assert s[before] == t[0];
    DropTwice(s, before, n);
    ColonThen(s, text, before + n, after, between);
    TokenThen(scan, s, before, t, text, n);
  }

  lemma TokenThen(scan: Scan, s: Bytes, at: nat, t: Bytes, text: Bytes, n: nat)
    requires at <= |s| && s[at..] == t && scan(t) == Ok(String(text), n) && 0 < n <= |t|
    ensures ParseToken(scan, s, at) == ParseColon(s, text, at + n)
  {
  }

  lemma ColonThen(s: Bytes, text: Bytes, at: nat, after: Bytes, space: nat)
    requires at <= |s| && s[at..] == after
    requires SpaceRun(after) == space < |after| && after[space] == COLON
    ensures ParseColon(s, text, at) == KeyOk(Key(text), at + space + 1)
  {
    assert s[at + space] == after[space];
  }

  // ---- Values ----

  predicate Expected(r: Parsed, t: Json, n: nat, budget: nat)
  {
    r == if Fits(t, budget) then Ok(t, n) else Fail
  }

  predicate MembersExpected(r: ParsedMembers, entries: seq<Entry>, n: nat, room: nat, budget: nat)
  {
    r == if AllFit(entries, room, budget) then MembersOk(entries, n) else MembersFail
  }

  // Every text of every value is read whole and as that value, unless the value
  // is nested too deep or an array too long.
  lemma {:induction false} CompleteNode(scan: Scan, decode: Decoder, d: Node, rest: Bytes, budget: nat)
    requires Reads(scan, decode) && NodeGood(decode, d) && Boundary(rest)
    ensures Expected(ParseNode(scan, NodeText(d) + rest, budget), NodeTree(decode, d), |NodeText(d)|, budget)
    decreases d, 1
  {
    if budget > 0 {
      var text := BodyText(d.body);
      BodyStarts(decode, d.body);
      assert NodeText(d) + rest == d.lead + (text + rest);
      SpaceRunIs(d.lead, text + rest);
      Drop(d.lead, text + rest);
      CompleteBody(scan, decode, d.body, rest, budget);
    }
  }

  lemma {:induction false} CompleteBody(scan: Scan, decode: Decoder, b: Body, rest: Bytes, budget: nat)
    requires Reads(scan, decode) && BodyGood(decode, b) && Boundary(rest) && budget > 0
    ensures Expected(ParseBody(scan, BodyText(b) + rest, budget), BodyTree(decode, b), |BodyText(b)|, budget)
    decreases b, 0
  {
    BodyStarts(decode, b);
    match b
    case Word(json) => assert ReadsScalar(scan, decode, b, rest);
    case Numeral(n) => assert ReadsScalar(scan, decode, b, rest);
    case Quoted(token) => assert ReadsScalar(scan, decode, b, rest);
    case Empty(braced, inner) => CompleteEmpty(scan, decode, braced, inner, rest, budget);
    case Filled(braced, inner, members) =>
      CompleteMembers(scan, decode, members, braced, rest, HT_MAX_SIZE, budget - 1);
      CompleteFilled(scan, decode, braced, inner, members, rest, budget);
  }

  lemma CollectionStarts(scan: Scan, braced: bool, s: Bytes, budget: nat)
    requires budget > 0 && s != [] && s[0] == Opening(braced)
    ensures ParseBody(scan, s, budget) == ParseCollection(scan, s, braced, budget)
  {
  }

  lemma CompleteEmpty(scan: Scan, decode: Decoder, braced: bool, inner: Bytes, rest: Bytes, budget: nat)
    requires budget > 0 && AllSpace(inner)
    ensures ParseBody(scan, BodyText(Empty(braced, inner)) + rest, budget) ==
            Ok(Collection(braced, []), |BodyText(Empty(braced, inner))|)
  {
    var s := BodyText(Empty(braced, inner)) + rest;
    var closing: Bytes := [Closing(braced)];
    SpaceRunIs(inner, closing + rest);
    assert s[1..] == inner + (closing + rest);
    assert s[1 + |inner|] == Closing(braced);
    CollectionStarts(scan, braced, s, budget);
  }

  lemma Behind(lead: Bytes, a: Bytes, b: Bytes)
    ensures (lead + a) + b == lead + (a + b)
  {
  }

  lemma MembersUnfold(ms: Members, braced: bool, rest: Bytes)
    ensures MembersText(ms, braced) + rest ==
            KeyText(ms.member, braced) + (NodeText(ms.member.node) + (EndText(ms.ending, braced) + rest))
  {
  }

  // The first member does not look like the end.
  lemma MembersStart(decode: Decoder, ms: Members, braced: bool, rest: Bytes)
    requires MembersGood(decode, ms, braced) && FirstSpace(ms, braced) == []
    ensures var s := MembersText(ms, braced) + rest;
            s != [] && !JsonSpace(s[0]) && s[0] != Closing(braced)
  {
    var m := ms.member;
    MembersUnfold(ms, braced, rest);
    if braced {
      assert KeyText(m, braced)[0] == m.token[0] == DOUBLE_QUOTE;
    } else {
      BodyStarts(decode, m.node.body);
      assert NodeText(m.node) == BodyText(m.node.body);
    }
  }

  lemma CompleteFilled(scan: Scan, decode: Decoder, braced: bool, inner: Bytes, members: Members, rest: Bytes, budget: nat)
    requires budget > 0 && BodyGood(decode, Filled(braced, inner, members))
    requires MembersExpected(ParseMembers(scan, MembersText(members, braced) + rest, braced, HT_MAX_SIZE, budget - 1),
                             MembersTree(decode, members, braced), |MembersText(members, braced)|, HT_MAX_SIZE, budget - 1)
    ensures Expected(ParseBody(scan, BodyText(Filled(braced, inner, members)) + rest, budget),
                     BodyTree(decode, Filled(braced, inner, members)), |BodyText(Filled(braced, inner, members))|, budget)
  {
    var s := BodyText(Filled(braced, inner, members)) + rest;
    var text := MembersText(members, braced) + rest;
    MembersStart(decode, members, braced, rest);
    FilledText(braced, inner, MembersText(members, braced), rest);
    CollectionRead(scan, s, |inner|, text, braced, budget);
    FitsCollection(braced, MembersTree(decode, members, braced), budget);
  }

  lemma FilledText(braced: bool, inner: Bytes, members: Bytes, rest: Bytes)
    requires AllSpace(inner) && members + rest != [] && !JsonSpace((members + rest)[0])
    ensures var s := ([Opening(braced)] + (inner + members)) + rest;
            && s != [] && s[0] == Opening(braced) && 1 + |inner| <= |s|
            && SpaceRun(s[1..]) == |inner| && s[1 + |inner|..] == members + rest
  {
    var s := ([Opening(braced)] + (inner + members)) + rest;
    assert s[1..] == inner + (members + rest);
    SpaceThen(inner, members + rest);
  }

  lemma FitsCollection(braced: bool, entries: seq<Entry>, budget: nat)
    requires budget > 0
    ensures Fits(Collection(braced, entries), budget) <==> AllFit(entries, HT_MAX_SIZE, budget - 1)
  {
  }

  lemma CollectionRead(scan: Scan, s: Bytes, inner: nat, text: Bytes, braced: bool, budget: nat)
    requires budget > 0 && s != [] && s[0] == Opening(braced)
    requires SpaceRun(s[1..]) == inner && 1 + inner <= |s| && s[1 + inner..] == text
    requires text != [] && text[0] != Closing(braced)
    ensures var members := ParseMembers(scan, text, braced, HT_MAX_SIZE, budget - 1);
            ParseBody(scan, s, budget) ==
            if members.MembersOk? then Ok(Collection(braced, members.entries), 1 + inner + members.length) else Fail
  {
    assert s[1 + inner] == text[0];
  }

  // ---- Members ----

  lemma {:induction false} CompleteMembers(scan: Scan, decode: Decoder, ms: Members, braced: bool, rest: Bytes, room: nat, budget: nat)
    requires Reads(scan, decode) && MembersGood(decode, ms, braced)
    ensures MembersExpected(ParseMembers(scan, MembersText(ms, braced) + rest, braced, room, budget),
                            MembersTree(decode, ms, braced), |MembersText(ms, braced)|, room, budget)
    decreases ms, 2
  {
    if room > 0 {
      var m, after := ms.member, EndText(ms.ending, braced) + rest;
      EndBoundary(ms.ending, braced, rest);
      CompleteNode(scan, decode, m.node, after, budget);
      if ms.ending.Comma? {
        CompleteMembers(scan, decode, ms.ending.rest, braced, rest, room - 1, budget);
      }
      var s, k, node := MembersText(ms, braced) + rest, |KeyText(m, braced)|, NodeText(m.node);
      var entry := Entry(KeyOf(decode, m, braced), NodeTree(decode, m.node));
      MembersUnfold(ms, braced, rest);
      NodeStarts(decode, m.node);
      KeyPart(scan, decode, m, braced, node + after, s);
      Turn(scan, decode, ms.ending, braced, rest, room, budget, s, k, node, entry);
    }
  }

  ghost predicate EndExpected(scan: Scan, decode: Decoder, e: Ending, braced: bool, rest: Bytes, room: nat, budget: nat)
  {
    AllSpace(e.tail)
    && (e.Comma? ==>
          MembersExpected(ParseMembers(scan, MembersText(e.rest, braced) + rest, braced, room, budget),
                          MembersTree(decode, e.rest, braced), |MembersText(e.rest, braced)|, room, budget))
  }

  // One turn of the members loop, given what its parts make of the text.
  lemma Turn(scan: Scan, decode: Decoder, e: Ending, braced: bool, rest: Bytes, room: nat, budget: nat,
             s: Bytes, k: nat, node: Bytes, entry: Entry)
    requires room > 0 && EndExpected(scan, decode, e, braced, rest, room - 1, budget)
    requires node != [] && k <= |s| && s[k..] == node + (EndText(e, braced) + rest)
    requires ParseKey(scan, s, braced) == KeyOk(entry.key, k)
    requires Expected(ParseNode(scan, node + (EndText(e, braced) + rest), budget), entry.value, |node|, budget)
    ensures MembersExpected(ParseMembers(scan, s, braced, room, budget),
                            [entry] + EndTree(decode, e, braced), k + |node| + |EndText(e, braced)|, room, budget)
  {
    var end, more := EndText(e, braced), EndTree(decode, e, braced);
    AfterNode(s, k, node, end + rest);
    TailRead(scan, decode, e, braced, rest, room, budget, s, entry, k + |node|);
    MembersStep(scan, s, k, node, end + rest, braced, room, budget, entry, more, k + |node| + |end|);
  }

  lemma AfterNode(s: Bytes, k: nat, node: Bytes, after: Bytes)
    requires k <= |s| && s[k..] == node + after && node != []
    ensures 0 < k + |node| <= |s| && s[k + |node|..] == after
  {
    Drop(node, after);
    DropTwice(s, k, |node|);
  }

  lemma MembersStep(scan: Scan, s: Bytes, k: nat, node: Bytes, after: Bytes, braced: bool, room: nat, budget: nat,
                    entry: Entry, more: seq<Entry>, n: nat)
    requires room > 0 && node != [] && k <= |s| && s[k..] == node + after && k + |node| <= |s|
    requires ParseKey(scan, s, braced) == KeyOk(entry.key, k)
    requires Expected(ParseNode(scan, node + after, budget), entry.value, |node|, budget)
    requires ParseTail(scan, s, braced, room, budget, entry, k + |node|) ==
             if AllFit(more, room - 1, budget) then MembersOk([entry] + more, n) else MembersFail
    ensures MembersExpected(ParseMembers(scan, s, braced, room, budget), [entry] + more, n, room, budget)
  {
    MemberRead(scan, s, k, node, after, braced, room, budget, entry);
    Concluded(ParseMembers(scan, s, braced, room, budget), entry, more, n, room, budget);
  }

  lemma KeyPart(scan: Scan, decode: Decoder, m: Member, braced: bool, follow: Bytes, s: Bytes)
    requires Reads(scan, decode) && KeyGood(decode, m, braced) && s == KeyText(m, braced) + follow
    ensures |KeyText(m, braced)| <= |s| && s[|KeyText(m, braced)|..] == follow
    ensures ParseKey(scan, s, braced) == KeyOk(KeyOf(decode, m, braced), |KeyText(m, braced)|)
  {
    CompleteKey(scan, decode, m, braced, follow);
    Drop(KeyText(m, braced), follow);
  }

  lemma MemberRead(scan: Scan, s: Bytes, at: nat, node: Bytes, after: Bytes, braced: bool, room: nat, budget: nat,
                   entry: Entry)
    requires room > 0 && node != [] && at <= |s| && s[at..] == node + after
    requires ParseKey(scan, s, braced) == KeyOk(entry.key, at)
    requires Expected(ParseNode(scan, node + after, budget), entry.value, |node|, budget)
    ensures at + |node| <= |s| && s[at + |node|..] == after
    ensures ParseMembers(scan, s, braced, room, budget) ==
            if Fits(entry.value, budget) then ParseTail(scan, s, braced, room, budget, entry, at + |node|)
            else MembersFail
  {
    ValueRead(scan, s, at, node, after, braced, room, budget, entry);
    MembersUnrolled(scan, s, braced, room, budget, entry.key, at);
  }

  lemma Concluded(r: ParsedMembers, entry: Entry, more: seq<Entry>, n: nat, room: nat, budget: nat)
    requires room > 0
    requires r == if Fits(entry.value, budget)
                  then if AllFit(more, room - 1, budget) then MembersOk([entry] + more, n) else MembersFail
                  else MembersFail
    ensures MembersExpected(r, [entry] + more, n, room, budget)
  {
    AllFitSplit(entry, more, room, budget);
  }

  lemma NodeStarts(decode: Decoder, d: Node)
    requires NodeGood(decode, d)
    ensures NodeText(d) != []
  {
    BodyStarts(decode, d.body);
  }

  lemma EndBoundary(e: Ending, braced: bool, rest: Bytes)
    requires AllSpace(e.tail)
    ensures Boundary(EndText(e, braced) + rest)
  {
  }

  // A member's value is read up to its tail.
  lemma ValueRead(scan: Scan, s: Bytes, at: nat, node: Bytes, after: Bytes, braced: bool, room: nat, budget: nat,
                  entry: Entry)
    requires room > 0 && at <= |s| && s[at..] == node + after && node != []
    requires Expected(ParseNode(scan, node + after, budget), entry.value, |node|, budget)
    ensures at + |node| <= |s| && s[at + |node|..] == after
    ensures ParseValue(scan, s, braced, room, budget, entry.key, at) ==
            if Fits(entry.value, budget) then ParseTail(scan, s, braced, room, budget, entry, at + |node|)
            else MembersFail
  {
    Drop(node, after);
    DropTwice(s, at, |node|);
  }

  lemma MembersUnrolled(scan: Scan, s: Bytes, braced: bool, room: nat, budget: nat, key: Key, at: nat)
    requires room > 0 && ParseKey(scan, s, braced) == KeyOk(key, at)
    ensures at <= |s|
    ensures ParseMembers(scan, s, braced, room, budget) == ParseValue(scan, s, braced, room, budget, key, at)
  {
  }

  lemma AllFitSplit(entry: Entry, rest: seq<Entry>, room: nat, budget: nat)
    ensures AllFit([entry] + rest, room, budget) <==> room > 0 && Fits(entry.value, budget) && AllFit(rest, room - 1, budget)
  {
    var all := [entry] + rest;
    assert forall i :: 0 <= i < |rest| ==> all[i + 1] == rest[i];
    assert all[0] == entry;
  }

  lemma TailAt(s: Bytes, at: nat, tail: Bytes, c: byte, more: Bytes)
    requires at <= |s| && s[at..] == tail + ([c] + more) && AllSpace(tail) && !JsonSpace(c)
    ensures SpaceRun(s[at..]) == |tail| && at + |tail| < |s|
    ensures s[at + |tail|] == c && s[at + |tail| + 1..] == more
  {
    SpaceThen(tail, [c] + more);
    assert s[at + |tail|] == s[at..][|tail|];
    assert s[at + |tail| + 1..] == s[at..][|tail| + 1..];
  }

  lemma TailRead(scan: Scan, decode: Decoder, e: Ending, braced: bool, rest: Bytes, room: nat, budget: nat,
                 s: Bytes, entry: Entry, at: nat)
    requires room > 0 && EndExpected(scan, decode, e, braced, rest, room - 1, budget)
    requires 0 < at <= |s| && s[at..] == EndText(e, braced) + rest
    ensures ParseTail(scan, s, braced, room, budget, entry, at) ==
            if AllFit(EndTree(decode, e, braced), room - 1, budget)
            then MembersOk([entry] + EndTree(decode, e, braced), at + |EndText(e, braced)|)
            else MembersFail
  {
    EndUnfold(e, braced, rest);
    match e
    case Closed(tail) => TailAt(s, at, tail, Closing(braced), rest);
    case Comma(tail, more) => TailAt(s, at, tail, 44, MembersText(more, braced) + rest);
  }

  lemma EndUnfold(e: Ending, braced: bool, rest: Bytes)
    ensures e.Closed? ==> EndText(e, braced) + rest == e.tail + ([Closing(braced)] + rest)
    ensures e.Comma? ==> EndText(e, braced) + rest == e.tail + ([44 as byte] + (MembersText(e.rest, braced) + rest))
  {
  }
}
