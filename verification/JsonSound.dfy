// Whatever the parser accepts is written by the grammar, and denotes the value
// it returns; with completeness, it accepts exactly the texts that fit.
module JsonSound {
  import opened Text
  import opened JsonText
  import opened JsonGrammar
  import JsonComplete

  lemma Cut(s: Bytes, a: nat, b: nat)
    requires a <= b <= |s|
    ensures s[..a] + s[a..b] == s[..b]
    ensures s[a..][..b - a] == s[a..b]
  {
  }

  ghost predicate Written(scan: Scan, decode: Decoder, s: Bytes, b: Body)
  {
    && JsonComplete.Scalar(b) && BodyGood(decode, b)
    && scan(s) == Ok(BodyTree(decode, b), |BodyText(b)|) && BodyText(b) <= s
  }

  // The scan reads nothing but scalars.
  ghost predicate Faithful(scan: Scan, decode: Decoder)
  {
    forall s :: scan(s).Ok? ==> exists b :: Written(scan, decode, s, b)
  }

  lemma TokenSound(decode: Decoder, s: Bytes)
    requires s != [] && s[0] == DOUBLE_QUOTE && ParseString(decode, s).Ok?
    ensures var n := ParseString(decode, s).length;
            StringToken(s[..n]) && decode(s[..n]) == Decoded(ParseString(decode, s).tree.text)
  {
    StringRestBody(s[1..]);
    var n := StringRest(s[1..]) + 1;
    assert s[..n][1..n - 1] == s[1..][..n - 2];
    assert s[n - 1] == s[1..][n - 2];
  }

  lemma ScalarSound(decode: Decoder, s: Bytes) returns (b: Body)
    requires ParseScalar(decode, s).Ok?
    ensures JsonComplete.Scalar(b) && BodyGood(decode, b) && BodyText(b) <= s
    ensures ParseScalar(decode, s) == Ok(BodyTree(decode, b), |BodyText(b)|)
  {
    if s[0] == DOUBLE_QUOTE {
      TokenSound(decode, s);
      b := Quoted(s[..ParseString(decode, s).length]);
    } else if NumberStart(s) {
      var n := NumberRead(s);
      b := Numeral(n);
    } else {
      b := Word(ParseWord(s).tree);
    }
  }

  lemma ScalarsFaithful(decode: Decoder)
    ensures Faithful(Scalars(decode), decode)
  {
    forall s | Scalars(decode)(s).Ok?
      ensures exists b :: Written(Scalars(decode), decode, s, b)
    {
      var b := ScalarSound(decode, s);
      assert Written(Scalars(decode), decode, s, b);
    }
  }

  lemma {:induction false} NodeSound(scan: Scan, decode: Decoder, s: Bytes, budget: nat) returns (d: Node)
    requires Faithful(scan, decode) && ParseNode(scan, s, budget).Ok?
    ensures NodeGood(decode, d) && NodeTree(decode, d) == ParseNode(scan, s, budget).tree
    ensures NodeText(d) == s[..ParseNode(scan, s, budget).length] && d.lead == s[..SpaceRun(s)]
    decreases budget, 1, |s|
  {
    var lead := SpaceRun(s);
    SpaceRunSpace(s);
    var body := BodySound(scan, decode, s[lead..], budget);
    d := Node(s[..lead], body);
    var n := lead + ParseBody(scan, s[lead..], budget).length;
    Cut(s, lead, n);
  }

  lemma {:induction false} BodySound(scan: Scan, decode: Decoder, s: Bytes, budget: nat) returns (b: Body)
    requires Faithful(scan, decode) && budget > 0 && ParseBody(scan, s, budget).Ok?
    ensures BodyGood(decode, b) && BodyTree(decode, b) == ParseBody(scan, s, budget).tree
    ensures BodyText(b) == s[..ParseBody(scan, s, budget).length]
    decreases budget, 0, |s|
  {
    if s[0] == Opening(true) || s[0] == Opening(false) {
      b := CollectionSound(scan, decode, s, s[0] == Opening(true), budget);
    } else {
      b :| Written(scan, decode, s, b);
    }
  }

  lemma {:induction false} CollectionSound(scan: Scan, decode: Decoder, s: Bytes, braced: bool, budget: nat) returns (b: Body)
    requires Faithful(scan, decode) && budget > 0 && s != [] && s[0] == Opening(braced) && ParseCollection(scan, s, braced, budget).Ok?
    ensures BodyGood(decode, b) && BodyTree(decode, b) == ParseCollection(scan, s, braced, budget).tree
    ensures BodyText(b) == s[..ParseCollection(scan, s, braced, budget).length]
    decreases budget, 0, 0
  {
    var inner := SpaceRun(s[1..]);
    if 1 + inner < |s| && s[1 + inner] == Closing(braced) {
      SpaceRunSpace(s[1..]);
      b := Empty(braced, s[1..][..inner]);
      assert s[..inner + 2] == [s[0]] + (s[1..][..inner] + [s[1 + inner]]);
    } else {
      SpaceRunSpace(s[1..]);
      var text := s[1 + inner..];
      JsonComplete.DropTwice(s, 1, inner);
      assert SpaceRun(text) == 0;
      var members := MembersSound(scan, decode, text, braced, HT_MAX_SIZE, budget - 1);
      b := Filled(braced, s[1..][..inner], members);
      var n := ParseMembers(scan, text, braced, HT_MAX_SIZE, budget - 1).length;
      CollectionJoined(s, inner, n);
    }
  }

  lemma CollectionJoined(s: Bytes, inner: nat, n: nat)
    requires 1 + inner + n <= |s|
    ensures [s[0]] + (s[1..][..inner] + s[1 + inner..][..n]) == s[..1 + inner + n]
  {
    Joined(s, 1, inner, n);
    assert s[..1] == [s[0]];
  }

  lemma TokenPart(scan: Scan, decode: Decoder, s: Bytes) returns (token: Bytes)
    requires Faithful(scan, decode) && s != [] && s[0] == DOUBLE_QUOTE && scan(s).Ok?
    ensures StringToken(token) && decode(token).Decoded? && token <= s
    ensures scan(s) == Ok(String(decode(token).text), |token|)
  {
    var b :| Written(scan, decode, s, b);
    JsonComplete.BodyStarts(decode, b);
    assert BodyText(b)[0] == s[0];
    token := BodyText(b);
  }

  lemma ColonPart(s: Bytes, text: Bytes, at: nat) returns (between: Bytes)
    requires at <= |s| && ParseColon(s, text, at).KeyOk?
    ensures AllSpace(between) && at + |between| < |s|
    ensures between + [COLON] == s[at..][..|between| + 1]
    ensures ParseColon(s, text, at) == KeyOk(Key(text), at + |between| + 1)
  {
    var c := SpaceRun(s[at..]);
    SpaceRunSpace(s[at..]);
    between := s[at..][..c];
    assert s[at..][c] == s[at + c];
  }

  lemma KeySound(scan: Scan, decode: Decoder, s: Bytes) returns (before: Bytes, token: Bytes, between: Bytes)
    requires Faithful(scan, decode) && ParseKey(scan, s, true).KeyOk?
    ensures AllSpace(before) && StringToken(token) && decode(token).Decoded? && AllSpace(between)
    ensures var n := ParseKey(scan, s, true).length;
            ParseKey(scan, s, true).key == Key(decode(token).text)
            && before + (token + (between + [COLON])) == s[..n] && before == s[..SpaceRun(s)]
  {
    var a := SpaceRun(s);
    SpaceRunSpace(s);
    KeyParsed(scan, s);
    before := s[..a];
    token := TokenPart(scan, decode, s[a..]);
    between := KeyColon(scan, s, a, decode(token).text, |token|);
    KeyJoined(s, a, token, between + [COLON]);
  }

  // What stands between a key of n bytes at a and its value.
  lemma KeyColon(scan: Scan, s: Bytes, a: nat, text: Bytes, n: nat) returns (between: Bytes)
    requires a < |s| && ParseToken(scan, s, a).KeyOk? && scan(s[a..]) == Ok(String(text), n) && 0 < n <= |s| - a
    ensures AllSpace(between) && ParseToken(scan, s, a).key == Key(text)
    ensures a + n + |between| + 1 == ParseToken(scan, s, a).length && between + [COLON] <= s[a + n..]
  {
    JsonComplete.TokenThen(scan, s, a, s[a..], text, n);
    between := ColonPart(s, text, a + n);
  }

  lemma KeyParsed(scan: Scan, s: Bytes)
    requires ParseKey(scan, s, true).KeyOk?
    ensures var a := SpaceRun(s);
            && a < |s| && s[a..][0] == DOUBLE_QUOTE && scan(s[a..]).Ok?
            && ParseKey(scan, s, true) == ParseToken(scan, s, a)
  {
    var a := SpaceRun(s);
    assert s[a..][0] == s[a];
  }

  lemma KeyJoined(s: Bytes, a: nat, token: Bytes, end: Bytes)
    requires a <= |s| && token <= s[a..]
    requires end <= s[a + |token|..]
    ensures a + |token| + |end| <= |s| && s[..a] + (token + end) == s[..a + |token| + |end|]
  {
    Prefixed(s, a, |token|, end);
    assert s[a..][..|token|] == token;
    Prefixed(s, 0, a, token + end);
    assert s[0..] == s;
  }

  lemma {:induction false} MembersSound(scan: Scan, decode: Decoder, s: Bytes, braced: bool, room: nat, budget: nat) returns (ms: Members)
    requires Faithful(scan, decode) && ParseMembers(scan, s, braced, room, budget).MembersOk?
    ensures MembersGood(decode, ms, braced)
    ensures var r := ParseMembers(scan, s, braced, room, budget);
            MembersTree(decode, ms, braced) == r.entries
            && MembersText(ms, braced) == s[..r.length] && FirstSpace(ms, braced) == s[..SpaceRun(s)]
    decreases budget, 2, |s|
  {
    var k, before, token, between := MemberKey(scan, decode, s, braced);
    JsonComplete.MembersUnrolled(scan, s, braced, room, budget, ParseKey(scan, s, braced).key, k);
    var node := NodeSound(scan, decode, s[k..], budget);
    var n := ParseNode(scan, s[k..], budget).length;
    var entry := Entry(ParseKey(scan, s, braced).key, NodeTree(decode, node));
    var e := TailSound(scan, decode, s, braced, room, budget, entry, k + n);
    assert !braced ==> s[k..] == s;
    ms := Assembled(decode, s, braced, k, n, Member(before, token, between, node), e,
                    ParseMembers(scan, s, braced, room, budget));
  }

  lemma Assembled(decode: Decoder, s: Bytes, braced: bool, k: nat, n: nat, m: Member, e: Ending, r: ParsedMembers)
    returns (ms: Members)
    requires KeyGood(decode, m, braced) && NodeGood(decode, m.node) && EndGood(decode, e, braced)
    requires k + n <= |s| && KeyText(m, braced) == s[..k] && NodeText(m.node) == s[k..][..n]
    requires (if braced then m.before else m.node.lead) == s[..SpaceRun(s)]
    requires EndText(e, braced) <= s[k + n..] && r.MembersOk? && r.length == k + n + |EndText(e, braced)|
    requires r.entries == [Entry(KeyOf(decode, m, braced), NodeTree(decode, m.node))] + EndTree(decode, e, braced)
    ensures MembersGood(decode, ms, braced) && MembersTree(decode, ms, braced) == r.entries
    ensures MembersText(ms, braced) == s[..r.length] && FirstSpace(ms, braced) == s[..SpaceRun(s)]
  {
    ms := Members(m, e);
    MemberJoined(s, k, n, EndText(e, braced));
  }

  lemma MemberKey(scan: Scan, decode: Decoder, s: Bytes, braced: bool)
    returns (k: nat, before: Bytes, token: Bytes, between: Bytes)
    requires Faithful(scan, decode) && ParseKey(scan, s, braced).KeyOk?
    ensures ParseKey(scan, s, braced).length == k <= |s| && (!braced ==> k == 0)
    ensures forall node :: KeyGood(decode, Member(before, token, between, node), braced)
                           && KeyText(Member(before, token, between, node), braced) == s[..k]
                           && KeyOf(decode, Member(before, token, between, node), braced) == ParseKey(scan, s, braced).key
    ensures braced ==> before == s[..SpaceRun(s)]
  {
    k, before, token, between := ParseKey(scan, s, braced).length, [], [], [];
    if braced {
      before, token, between := KeySound(scan, decode, s);
    }
  }

  lemma MemberJoined(s: Bytes, k: nat, n: nat, end: Bytes)
    requires k + n <= |s| && end <= s[k + n..]
    ensures k + n + |end| <= |s| && s[..k] + (s[k..][..n] + end) == s[..k + n + |end|]
  {
    TailJoined(s, k, n, 0, end);
    assert s[k + n..][..0] + end == end;
  }

  lemma {:induction false} TailSound(scan: Scan, decode: Decoder, s: Bytes, braced: bool, room: nat, budget: nat,
                                     entry: Entry, at: nat) returns (e: Ending)
    requires Faithful(scan, decode) && 0 < at <= |s| && room > 0
    requires ParseTail(scan, s, braced, room, budget, entry, at).MembersOk?
    ensures EndGood(decode, e, braced) && EndText(e, braced) <= s[at..]
    ensures ParseTail(scan, s, braced, room, budget, entry, at) ==
            MembersOk([entry] + EndTree(decode, e, braced), at + |EndText(e, braced)|)
    decreases budget, 2, |s|, 0
  {
    var t := SpaceRun(s[at..]);
    SpaceRunSpace(s[at..]);
    var tail := s[at..][..t];
    if s[at + t] == Closing(braced) {
      e := Closed(tail);
      Prefixed(s, at, t, [Closing(braced)]);
    } else {
      var rest := MembersSound(scan, decode, s[at + t + 1..], braced, room - 1, budget);
      e := Comma(tail, rest);
      CommaJoined(s, at + t, MembersText(rest, braced));
      Prefixed(s, at, t, [44] + MembersText(rest, braced));
    }
  }

  lemma CommaJoined(s: Bytes, next: nat, text: Bytes)
    requires next < |s| && s[next] == 44 && text <= s[next + 1..]
    ensures [44] + text <= s[next..]
  {
    assert s[next..] == [44] + s[next + 1..];
  }

  lemma Prefixed(s: Bytes, a: nat, b: nat, rest: Bytes)
    requires a + b <= |s| && rest <= s[a + b..]
    ensures s[a..][..b] + rest <= s[a..]
  {
    assert s[a..] == s[a..][..b] + s[a + b..];
  }

  lemma TailJoined(s: Bytes, k: nat, n: nat, t: nat, end: Bytes)
    requires k + n + t <= |s| && end <= s[k + n + t..]
    ensures k + n + t + |end| <= |s|
    ensures s[..k] + (s[k..][..n] + (s[k + n..][..t] + end)) == s[..k + n + t + |end|]
  {
    Prefixed(s, k + n, t, end);
    var a := s[k + n..][..t] + end;
    Prefixed(s, k, n, a);
    var b := s[k..][..n] + a;
    Prefixed(s, 0, k, b);
    assert s[0..] == s;
  }

  // ---- Documents ----

  // A JSON column value: one value with space on both sides.
  function ParseDocument(scan: Scan, s: Bytes, budget: nat): Parsed
  {
    var r := ParseNode(scan, s, budget);
    if r.Ok? && r.length + SpaceRun(s[r.length..]) == |s| then r else Fail
  }

  ghost predicate Writes(decode: Decoder, d: Node, tail: Bytes, s: Bytes)
  {
    NodeGood(decode, d) && AllSpace(tail) && s == NodeText(d) + tail
  }

  // A text of a value is accepted if and only if the value fits, and then as that value.
  lemma DocumentComplete(decode: Decoder, d: Node, tail: Bytes, s: Bytes, budget: nat)
    requires Writes(decode, d, tail, s)
    ensures ParseDocument(Scalars(decode), s, budget) ==
            if Fits(NodeTree(decode, d), budget) then Ok(NodeTree(decode, d), |NodeText(d)|) else Fail
  {
    JsonComplete.ScalarsRead(decode);
    JsonComplete.CompleteNode(Scalars(decode), decode, d, tail, budget);
    JsonComplete.Drop(NodeText(d), tail);
    SpaceRunIs(tail, []);
    assert tail + [] == tail;
  }

  // And only texts of values are.
  lemma DocumentSound(decode: Decoder, s: Bytes, budget: nat) returns (d: Node, tail: Bytes)
    requires ParseDocument(Scalars(decode), s, budget).Ok?
    ensures Writes(decode, d, tail, s)
    ensures NodeTree(decode, d) == ParseDocument(Scalars(decode), s, budget).tree
    ensures Fits(NodeTree(decode, d), budget)
  {
    ScalarsFaithful(decode);
    d, tail := DocumentWritten(Scalars(decode), decode, s, budget);
    DocumentComplete(decode, d, tail, s, budget);
  }

  lemma DocumentWritten(scan: Scan, decode: Decoder, s: Bytes, budget: nat) returns (d: Node, tail: Bytes)
    requires Faithful(scan, decode) && ParseDocument(scan, s, budget).Ok?
    ensures Writes(decode, d, tail, s) && NodeTree(decode, d) == ParseDocument(scan, s, budget).tree
  {
    d := NodeSound(scan, decode, s, budget);
    tail := Trailing(s, ParseNode(scan, s, budget).length);
  }

  lemma Trailing(s: Bytes, n: nat) returns (tail: Bytes)
    requires n <= |s| && n + SpaceRun(s[n..]) == |s|
    ensures AllSpace(tail) && s == s[..n] + tail
  {
    tail := s[n..];
    SpaceRunSpace(tail);
    assert tail[..|tail|] == tail;
  }

  // No text that fits denotes two values.
  lemma Unambiguous(decode: Decoder, d: Node, e: Node, tail: Bytes, last: Bytes, s: Bytes, budget: nat)
    requires Writes(decode, d, tail, s) && Writes(decode, e, last, s) && Fits(NodeTree(decode, d), budget)
    ensures NodeTree(decode, d) == NodeTree(decode, e)
  {
    DocumentComplete(decode, d, tail, s, budget);
    DocumentComplete(decode, e, last, s, budget);
  }
}
