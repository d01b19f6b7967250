// JSON text as it is written down, the values it denotes, and what the parser
// makes of any text.
module JsonGrammar {
  import opened Text
  import opened JsonText

  // The most entries one PHP array holds.
  const HT_MAX_SIZE: nat := 0x40000000

  datatype Decoded = Decoded(text: Bytes) | Undecodable

  function TextOf(d: Decoded): Bytes { if d.Decoded? then d.text else [] }

  // What php_json_decode_ex makes of a string token.
  type Decoder = Bytes -> Decoded

  datatype Key = NoKey | Key(text: Bytes)
  datatype Entry = Entry(key: Key, value: Json)

  // The value handed to PHP: numbers keep their spelling, objects their entries in order.
  datatype Json =
    | Null
    | Boolean(value: bool)
    | Number(spelling: Bytes)
    | String(text: Bytes)
    | Collection(braced: bool, entries: seq<Entry>)

  // ---- Written text ----

  // A value with the space before it.
  datatype Node = Node(lead: Bytes, body: Body)

  datatype Body =
    | Word(json: Json)
    | Numeral(numeral: Numeral)
    | Quoted(token: Bytes)
    | Empty(braced: bool, inner: Bytes)
    | Filled(braced: bool, inner: Bytes, members: Members)

  // Members up to the closing bracket.
  datatype Members = Members(member: Member, ending: Ending)

  // What follows a member: space, then the closing bracket or a comma and more members.
  datatype Ending = Closed(tail: Bytes) | Comma(tail: Bytes, rest: Members)

  // before, token and between stand around the key of an object's member.
  datatype Member = Member(before: Bytes, token: Bytes, between: Bytes, node: Node)

  const NULL: Bytes := [110, 117, 108, 108]
  const TRUE: Bytes := [116, 114, 117, 101]
  const FALSE: Bytes := [102, 97, 108, 115, 101]

  function Opening(braced: bool): byte { if braced then 123 else 91 }

  function Closing(braced: bool): byte { if braced then 125 else 93 }

  function WordText(json: Json): Bytes
  {
    match json
    case Null => NULL
    case Boolean(b) => if b then TRUE else FALSE
    case _ => []
  }

  function NodeText(d: Node): Bytes { d.lead + BodyText(d.body) }

  function BodyText(b: Body): Bytes
  {
    match b
    case Word(json) => WordText(json)
    case Numeral(n) => NumeralText(n)
    case Quoted(token) => token
    case Empty(braced, inner) => [Opening(braced)] + (inner + [Closing(braced)])
    case Filled(braced, inner, members) => [Opening(braced)] + (inner + MembersText(members, braced))
  }

  function KeyText(m: Member, braced: bool): Bytes
  {
    if braced then m.before + (m.token + (m.between + [COLON])) else []
  }

  function MembersText(ms: Members, braced: bool): Bytes
  {
    KeyText(ms.member, braced) + (NodeText(ms.member.node) + EndText(ms.ending, braced))
  }

  function EndText(e: Ending, braced: bool): Bytes
  {
    e.tail + (match e
              case Closed(_) => [Closing(braced)]
              case Comma(_, rest) => [44 as byte] + MembersText(rest, braced))
  }

  // The space the first member starts with; behind a bracket it counts as inner.
  function FirstSpace(ms: Members, braced: bool): Bytes
  {
    if braced then ms.member.before else ms.member.node.lead
  }

  predicate NodeGood(decode: Decoder, d: Node) { AllSpace(d.lead) && BodyGood(decode, d.body) }

  predicate BodyGood(decode: Decoder, b: Body)
  {
    match b
    case Word(json) => json.Null? || json.Boolean?
    case Numeral(n) => NumeralValid(n)
    case Quoted(token) => StringToken(token) && decode(token).Decoded?
    case Empty(_, inner) => AllSpace(inner)
    case Filled(braced, inner, members) =>
      AllSpace(inner) && MembersGood(decode, members, braced) && FirstSpace(members, braced) == []
  }

  predicate KeyGood(decode: Decoder, m: Member, braced: bool)
  {
    braced ==> AllSpace(m.before) && StringToken(m.token) && decode(m.token).Decoded? && AllSpace(m.between)
  }

  predicate MembersGood(decode: Decoder, ms: Members, braced: bool)
  {
    KeyGood(decode, ms.member, braced) && NodeGood(decode, ms.member.node) && EndGood(decode, ms.ending, braced)
  }

  predicate EndGood(decode: Decoder, e: Ending, braced: bool)
  {
    AllSpace(e.tail) && (e.Comma? ==> MembersGood(decode, e.rest, braced))
  }

  // ---- The value denoted ----

  function NodeTree(decode: Decoder, d: Node): Json
  {
    BodyTree(decode, d.body)
  }

  function BodyTree(decode: Decoder, b: Body): Json
  {
    match b
    case Word(json) => json
    case Numeral(n) => Number(NumeralText(n))
    case Quoted(token) => String(TextOf(decode(token)))
    case Empty(braced, _) => Collection(braced, [])
    case Filled(braced, _, members) => Collection(braced, MembersTree(decode, members, braced))
  }

  function KeyOf(decode: Decoder, m: Member, braced: bool): Key
  {
    if braced then Key(TextOf(decode(m.token))) else NoKey
  }

  function MembersTree(decode: Decoder, ms: Members, braced: bool): seq<Entry>
  {
    [Entry(KeyOf(decode, ms.member, braced), NodeTree(decode, ms.member.node))] + EndTree(decode, ms.ending, braced)
  }

  function EndTree(decode: Decoder, e: Ending, braced: bool): seq<Entry>
  {
    if e.Comma? then MembersTree(decode, e.rest, braced) else []
  }

  // The value fits a depth budget and PHP's arrays.
  predicate Fits(t: Json, budget: nat)
  {
    budget > 0
    && (t.Collection? ==>
          |t.entries| <= HT_MAX_SIZE && forall i :: 0 <= i < |t.entries| ==> Fits(t.entries[i].value, budget - 1))
  }

  predicate AllFit(entries: seq<Entry>, room: nat, budget: nat)
  {
    |entries| <= room && forall i :: 0 <= i < |entries| ==> Fits(entries[i].value, budget)
  }

  // ---- What the parser makes of text ----

  datatype Parsed = Ok(tree: Json, length: nat) | Fail

  datatype ParsedKey = KeyOk(key: Key, length: nat) | KeyFail

  datatype ParsedMembers = MembersOk(entries: seq<Entry>, length: nat) | MembersFail

  // What reads a string, a number or a word at the start of a text.
  type Scan = Bytes -> Parsed

  predicate NumberStart(s: Bytes)
  {
    s != [] && (s[0] == 45 || Digit(s[0]) || WordAt(s, NAN) || WordAt(s, INF))
  }

  function ParseString(decode: Decoder, s: Bytes): (r: Parsed)
    requires s != [] && s[0] == DOUBLE_QUOTE
    ensures r.Ok? ==> r.tree.String? && 0 < r.length <= |s|
  {
    var n := StringRest(s[1..]);
    if n == 0 || decode(s[..n + 1]).Undecodable? then Fail
    else Ok(String(decode(s[..n + 1]).text), n + 1)
  }

  function ParseWord(s: Bytes): (r: Parsed)
    ensures r.Ok? ==> 0 < r.length <= |s|
  {
    if NULL <= s then Ok(Null, 4)
    else if TRUE <= s then Ok(Boolean(true), 4)
    else if FALSE <= s then Ok(Boolean(false), 5)
    else Fail
  }

  function ParseScalar(decode: Decoder, s: Bytes): (r: Parsed)
    ensures r.Ok? ==> 0 < r.length <= |s|
  {
    if s == [] then Fail
    else if s[0] == DOUBLE_QUOTE then ParseString(decode, s)
    else if NumberStart(s) then
      if NumberLength(s) == 0 then Fail else Ok(Number(s[..NumberLength(s)]), NumberLength(s))
    else ParseWord(s)
  }

  function Scalars(decode: Decoder): Scan { s => ParseScalar(decode, s) }

  function Checked(r: Parsed, s: Bytes): (c: Parsed)
    ensures c.Ok? ==> 0 < c.length <= |s|
  {
    if r.Ok? && 0 < r.length <= |s| then r else Fail
  }

  function ParseNode(scan: Scan, s: Bytes, budget: nat): (r: Parsed)
    ensures r.Ok? ==> 0 < r.length <= |s|
    decreases budget, 1, |s|
  {
    if budget == 0 then Fail
    else
      var lead := SpaceRun(s);
      var body := ParseBody(scan, s[lead..], budget);
      if body.Ok? then Ok(body.tree, lead + body.length) else Fail
  }

  function ParseBody(scan: Scan, s: Bytes, budget: nat): (r: Parsed)
    requires budget > 0
    ensures r.Ok? ==> 0 < r.length <= |s|
    decreases budget, 0, |s|
  {
    if s == [] then Fail
    else if s[0] == Opening(true) || s[0] == Opening(false) then
      ParseCollection(scan, s, s[0] == Opening(true), budget)
    else Checked(scan(s), s)
  }

  function ParseCollection(scan: Scan, s: Bytes, braced: bool, budget: nat): (r: Parsed)
    requires budget > 0 && s != []
    ensures r.Ok? ==> 0 < r.length <= |s|
    decreases budget, 0, 0
  {
    var inner := 1 + SpaceRun(s[1..]);
    if inner < |s| && s[inner] == Closing(braced) then Ok(Collection(braced, []), inner + 1)
    else
      var members := ParseMembers(scan, s[inner..], braced, HT_MAX_SIZE, budget - 1);
      if members.MembersOk? then Ok(Collection(braced, members.entries), inner + members.length) else Fail
  }

  // The result for members behind one that took n bytes.
  function Prepended(entry: Entry, n: nat, rest: ParsedMembers): ParsedMembers
  {
    if rest.MembersOk? then MembersOk([entry] + rest.entries, n + rest.length) else MembersFail
  }

  function ParseKey(scan: Scan, s: Bytes, braced: bool): (r: ParsedKey)
    ensures r.KeyOk? ==> r.length <= |s|
  {
    if !braced then KeyOk(NoKey, 0)
    else
      var before := SpaceRun(s);
      if before == |s| || s[before] != DOUBLE_QUOTE then KeyFail else ParseToken(scan, s, before)
  }

  // The key itself, at position at.
  function ParseToken(scan: Scan, s: Bytes, at: nat): (r: ParsedKey)
    requires at <= |s|
    ensures r.KeyOk? ==> r.length <= |s|
  {
    var token := Checked(scan(s[at..]), s[at..]);
    if token.Fail? || !token.tree.String? then KeyFail else ParseColon(s, token.tree.text, at + token.length)
  }

  // After a key that ends at position at comes the colon.
  function ParseColon(s: Bytes, text: Bytes, at: nat): (r: ParsedKey)
    requires at <= |s|
    ensures r.KeyOk? ==> r.length <= |s|
  {
    var colon := at + SpaceRun(s[at..]);
    if colon == |s| || s[colon] != COLON then KeyFail else KeyOk(Key(text), colon + 1)
  }

  function ParseMembers(scan: Scan, s: Bytes, braced: bool, room: nat, budget: nat): (r: ParsedMembers)
    ensures r.MembersOk? ==> 0 < r.length <= |s|
    decreases budget, 2, |s|
  {
    if room == 0 then MembersFail
    else
      var key := ParseKey(scan, s, braced);
      if key.KeyFail? then MembersFail
      else ParseValue(scan, s, braced, room, budget, key.key, key.length)
  }

  // After a key that ends at position at comes the member's value.
  function ParseValue(scan: Scan, s: Bytes, braced: bool, room: nat, budget: nat, key: Key, at: nat): (r: ParsedMembers)
    requires at <= |s| && room > 0
    ensures r.MembersOk? ==> 0 < r.length <= |s|
    decreases budget, 2, |s|, 1
  {
    var value := ParseNode(scan, s[at..], budget);
    if value.Fail? then MembersFail
    else ParseTail(scan, s, braced, room, budget, Entry(key, value.tree), at + value.length)
  }

  // After a member that ends at position at comes the closing bracket or a comma and another.
  function ParseTail(scan: Scan, s: Bytes, braced: bool, room: nat, budget: nat, entry: Entry, at: nat): (r: ParsedMembers)
    requires 0 < at <= |s| && room > 0
    ensures r.MembersOk? ==> 0 < r.length <= |s|
    decreases budget, 2, |s|, 0
  {
    var next := at + SpaceRun(s[at..]);
    if next == |s| then MembersFail
    else if s[next] == Closing(braced) then MembersOk([entry], next + 1)
    else if s[next] != 44 then MembersFail
    else
      Prepended(entry, next + 1, ParseMembers(scan, s[next + 1..], braced, room - 1, budget))
  }
}
