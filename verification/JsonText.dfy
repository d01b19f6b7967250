// The tokens of JSON text: space, strings and numbers, with DuckDB's NaN and
// infinities.
module JsonText {
  import opened Text
  import opened Digits

  predicate JsonSpace(c: int) { c == 32 || c == 9 || c == 13 || c == 10 }

  predicate AllSpace(s: Bytes) { forall i :: 0 <= i < |s| ==> JsonSpace(s[i]) }

  function SpaceRun(s: Bytes): (n: nat)
    ensures n <= |s|
  {
    if s == [] || !JsonSpace(s[0]) then 0 else 1 + SpaceRun(s[1..])
  }

  lemma {:induction false} SpaceRunIs(space: Bytes, rest: Bytes)
    requires AllSpace(space) && (rest == [] || !JsonSpace(rest[0]))
    ensures SpaceRun(space + rest) == |space|
  {
    if space == [] {
      assert space + rest == rest;
    } else {
      SpaceRunIs(space[1..], rest);
      assert (space + rest)[1..] == space[1..] + rest;
    }
  }

  lemma {:induction false} SpaceRunSpace(s: Bytes)
    ensures AllSpace(s[..SpaceRun(s)])
    ensures SpaceRun(s) < |s| ==> !JsonSpace(s[SpaceRun(s)])
  {
    if s != [] && JsonSpace(s[0]) {
      SpaceRunSpace(s[1..]);
      assert s[..SpaceRun(s)] == [s[0]] + s[1..][..SpaceRun(s[1..])];
    }
  }

  // ---- Strings ----

  // The rest of a string whose opening quote has been read, or 0 if it never ends.
  function StringRest(s: Bytes): (n: nat)
    ensures n <= |s|
    decreases |s|
  {
    if s == [] then 0
    else if s[0] == BACKSLASH then
      if |s| == 1 || StringRest(s[2..]) == 0 then 0 else 2 + StringRest(s[2..])
    else if s[0] == DOUBLE_QUOTE then 1
    else if StringRest(s[1..]) == 0 then 0
    else 1 + StringRest(s[1..])
  }

  // What may stand between the quotes: no bare quote, no bare backslash.
  predicate StringBody(s: Bytes)
    decreases |s|
  {
    if s == [] then true
    else if s[0] == BACKSLASH then |s| > 1 && StringBody(s[2..])
    else s[0] != DOUBLE_QUOTE && StringBody(s[1..])
  }

  predicate StringToken(s: Bytes)
  {
    |s| >= 2 && s[0] == DOUBLE_QUOTE && s[|s| - 1] == DOUBLE_QUOTE && StringBody(s[1..|s| - 1])
  }

  lemma {:induction false} StringRestIs(body: Bytes, rest: Bytes)
    requires StringBody(body)
    ensures StringRest(body + ([DOUBLE_QUOTE] + rest)) == |body| + 1
    decreases |body|
  {
    var s := body + ([DOUBLE_QUOTE] + rest);
    if body == [] {
      assert s[0] == DOUBLE_QUOTE;
    } else if body[0] == BACKSLASH {
      StringRestIs(body[2..], rest);
      assert s[2..] == body[2..] + ([DOUBLE_QUOTE] + rest);
    } else {
      StringRestIs(body[1..], rest);
      assert s[1..] == body[1..] + ([DOUBLE_QUOTE] + rest);
    }
  }

  lemma {:induction false} StringRestBody(s: Bytes)
    requires StringRest(s) > 0
    ensures s[StringRest(s) - 1] == DOUBLE_QUOTE && StringBody(s[..StringRest(s) - 1])
    decreases |s|
  {
    var n := StringRest(s);
    if s[0] == BACKSLASH {
      StringRestBody(s[2..]);
      assert s[..n - 1][2..] == s[2..][..n - 3];
    } else if s[0] != DOUBLE_QUOTE {
      StringRestBody(s[1..]);
      assert s[..n - 1][1..] == s[1..][..n - 2];
    }
  }

  // ---- Numbers ----

  const NAN: Bytes := [110, 97, 110]
  const INF: Bytes := [105, 110, 102]
  const INFINITY: Bytes := [105, 110, 102, 105, 110, 105, 116, 121]

  // The byte with the bit 0x20 set.
  function Lowered(c: byte): int
  {
    if (c / 32) % 2 == 0 then c + 32 else c
  }

  predicate WordAt(s: Bytes, word: Bytes)
  {
    |word| <= |s| && forall i :: 0 <= i < |word| ==> Lowered(s[i]) == word[i]
  }

  function DigitRun(s: Bytes): (n: nat)
    ensures n <= |s|
  {
    if s == [] || !Digit(s[0]) then 0 else 1 + DigitRun(s[1..])
  }

  function WholeLength(s: Bytes): (n: nat)
    ensures n <= |s|
  {
    if s == [] then 0 else if s[0] == 48 then 1 else DigitRun(s)
  }

  // The length of a fraction, or -1 if a point stands without digits.
  function FractionLength(s: Bytes): (n: int)
    ensures n <= |s|
  {
    if s == [] || s[0] != 46 then 0
    else if DigitRun(s[1..]) == 0 then -1
    else 1 + DigitRun(s[1..])
  }

  predicate Sign(c: int) { c == 43 || c == 45 }

  function ExponentLength(s: Bytes): (n: int)
    ensures n <= |s|
  {
    if s == [] || (s[0] != 101 && s[0] != 69) then 0
    else
      var sign := if |s| > 1 && Sign(s[1]) then 2 else 1;
      if DigitRun(s[sign..]) == 0 then -1 else sign + DigitRun(s[sign..])
  }

  function DecimalLength(s: Bytes): (n: nat)
    ensures n <= |s|
  {
    var whole := WholeLength(s);
    if whole == 0 then 0
    else
      var fraction := FractionLength(s[whole..]);
      if fraction < 0 then 0
      else
        var exponent := ExponentLength(s[whole + fraction..]);
        if exponent < 0 then 0 else whole + fraction + exponent
  }

  function UnsignedLength(s: Bytes): (n: nat)
    ensures n <= |s|
  {
    if WordAt(s, NAN) then 3
    else if WordAt(s, INFINITY) then 8
    else if WordAt(s, INF) then 3
    else DecimalLength(s)
  }

  // The number s starts with, or 0.
  function NumberLength(s: Bytes): (n: nat)
    ensures n <= |s|
  {
    var sign := if s != [] && s[0] == 45 then 1 else 0;
    if UnsignedLength(s[sign..]) == 0 then 0 else sign + UnsignedLength(s[sign..])
  }

  // A number taken apart.
  datatype Numeral =
    | Special(negative: bool, word: Bytes)
    | Decimal(negative: bool, whole: Bytes, fraction: Bytes, exponent: Bytes)

  predicate WholeValid(w: Bytes) { w == [48] || (w != [] && AllDigits(w) && w[0] != 48) }

  predicate FractionValid(f: Bytes) { f == [] || (|f| > 1 && f[0] == 46 && AllDigits(f[1..])) }

  predicate ExponentValid(e: Bytes)
  {
    e == []
    || (|e| > 1 && (e[0] == 101 || e[0] == 69)
        && (if Sign(e[1]) then |e| > 2 && AllDigits(e[2..]) else AllDigits(e[1..])))
  }

  predicate NumeralValid(n: Numeral)
  {
    match n
    case Special(_, w) =>
      (|w| == 3 && (WordAt(w, NAN) || WordAt(w, INF))) || (|w| == 8 && WordAt(w, INFINITY))
    case Decimal(_, w, f, e) => WholeValid(w) && FractionValid(f) && ExponentValid(e)
  }

  function Unsigned(n: Numeral): Bytes
  {
    match n
    case Special(_, w) => w
    case Decimal(_, w, f, e) => w + (f + e)
  }

  function NumeralText(n: Numeral): Bytes
  {
    (if n.negative then [45] else []) + Unsigned(n)
  }

  // A number ends before space, a comma or a closing bracket.
  predicate Boundary(s: Bytes)
  {
    s == [] || JsonSpace(s[0]) || s[0] == 44 || s[0] == 93 || s[0] == 125
  }

  lemma {:induction false} DigitRunIs(digits: Bytes, rest: Bytes)
    requires AllDigits(digits) && (rest == [] || !Digit(rest[0]))
    ensures DigitRun(digits + rest) == |digits|
  {
    if digits == [] {
      assert digits + rest == rest;
    } else {
      DigitRunIs(digits[1..], rest);
      assert (digits + rest)[1..] == digits[1..] + rest;
    }
  }

  lemma {:induction false} DigitRunDigits(s: Bytes)
    ensures AllDigits(s[..DigitRun(s)])
  {
    if s != [] && Digit(s[0]) {
      DigitRunDigits(s[1..]);
      assert s[..DigitRun(s)] == [s[0]] + s[1..][..DigitRun(s[1..])];
    }
  }

  lemma WholeIs(w: Bytes, rest: Bytes)
    requires WholeValid(w) && (rest == [] || !Digit(rest[0]))
    ensures WholeLength(w + rest) == |w|
  {
    if w != [48] {
      DigitRunIs(w, rest);
    }
  }

  lemma FractionIs(f: Bytes, rest: Bytes)
    requires FractionValid(f) && (rest == [] || (!Digit(rest[0]) && rest[0] != 46))
    ensures FractionLength(f + rest) == |f|
  {
    if f == [] {
      assert f + rest == rest;
    } else {
      DigitRunIs(f[1..], rest);
      assert (f + rest)[1..] == f[1..] + rest;
    }
  }

  lemma ExponentIs(e: Bytes, rest: Bytes)
    requires ExponentValid(e) && Boundary(rest)
    ensures ExponentLength(e + rest) == |e|
  {
    if e == [] {
      assert e + rest == rest;
    } else if Sign(e[1]) {
      DigitRunIs(e[2..], rest);
      assert (e + rest)[2..] == e[2..] + rest;
    } else {
      DigitRunIs(e[1..], rest);
      assert (e + rest)[1..] == e[1..] + rest;
    }
  }

  lemma ExponentStarts(e: Bytes, rest: Bytes)
    requires ExponentValid(e) && Boundary(rest)
    ensures e + rest == [] || (!Digit((e + rest)[0]) && (e + rest)[0] != 46)
  {
    if e == [] {
      assert e + rest == rest;
    } else {
      assert (e + rest)[0] == e[0];
    }
  }

  lemma DecimalIs(w: Bytes, f: Bytes, e: Bytes, rest: Bytes)
    requires WholeValid(w) && FractionValid(f) && ExponentValid(e) && Boundary(rest)
    ensures DecimalLength(w + (f + (e + rest))) == |w| + |f| + |e|
  {
    var tail := e + rest;
    ExponentIs(e, rest);
    ExponentStarts(e, rest);
    FractionIs(f, tail);
    WholeIs(w, f + tail);
    var s := w + (f + tail);
    assert s[|w|..] == f + tail;
    assert s[|w| + |f|..] == tail;
  }

  // Every number is read to its end and no further.
  lemma NumberIs(n: Numeral, rest: Bytes)
    requires NumeralValid(n) && Boundary(rest)
    ensures NumberLength(NumeralText(n) + rest) == |NumeralText(n)|
  {
    UnsignedIs(n, rest);
    UnsignedStarts(n);
    SignedIs(n.negative, Unsigned(n), rest);
  }

  lemma UnsignedStarts(n: Numeral)
    requires NumeralValid(n)
    ensures Unsigned(n) != [] && Unsigned(n)[0] != 45
  {
  }

  lemma SignedIs(negative: bool, u: Bytes, rest: Bytes)
    requires u != [] && u[0] != 45 && UnsignedLength(u + rest) == |u|
    ensures NumberLength((if negative then [45] else []) + u + rest) == |(if negative then [45] else []) + u|
  {
    var sign: Bytes := if negative then [45] else [];
    SignRead(sign + u + rest, u + rest, negative);
  }

  lemma SignRead(s: Bytes, t: Bytes, negative: bool)
    requires s == (if negative then [45] + t else t) && t != [] && t[0] != 45 && UnsignedLength(t) > 0
    ensures NumberLength(s) == (if negative then 1 else 0) + UnsignedLength(t)
  {
    assert s[(if negative then 1 else 0)..] == t;
  }

  lemma SpecialIs(w: Bytes, rest: Bytes)
    requires NumeralValid(Special(false, w)) && Boundary(rest)
    ensures UnsignedLength(w + rest) == |w|
  {
    var s := w + rest;
    assert forall i :: 0 <= i < |w| ==> s[i] == w[i];
    assert NAN[0] == 110 && INF[0] == 105 && INFINITY[0] == 105 && INFINITY[3] == 105;
    if WordAt(w, INF) && |w| == 3 {
      assert |s| > 3 ==> s[3] == rest[0] && Lowered(s[3]) != 105;
      assert WordAt(s, INF) && !WordAt(s, NAN) && !WordAt(s, INFINITY);
    } else if WordAt(w, NAN) && |w| == 3 {
      assert WordAt(s, NAN);
    } else {
      assert WordAt(s, INFINITY) && !WordAt(s, NAN);
    }
  }

  lemma UnsignedIs(n: Numeral, rest: Bytes)
    requires NumeralValid(n) && Boundary(rest)
    ensures UnsignedLength(Unsigned(n) + rest) == |Unsigned(n)|
  {
    var s := Unsigned(n) + rest;
    match n
    case Special(_, w) =>
      SpecialIs(w, rest);
    case Decimal(_, w, f, e) =>
      assert Digit(s[0]) && !WordAt(s, NAN) && !WordAt(s, INF) && !WordAt(s, INFINITY);
      assert s == w + (f + (e + rest));
      DecimalIs(w, f, e, rest);
  }

  // And what is read is a number.
  lemma NumberRead(s: Bytes) returns (n: Numeral)
    requires NumberLength(s) > 0
    ensures NumeralValid(n) && NumeralText(n) == s[..NumberLength(s)]
  {
    var negative := s[0] == 45;
    var u := if negative then s[1..] else s;
    n := UnsignedRead(u, negative);
    assert s[..NumberLength(s)] == (if negative then [45] else []) + u[..UnsignedLength(u)];
  }

  lemma UnsignedRead(u: Bytes, negative: bool) returns (n: Numeral)
    requires UnsignedLength(u) > 0
    ensures NumeralValid(n) && n.negative == negative && Unsigned(n) == u[..UnsignedLength(u)]
  {
    if WordAt(u, NAN) {
      n := Special(negative, u[..3]);
    } else if WordAt(u, INFINITY) {
      n := Special(negative, u[..8]);
    } else if WordAt(u, INF) {
      n := Special(negative, u[..3]);
    } else {
      var w, f, e := DecimalCut(u);
      n := Decimal(negative, w, f, e);
    }
  }

  lemma DecimalCut(u: Bytes) returns (whole: Bytes, fraction: Bytes, exponent: Bytes)
    requires DecimalLength(u) > 0
    ensures WholeValid(whole) && FractionValid(fraction) && ExponentValid(exponent)
    ensures whole + (fraction + exponent) == u[..DecimalLength(u)]
  {
    var w := WholeLength(u);
    var f := FractionLength(u[w..]);
    var e := ExponentLength(u[w + f..]);
    DecimalRead(u, w, f, e);
    whole, fraction, exponent := u[..w], u[w..][..f], u[w + f..][..e];
    Joined(u, w, f, e);
  }

  lemma Joined(u: Bytes, a: nat, b: nat, c: nat)
    requires a + b + c <= |u|
    ensures u[..a] + (u[a..][..b] + u[a + b..][..c]) == u[..a + b + c]
  {
    assert u[a..][..b] == u[a..a + b] && u[a + b..][..c] == u[a + b..a + b + c];
    assert u[a..a + b] + u[a + b..a + b + c] == u[a..a + b + c];
  }

  lemma DecimalRead(u: Bytes, w: nat, f: nat, e: nat)
    requires w == WholeLength(u) > 0 && f == FractionLength(u[w..]) && e == ExponentLength(u[w + f..])
    ensures WholeValid(u[..w]) && FractionValid(u[w..][..f]) && ExponentValid(u[w + f..][..e])
  {
    if u[0] != 48 {
      DigitRunDigits(u);
    }
    var a := u[w..];
    if f > 0 {
      DigitRunDigits(a[1..]);
      assert a[..f][1..] == a[1..][..f - 1];
    }
    var b := u[w + f..];
    if e > 0 {
      var sign := if |b| > 1 && Sign(b[1]) then 2 else 1;
      DigitRunDigits(b[sign..]);
      assert b[..e][sign..] == b[sign..][..e - sign];
    }
  }
}
