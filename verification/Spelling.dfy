// What the texts the driver writes and reads stand for: quoted values, the numbers
// of $ parameters, and names that differ in case.
module Spelling {
  import opened Options
  import opened Text
  import opened Digits
  import opened SqlLexer
  import opened Numbering
  import opened Plan
  import opened Render
  import opened Inertness

  // ---- Quoted values ----

  function HexValue(c: byte): nat
  {
    if Digit(c) then c - 48 else if 97 <= c <= 102 then c - 87 else if 65 <= c <= 70 then c - 55 else 0
  }

  // What from_hex makes of a text: two digits a byte.
  function FromHex(hex: Bytes): Bytes
  {
    if |hex| < 2 then [] else [HexValue(hex[0]) * 16 + HexValue(hex[1])] + FromHex(hex[2..])
  }

  lemma {:induction false} FromHexOf(data: Bytes)
    ensures FromHex(HexOf(data)) == data && |HexOf(data)| == 2 * |data|
  {
    if data != [] {
      FromHexOf(data[1..]);
      var hex := HexOf(data);
      assert hex[2..] == HexOf(data[1..]);
      assert HexValue(hex[0]) == data[0] / 16 && HexValue(hex[1]) == data[0] % 16;
    }
  }

  // The bytes in the quoted argument behind front, with back more bytes to come.
  function Argument(text: Bytes, front: Bytes, back: nat): Option<Bytes>
  {
    if front <= text && |text| >= |front| + 2 + back then Some(FromHex(text[|front| + 1..|text| - 1 - back])) else None
  }

  // The value of the SQL that stands for a quoted value: a literal, or a call of
  // from_hex, inside one of decode where the value is text.
  function Denoted(text: Bytes): Option<Bytes>
  {
    if FROM_HEX <= text then Argument(text, FROM_HEX, 1)
    else if DECODE <= text then Argument(text, DECODE + FROM_HEX, 2)
    else if |text| >= 2 && text[0] == QUOTE && text[|text| - 1] == QUOTE then Some(Unquoted(text[1..|text| - 1]))
    else None
  }

  // It says of a text whether it is a blob.
  function DenotedBlob(text: Bytes): bool { FROM_HEX <= text }

  lemma ArgumentOf(text: Bytes, front: Bytes, data: Bytes, back: Bytes)
    requires text == front + Literal(HexOf(data)) + back
    ensures front <= text && Argument(text, front, |back|) == Some(data)
  {
    FromHexOf(data);
    assert text[|front| + 1..|text| - 1 - |back|] == HexOf(data);
  }

  lemma Apart(text: Bytes)
    requires text != []
    ensures DECODE <= text ==> !(FROM_HEX <= text)
    ensures text[0] == QUOTE ==> !(FROM_HEX <= text) && !(DECODE <= text)
  {
    assert DECODE[12] != FROM_HEX[12];
    assert DECODE[0] == FROM_HEX[0] == 115;
  }

  // Every quoted value denotes the bytes it was made from, and as text or as a blob.
  lemma QuotedDenotes(data: Bytes, blob: bool)
    ensures Denoted(QuotedBytes(data, blob)) == Some(data) && DenotedBlob(QuotedBytes(data, blob)) == blob
  {
    var text := QuotedBytes(data, blob);
    Apart(text);
    if blob {
      ArgumentOf(text, FROM_HEX, data, [41]);
    } else if 0 in data {
      ArgumentOf(text, DECODE + FROM_HEX, data, [41, 41]);
      assert DECODE <= text;
    } else {
      UnquotedDoubled(data);
      LiteralParts(Doubled(data), []);
    }
  }

  // ---- The number of a $ parameter ----

  predicate Spelled(name: Bytes) { forall i :: 0 <= i < |name| ==> Digit(name[i]) || name[i] == UNDERSCORE }

  // The digits without the underscores.
  function Stripped(name: Bytes): (d: Bytes)
    ensures forall i :: 0 <= i < |d| ==> d[i] in name && d[i] != UNDERSCORE
  {
    if name == [] then [] else (if name[0] == UNDERSCORE then [] else [name[0]]) + Stripped(name[1..])
  }

  // What stands before the first underscore.
  function Head(name: Bytes): Bytes
  {
    if name == [] || name[0] == UNDERSCORE then [] else [name[0]] + Head(name[1..])
  }

  lemma StrippedDigits(name: Bytes)
    requires Spelled(name)
    ensures AllDigits(Stripped(name))
  {
  }

  lemma {:induction false} HeadDigits(name: Bytes)
    requires Spelled(name)
    ensures AllDigits(Head(name))
  {
    if name != [] && name[0] != UNDERSCORE {
      HeadDigits(name[1..]);
    }
  }

  // The number that digits denote behind those of v.
  function Value(v: nat, d: Bytes): nat
    requires AllDigits(d)
    decreases |d|
  {
    if d == [] then v else Value(10 * v + (d[0] - 48), d[1..])
  }

  lemma {:induction false} ValueGrows(v: nat, d: Bytes)
    requires AllDigits(d)
    ensures Value(v, d) >= v
    decreases |d|
  {
    if d != [] {
      ValueGrows(10 * v + (d[0] - 48), d[1..]);
    }
  }

  lemma {:induction false} ValueAppend(v: nat, d: Bytes, c: byte)
    requires AllDigits(d) && Digit(c)
    ensures Value(v, d + [c]) == 10 * Value(v, d) + (c - 48)
    decreases |d|
  {
    if d == [] {
      assert ([] + [c])[1..] == [];
    } else {
      assert (d + [c])[1..] == d[1..] + [c];
      ValueAppend(10 * v + (d[0] - 48), d[1..], c);
    }
  }

  lemma {:induction false} ValueIs(d: Bytes)
    requires AllDigits(d)
    ensures Value(0, d) == ValueOf(d)
  {
    if d != [] {
      var init := d[..|d| - 1];
      ValueIs(init);
      ValueAppend(0, init, d[|d| - 1]);
      assert d == init + [d[|d| - 1]];
    }
  }

  function UpTo(n: nat): Option<nat> { if n <= ZEND_ULONG_MAX then Some(n) else None }

  lemma {:induction false} NumberOfDigits(name: Bytes, v: nat)
    requires Spelled(name) && v <= ZEND_ULONG_MAX
    ensures AllDigits(Stripped(name)) && NumberValue(name, false, v) == UpTo(Value(v, Stripped(name)))
  {
    if name != [] {
      StrippedDigits(name);
      if name[0] == UNDERSCORE {
        NumberOfDigits(name[1..], v);
        assert Stripped(name) == Stripped(name[1..]);
      } else {
        var next := 10 * v + (name[0] - 48);
        assert Stripped(name)[1..] == Stripped(name[1..]);
        if next <= ZEND_ULONG_MAX {
          NumberOfDigits(name[1..], next);
        } else {
          StrippedDigits(name[1..]);
          ValueGrows(next, Stripped(name[1..]));
        }
      }
    }
  }

  lemma {:induction false} LegacyNumberOfDigits(name: Bytes, v: nat)
    requires Spelled(name) && v <= ZEND_ULONG_MAX
    ensures AllDigits(Head(name)) && NumberValue(name, true, v) == UpTo(Value(v, Head(name)))
  {
    HeadDigits(name);
    if name != [] && name[0] != UNDERSCORE {
      var next := 10 * v + (name[0] - 48);
      assert Head(name)[1..] == Head(name[1..]);
      if next <= ZEND_ULONG_MAX {
        LegacyNumberOfDigits(name[1..], next);
      } else {
        HeadDigits(name[1..]);
        ValueGrows(next, Head(name[1..]));
      }
    }
  }

  // A $ parameter's number is the one its digits denote, without underscores or, for
  // the legacy parser, up to the first of them; there is none past 64 bits.
  lemma NumberDenotes(name: Bytes, legacy: bool)
    requires Spelled(name)
    ensures AllDigits(Stripped(name)) && AllDigits(Head(name))
    ensures NumberValue(name, legacy, 0) == UpTo(ValueOf(if legacy then Head(name) else Stripped(name)))
  {
    NumberOfDigits(name, 0);
    LegacyNumberOfDigits(name, 0);
    ValueIs(Stripped(name));
    ValueIs(Head(name));
  }

  // ---- Names ----

  // Equal but for the case of ASCII letters.
  predicate SameLetters(x: Bytes, y: Bytes)
  {
    |x| == |y|
    && forall i :: 0 <= i < |x| ==>
         x[i] == y[i] || (Letter(x[i]) && Letter(y[i]) && (x[i] == y[i] + 32 || y[i] == x[i] + 32))
  }

  // $ parameters have one key exactly when their names are equal but for case.
  lemma LowerMeans(x: Bytes, y: Bytes)
    ensures Lower(x) == Lower(y) <==> SameLetters(x, y)
  {
    if Lower(x) == Lower(y) {
      forall i | 0 <= i < |x|
        ensures x[i] == y[i] || (Letter(x[i]) && Letter(y[i]) && (x[i] == y[i] + 32 || y[i] == x[i] + 32))
      {
        assert Lower(x)[i] == Lower(y)[i];
      }
    }
    if SameLetters(x, y) {
      assert forall i :: 0 <= i < |x| ==> Lower(x)[i] == Lower(y)[i];
    }
  }
}
