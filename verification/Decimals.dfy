// Rendering of 64- and 128-bit integers and of DECIMAL values.
module Decimals {
  import opened Text
  import opened Digits
  import opened Wide

  // ---- Buffers ----

  // memcpy to a buffer.
  method CopyInto(out: array<byte>, pos: nat, text: Bytes)
    requires pos + |text| <= out.Length
    modifies out
    ensures out[..pos + |text|] == old(out[..pos]) + text
  {
    for i := 0 to |text|
      invariant out[..pos] == old(out[..pos])
      invariant out[pos..pos + i] == text[..i]
    {
      out[pos + i] := text[i];
      assert out[pos..pos + i + 1] == out[pos..pos + i] + [text[i]];
    }
    assert out[..pos + |text|] == out[..pos] + out[pos..pos + |text|];
  }

  lemma DigitsStep(value: nat, rest: Bytes)
    requires value >= 10
    ensures DigitsOf(value) + rest == DigitsOf(value / 10) + ([48 + value % 10] + rest)
  {
  }

  // The last digit of what is left comes in front of those written.
  lemma DigitPut(left: nat, written: Bytes, now: Bytes, whole: Bytes)
    requires DigitsOf(left) + written == whole && now == [48 + left % 10] + written
    ensures if left >= 10 then DigitsOf(left / 10) + now == whole else now == whole
    ensures |whole| >= |now|
  {
    if left >= 10 {
      DigitsStep(left, written);
    }
  }

  // The digits fill a buffer from its end.
  method FormatU64(value: nat) returns (out: Bytes)
    requires value < TWO64
    ensures out == DigitsOf(value) && |out| <= 20
  {
    Power10OfWords();
    DigitCount(value, 20);
    ghost var whole := DigitsOf(value);
    var tmp := new byte[20];
    var pos: nat, left: nat := 20, value;
    assert tmp[20..] == [];
    while true
      invariant 0 < pos <= 20
      invariant DigitsOf(left) + tmp[pos..] == whole
      decreases left
    {
      ghost var written := tmp[pos..];
      pos := pos - 1;
      tmp[pos] := 48 + left % 10;
      assert tmp[pos..] == [48 + left % 10] + written;
      DigitPut(left, written, tmp[pos..], whole);
      left := left / 10;
      if left == 0 {
        break;
      }
    }
    out := tmp[pos..];
  }

  lemma Power10OfWords()
    ensures TWO64 <= Power10(20) && TWO64 * TWO64 <= Power10(39)
  {
    assert Power10(5) == 100000;
    Power10Sum(5, 5);
    Power10Sum(10, 10);
    Power10Sum(20, 10);
    Power10Sum(30, 5);
    assert Power10(4) == 10000;
    Power10Sum(35, 4);
  }

  lemma {:induction false} Power10Sum(a: nat, b: nat)
    ensures Power10(a + b) == Power10(a) * Power10(b)
  {
    if a > 0 {
      Power10Sum(a - 1, b);
      Product(10, Power10(a - 1), Power10(b));
    }
  }

  // ---- Long division ----

  // The bits of a pair above b have been divided by ten.
  ghost predicate Divided(n: nat, b: nat, quotient: nat, rem: nat)
  {
    quotient == (n / Pow2(b)) / 10 * Pow2(b) && rem == (n / Pow2(b)) % 10
  }

  lemma DivideStep(n: nat, b: nat, quotient: nat, rem: nat)
    requires Divided(n, b + 1, quotient, rem)
    ensures Bit(quotient, b) == 0
    ensures var r := 2 * rem + Bit(n, b);
            Divided(n, b, if r >= 10 then quotient + Pow2(b) else quotient, if r >= 10 then r - 10 else r)
  {
    var p, m := Pow2(b), n / Pow2(b + 1);
    var q := m / 10;
    NextBit(n, b);
    TenStep(m, Bit(n, b));
    Doubled(quotient, q, p);
  }

  lemma Doubled(quotient: nat, q: nat, p: nat)
    requires p > 0 && quotient == q * (2 * p)
    ensures (quotient / p) % 2 == 0 && (2 * q) * p == quotient && (2 * q + 1) * p == quotient + p
  {
    Evenly(q, p);
    Quotient(quotient, p, 2 * q, 0);
    Distribute(2 * q, p);
  }

  lemma Distribute(a: nat, p: nat)
    ensures (a + 1) * p == a * p + p
  {
  }

  lemma TenStep(m: nat, bit: nat)
    requires bit < 2
    ensures var r := 2 * (m % 10) + bit;
            if r >= 10 then (2 * m + bit) / 10 == 2 * (m / 10) + 1 && (2 * m + bit) % 10 == r - 10
            else (2 * m + bit) / 10 == 2 * (m / 10) && (2 * m + bit) % 10 == r
  {
  }

  lemma Evenly(q: nat, p: nat)
    ensures q * (2 * p) == p * (2 * q) && p * (2 * q) == (2 * q) * p
  {
    Regroup(q, 2, p);
  }

  // value / 10 and value % 10 of two words, a bit at a time.
  method DivideByTen(upper: nat, lower: nat) returns (quotientUpper: nat, quotientLower: nat, rem: nat)
    requires upper < TWO64 && lower < TWO64
    ensures Joint(quotientUpper, quotientLower) == Joint(upper, lower) / 10 && rem == Joint(upper, lower) % 10
    ensures quotientUpper < TWO64 && quotientLower < TWO64
  {
    ghost var n := Joint(upper, lower);
    quotientUpper, quotientLower, rem := 0, 0, 0;
    Nothing(upper, lower);
    var bit := 128;
    while bit > 0
      invariant 0 <= bit <= 128
      invariant quotientUpper < TWO64 && quotientLower < TWO64
      invariant Divided(n, bit, Joint(quotientUpper, quotientLower), rem)
    {
      bit := bit - 1;
      var b := if bit >= 64 then Bit(upper, bit - 64) else Bit(lower, bit);
      JointBit(upper, lower, bit);
      DivideStep(n, bit, Joint(quotientUpper, quotientLower), rem);
      JointBit(quotientUpper, quotientLower, bit);
      rem := 2 * rem + b;
      if rem >= 10 {
        rem := rem - 10;
        if bit >= 64 {
          SetBitFits(quotientUpper, bit - 64);
          UpperSet(quotientUpper, quotientLower, bit);
          quotientUpper := SetBit(quotientUpper, bit - 64);
        } else {
          SetBitFits(quotientLower, bit);
          quotientLower := SetBit(quotientLower, bit);
        }
      }
    }
  }

  lemma Nothing(upper: nat, lower: nat)
    requires upper < TWO64 && lower < TWO64
    ensures Divided(Joint(upper, lower), 128, 0, 0)
  {
    Pow2Of64();
    Pow2Sum(64, 64);
    Quotient(Joint(upper, lower), Pow2(128), 0, Joint(upper, lower));
  }

  lemma UpperSet(upper: nat, lower: nat, bit: nat)
    requires bit >= 64
    ensures Joint(upper + Pow2(bit - 64), lower) == Joint(upper, lower) + Pow2(bit)
  {
    Pow2Of64();
    Pow2Sum(64, bit - 64);
  }

  // With a 128-bit type of the compiler's, or without.
  method DivideWide(high: nat, low: nat, int128: bool) returns (nextHigh: nat, nextLow: nat, rem: nat)
    requires high < TWO64 && low < TWO64
    ensures nextHigh < TWO64 && nextLow < TWO64
    ensures Joint(nextHigh, nextLow) == Joint(high, low) / 10 && rem == Joint(high, low) % 10
  {
    if int128 {
      var wide := Joint(high, low);
      rem := wide % 10;
      nextHigh, nextLow := wide / 10 / TWO64, wide / 10 % TWO64;
    } else {
      nextHigh, nextLow, rem := DivideByTen(high, low);
    }
  }

  // Both ways of dividing write the same digits.
  method FormatU128(upper: nat, lower: nat, int128: bool) returns (out: Bytes)
    requires upper < TWO64 && lower < TWO64
    ensures out == DigitsOf(Joint(upper, lower)) && |out| <= 39
  {
    if upper == 0 {
      out := FormatU64(lower);
      U128Length(0, lower);
    } else {
      out := FormatWide(upper, lower, int128);
    }
  }

  lemma U128Length(upper: nat, lower: nat)
    requires upper < TWO64 && lower < TWO64
    ensures |DigitsOf(Joint(upper, lower))| <= 39
  {
    Power10OfWords();
    DigitCount(Joint(upper, lower), 39);
  }

  method FormatWide(upper: nat, lower: nat, int128: bool) returns (out: Bytes)
    requires 0 < upper < TWO64 && lower < TWO64
    ensures out == DigitsOf(Joint(upper, lower)) && |out| <= 39
  {
    U128Length(upper, lower);
    ghost var whole := DigitsOf(Joint(upper, lower));
    var tmp := new byte[40];
    var pos: nat, high: nat, low: nat := 40, upper, lower;
    assert tmp[40..] == [];
    while high > 0 || low > 0
      invariant 0 < pos <= 40 && high < TWO64 && low < TWO64
      invariant Pending(Joint(high, low)) + tmp[pos..] == whole
      decreases Joint(high, low)
    {
      ghost var left, written := Joint(high, low), tmp[pos..];
      var rem: nat;
      high, low, rem := DivideWide(high, low, int128);
      PendingStep(left, written);
      pos := pos - 1;
      tmp[pos] := 48 + rem;
      assert tmp[pos..] == [48 + rem] + written;
    }
    out := tmp[pos..];
  }

  // The digits still to be written; none once the value is used up.
  function Pending(n: nat): Bytes { if n == 0 then [] else DigitsOf(n) }

  lemma PendingStep(n: nat, rest: Bytes)
    requires n > 0
    ensures Pending(n) + rest == Pending(n / 10) + ([48 + n % 10] + rest)
  {
  }

  // ---- Signed values ----

  datatype Hugeint = Hugeint(upper: int, lower: nat)

  predicate HugeintValid(h: Hugeint) { -0x8000_0000_0000_0000 <= h.upper < 0x8000_0000_0000_0000 && h.lower < TWO64 }

  function Value(h: Hugeint): int { h.upper * TWO64 + h.lower }

  function Magnitude(value: int): nat { if value < 0 then -value else value }

  // Two's-complement negation of a negative value, word by word.
  method Absolute(h: Hugeint) returns (upper: nat, lower: nat)
    requires HugeintValid(h)
    ensures upper < TWO64 && lower < TWO64
    ensures Joint(upper, lower) == Magnitude(Value(h))
  {
    upper, lower := h.upper % TWO64, h.lower;
    if h.upper < 0 {
      lower := (TWO64 - 1 - lower + 1) % TWO64;
      upper := (TWO64 - 1 - upper + (if lower == 0 then 1 else 0)) % TWO64;
    }
  }

  method AbsoluteI64(value: int) returns (magnitude: nat)
    requires -0x8000_0000_0000_0000 <= value < 0x8000_0000_0000_0000
    ensures magnitude == Magnitude(value) < TWO64
  {
    magnitude := if value < 0 then -(value + 1) + 1 else value;
  }

  function Signed(value: int): Bytes
  {
    (if value < 0 then [45] else []) + DigitsOf(Magnitude(value))
  }

  method HugeintToString(h: Hugeint, int128: bool) returns (text: Bytes)
    requires HugeintValid(h)
    ensures text == Signed(Value(h)) && |text| <= 41
  {
    var upper, lower := Absolute(h);
    var digits := FormatU128(upper, lower, int128);
    if h.upper < 0 {
      var out := new byte[41];
      out[0] := 45;
      CopyInto(out, 1, digits);
      text := out[..|digits| + 1];
    } else {
      text := digits;
    }
  }

  // ---- DECIMAL ----

  predicate MetaOk(width: nat, scale: nat) { 1 <= width <= 38 && scale <= width }

  function Zeros(n: nat): (z: Bytes)
    ensures |z| == n && forall i :: 0 <= i < n ==> z[i] == 48
  {
    seq(n, i => 48)
  }

  // Digits with the point put scale places from the right.
  function Placed(digits: Bytes, negative: bool, width: nat, scale: nat): Bytes
  {
    var sign := if negative then [45 as byte] else [];
    if scale == 0 then sign + digits
    else if |digits| <= scale then
      sign + (if width > scale then [48] else []) + ([46] + (Zeros(scale - |digits|) + digits))
    else sign + digits[..|digits| - scale] + ([46] + digits[|digits| - scale..])
  }

  // The text of a DECIMAL(width, scale) whose unscaled value is given.
  function Rendered(value: int, width: nat, scale: nat): Bytes
  {
    Placed(DigitsOf(Magnitude(value)), value < 0, width, scale)
  }

  // The 43-byte buffer always has room.
  method DecimalDigitsToString(digits: Bytes, negative: bool, width: nat, scale: nat) returns (text: Bytes)
    requires MetaOk(width, scale) && 0 < |digits| <= 39
    ensures text == Placed(digits, negative, width, scale) && 0 < |text| <= 43
  {
    var out := new byte[43];
    var pos := 0;
    if negative {
      out[pos] := 45;
      pos := pos + 1;
    }
    ghost var sign: Bytes := if negative then [45] else [];
    assert out[..pos] == sign;
    if scale == 0 {
      CopyInto(out, pos, digits);
      return out[..pos + |digits|];
    }
    if |digits| <= scale {
      var zeros := scale - |digits|;
      if width > scale {
        CopyInto(out, pos, [48]);
        pos := pos + 1;
      }
      if pos + 1 + zeros + |digits| > 43 {
        assert false;
      }
      CopyInto(out, pos, [46] + (Zeros(zeros) + digits));
      pos := pos + 1 + zeros;
      return out[..pos + |digits|];
    }
    var whole := |digits| - scale;
    CopyInto(out, pos, digits[..whole]);
    pos := pos + whole;
    CopyInto(out, pos, [46] + digits[whole..]);
    pos := pos + 1;
    return out[..pos + scale];
  }

  // The 128-bit path.
  method DecimalToString(h: Hugeint, width: nat, scale: nat, int128: bool) returns (text: Bytes)
    requires HugeintValid(h) && MetaOk(width, scale)
    ensures text == Rendered(Value(h), width, scale)
  {
    var upper, lower := Absolute(h);
    var digits := FormatU128(upper, lower, int128);
    text := DecimalDigitsToString(digits, h.upper < 0, width, scale);
  }

  // The 64-bit path.
  method DecimalToStringI64(value: int, width: nat, scale: nat) returns (text: Bytes)
    requires -0x8000_0000_0000_0000 <= value < 0x8000_0000_0000_0000 && MetaOk(width, scale)
    ensures text == Rendered(value, width, scale)
  {
    var magnitude := AbsoluteI64(value);
    var digits := FormatU64(magnitude);
    text := DecimalDigitsToString(digits, value < 0, width, scale);
  }

  // The cached path, for a column's stored width.
  datatype Stored = Narrow(value: int) | Huge(wide: Hugeint)

  method CachedDecimal(stored: Stored, width: nat, scale: nat, int128: bool) returns (text: Bytes)
    requires MetaOk(width, scale)
    requires stored.Narrow? ==> -0x8000_0000_0000_0000 <= stored.value < 0x8000_0000_0000_0000
    requires stored.Huge? ==> HugeintValid(stored.wide)
    ensures text == Rendered(if stored.Narrow? then stored.value else Value(stored.wide), width, scale)
  {
    match stored
    case Narrow(value) =>
      text := DecimalToStringI64(value, width, scale);
    case Huge(h) =>
      var upper, lower := Absolute(h);
      var digits;
      if upper == 0 {
        digits := FormatU64(lower);
      } else {
        digits := FormatU128(upper, lower, int128);
      }
      text := DecimalDigitsToString(digits, h.upper < 0, width, scale);
  }

  // ---- What the text denotes ----

  function WithoutPoint(text: Bytes): Bytes
  {
    if text == [] then [] else (if text[0] == 46 then [] else [text[0]]) + WithoutPoint(text[1..])
  }

  // The number a text denotes when its point is left out.
  function Unscaled(text: Bytes): int
  {
    var negative := text != [] && text[0] == 45;
    var digits := WithoutPoint(if negative then text[1..] else text);
    var n: int := if AllDigits(digits) then ValueOf(digits) else 0;
    if negative then -n else n
  }

  lemma Chained(a: Bytes, b: Bytes, c: Bytes)
    ensures a + (b + c) == a + b + c
  {
  }

  lemma {:induction false} WithoutPointAppend(a: Bytes, b: Bytes)
    ensures WithoutPoint(a + b) == WithoutPoint(a) + WithoutPoint(b)
  {
    if a == [] {
      assert a + b == b;
    } else {
      WithoutPointAppend(a[1..], b);
      assert (a + b)[1..] == a[1..] + b;
      var head: Bytes := if a[0] == 46 then [] else [a[0]];
      Chained(head, WithoutPoint(a[1..]), WithoutPoint(b));
    }
  }

  lemma {:induction false} WithoutPointDigits(d: Bytes)
    requires AllDigits(d)
    ensures WithoutPoint(d) == d
  {
    if d != [] {
      WithoutPointDigits(d[1..]);
    }
  }

  lemma {:induction false} ValueOfZeros(n: nat, d: Bytes)
    requires AllDigits(d)
    ensures AllDigits(Zeros(n) + d) && ValueOf(Zeros(n) + d) == ValueOf(d)
    decreases |d|, n
  {
    var s := Zeros(n) + d;
    if d != [] {
      ValueOfZeros(n, d[..|d| - 1]);
      assert s[..|s| - 1] == Zeros(n) + d[..|d| - 1];
    } else if n > 0 {
      ValueOfZeros(n - 1, d);
      assert s[..|s| - 1] == Zeros(n - 1) + d;
    }
  }

  predicate Parts(value: int, width: nat, scale: nat, whole: Bytes, fraction: Bytes)
  {
    && AllDigits(whole) && AllDigits(fraction) && |fraction| == scale
    && AllDigits(whole + fraction) && ValueOf(whole + fraction) == Magnitude(value)
    && (|whole| > 1 ==> whole[0] != 48)
    && (whole == [] <==> width == scale && Magnitude(value) < Power10(scale))
  }

  function Pointed(fraction: Bytes): Bytes { if fraction == [] then [] else [46] + fraction }

  // A rendered DECIMAL is a sign, whole digits and, behind the point, exactly scale
  // digits; the whole part is empty only where the type has no room for one.
  lemma RenderedShape(value: int, width: nat, scale: nat) returns (whole: Bytes, fraction: Bytes)
    requires MetaOk(width, scale)
    ensures Parts(value, width, scale, whole, fraction)
    ensures Rendered(value, width, scale) == (if value < 0 then [45] else []) + (whole + Pointed(fraction))
  {
    var digits := DigitsOf(Magnitude(value));
    DigitsDenote(Magnitude(value));
    DigitCount(Magnitude(value), scale);
    if scale == 0 {
      whole, fraction := digits, [];
      assert whole + fraction == digits && whole + Pointed(fraction) == digits;
    } else if |digits| <= scale {
      whole, fraction := SmallShape(digits, width, scale);
      Chained(if value < 0 then [45] else [], whole, [46] + fraction);
    } else {
      whole, fraction := digits[..|digits| - scale], digits[|digits| - scale..];
      assert whole + fraction == digits;
      Chained(if value < 0 then [45] else [], whole, [46] + fraction);
    }
  }

  lemma SmallShape(digits: Bytes, width: nat, scale: nat) returns (whole: Bytes, fraction: Bytes)
    requires AllDigits(digits) && 0 < |digits| <= scale <= width
    ensures whole == (if width > scale then [48] else []) && fraction == Zeros(scale - |digits|) + digits
    ensures |fraction| == scale && AllDigits(fraction) && AllDigits(whole + fraction)
    ensures ValueOf(whole + fraction) == ValueOf(digits)
  {
    var zeros := scale - |digits|;
    whole, fraction := if width > scale then [48] else [], Zeros(zeros) + digits;
    ValueOfZeros(zeros, digits);
    if width > scale {
      ValueOfZeros(zeros + 1, digits);
      assert Zeros(zeros + 1) == [48] + Zeros(zeros);
      Chained([48], Zeros(zeros), digits);
    } else {
      assert [] + fraction == fraction;
    }
  }

  // The text denotes the value, so no two values of a type share a text.
  lemma RenderedDenotes(value: int, width: nat, scale: nat)
    requires MetaOk(width, scale)
    ensures Unscaled(Rendered(value, width, scale)) == value
  {
    var whole, fraction := RenderedShape(value, width, scale);
    var unsigned := whole + Pointed(fraction);
    UnpointedParts(whole, fraction);
    var text := Rendered(value, width, scale);
    if value < 0 {
      assert text[1..] == unsigned;
    } else {
      assert text == unsigned;
      assert unsigned != [] ==> unsigned[0] == (if whole != [] then whole[0] else 46);
    }
  }

  lemma UnpointedParts(whole: Bytes, fraction: Bytes)
    requires AllDigits(whole) && AllDigits(fraction)
    ensures WithoutPoint(whole + Pointed(fraction)) == whole + fraction
  {
    WithoutPointDigits(whole);
    WithoutPointAppend(whole, Pointed(fraction));
    UnpointedFraction(fraction);
  }

  lemma UnpointedFraction(fraction: Bytes)
    requires AllDigits(fraction)
    ensures WithoutPoint(Pointed(fraction)) == fraction
  {
    WithoutPointDigits(fraction);
    if fraction != [] {
      assert ([46] + fraction)[1..] == fraction;
      assert [] + fraction == fraction;
    }
  }
}
