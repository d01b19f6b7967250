// Byte strings and the character classes and skipping rules that both SQL
// scanners of the driver write out by hand.  Every function here works on the
// text that is still to be read, so a scanner position is a suffix.
module Text {
  type byte = b: int | 0 <= b < 256
  type Bytes = seq<byte>

  const QUOTE: byte := 39        // '
  const DOUBLE_QUOTE: byte := 34 // "
  const BACKTICK: byte := 96     // `
  const BACKSLASH: byte := 92
  const DOLLAR: byte := 36
  const COLON: byte := 58
  const QUESTION: byte := 63
  const SEMICOLON: byte := 59
  const UNDERSCORE: byte := 95
  const SPACE: byte := 32

  predicate Digit(c: int) { 48 <= c <= 57 }

  predicate Letter(c: int) { 97 <= c <= 122 || 65 <= c <= 90 }

  predicate Blank(c: int) { c == 32 || 9 <= c <= 13 }

  predicate IdentifierStart(c: int) { Letter(c) || c == 95 || c >= 128 }

  predicate IdentifierContinue(c: int) { IdentifierStart(c) || Digit(c) || c == 36 }

  predicate ParameterChar(c: int) { Letter(c) || Digit(c) || c == 95 }

  // The bytes a multi-byte Unicode space starts r with, or 0.
  function UnicodeSpaceLength(r: Bytes): (n: nat)
    ensures n <= |r|
  {
    if |r| >= 2 && r[0] == 0xc2 && r[1] == 0xa0 then 2
    else if |r| >= 3 && r[0] == 0xe2 && r[1] == 0x80 && (0x80 <= r[2] <= 0x8a || r[2] == 0xaf) then 3
    else if |r| >= 3 && r[0] == 0xe2 && r[1] == 0x81 && r[2] == 0x9f then 3
    else if |r| >= 3 && r[0] == 0xe3 && r[1] == 0x80 && r[2] == 0x80 then 3
    else if |r| >= 3 && r[0] == 0xef && r[1] == 0xbb && r[2] == 0xbf then 3
    else 0
  }

  // The rest of a line comment: up to, and not including, a line break.
  function LineLength(r: Bytes): (n: nat)
    ensures n <= |r|
  {
    if r == [] || r[0] == 13 || r[0] == 10 then 0 else 1 + LineLength(r[1..])
  }

  predicate OpensComment(r: Bytes) { |r| > 1 && r[0] == 47 && r[1] == 42 }

  predicate ClosesComment(r: Bytes) { |r| > 1 && r[0] == 42 && r[1] == 47 }

  predicate OpensLineComment(r: Bytes) { |r| > 1 && r[0] == 45 && r[1] == 45 }

  // The rest of a block comment that is nested depth deep.
  function BlockLength(r: Bytes, depth: nat): (n: nat)
    ensures n <= |r|
  {
    if r == [] || depth == 0 then 0
    else if OpensComment(r) then 2 + BlockLength(r[2..], depth + 1)
    else if ClosesComment(r) then 2 + BlockLength(r[2..], depth - 1)
    else 1 + BlockLength(r[1..], depth)
  }

  // The white space or comment that r starts with, or 0.
  function TriviaStep(r: Bytes): (n: nat)
    ensures n <= |r|
  {
    if UnicodeSpaceLength(r) > 0 then UnicodeSpaceLength(r)
    else if r == [] then 0
    else if Blank(r[0]) then 1
    else if OpensLineComment(r) then 2 + LineLength(r[2..])
    else if OpensComment(r) then 2 + BlockLength(r[2..], 1)
    else 0
  }

  // The rest of a quoted text whose opening quote has been read, through its
  // closing quote, or all of r when there is none.
  function QuotedLength(r: Bytes, quote: byte, escapes: bool): (n: nat)
    ensures n <= |r|
  {
    if r == [] then 0
    else if escapes && r[0] == BACKSLASH && |r| > 1 then 2 + QuotedLength(r[2..], quote, escapes)
    else if r[0] == quote then
      if |r| > 1 && r[1] == quote then 2 + QuotedLength(r[2..], quote, escapes) else 1
    else 1 + QuotedLength(r[1..], quote, escapes)
  }

  // The first occurrence of mark in r, counted through its end; |r| without one.
  function FindLength(r: Bytes, mark: Bytes): (n: nat)
    ensures n <= |r|
  {
    if |r| < |mark| then |r|
    else if r[..|mark|] == mark then |mark|
    else if r == [] then 0
    else 1 + FindLength(r[1..], mark)
  }

  // The characters after the first one of a dollar-quote tag.
  function TagLength(r: Bytes): (n: nat)
    ensures n <= |r|
    ensures n < |r| ==> !IdentifierStart(r[n]) && !Digit(r[n])
  {
    if r == [] || !(IdentifierStart(r[0]) || Digit(r[0])) then 0 else 1 + TagLength(r[1..])
  }

  // The $tag$ delimiter that r starts with, or 0.
  function DelimiterLength(r: Bytes): (n: nat)
    requires r != [] && r[0] == DOLLAR
    ensures n <= |r| && n != 1
  {
    if |r| == 1 then 0
    else if r[1] == DOLLAR then 2
    else if !IdentifierStart(r[1]) then 0
    else
      var end := 2 + TagLength(r[2..]);
      if end == |r| || r[end] != DOLLAR then 0 else end + 1
  }

  // The dollar-quoted text that r starts with, or 0.
  function DollarQuotedLength(r: Bytes): (n: nat)
    requires r != [] && r[0] == DOLLAR
    ensures n <= |r|
  {
    var d := DelimiterLength(r);
    if d == 0 then 0 else d + FindLength(r[d..], r[..d])
  }
}
