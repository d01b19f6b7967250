// What the skipping rules of the two SQL scanners are for: each literal, quoted
// name and comment that can be written is passed whole, and reading it gives back
// what was written.
module Lexemes {
  import opened Text
  import opened SqlLexer
  import opened Numbering

  // ---- E'...' ----

  function Backslashed(data: Bytes): Bytes
  {
    if data == [] then []
    else (if data[0] == QUOTE || data[0] == BACKSLASH then [BACKSLASH, data[0]] else [data[0]]) + Backslashed(data[1..])
  }

  // What a reader of the body of an E'...' literal gets.
  function Unbackslashed(body: Bytes): Bytes
  {
    if body == [] then []
    else if body[0] == BACKSLASH && |body| > 1 then [body[1]] + Unbackslashed(body[2..])
    else [body[0]] + Unbackslashed(body[1..])
  }

  lemma {:induction false} BackslashedLength(data: Bytes, rest: Bytes)
    requires rest == [] || rest[0] != QUOTE
    ensures QuotedLength(Backslashed(data) + [QUOTE] + rest, QUOTE, true) == |Backslashed(data)| + 1
  {
    var r := Backslashed(data) + [QUOTE] + rest;
    if data != [] {
      BackslashedLength(data[1..], rest);
      var tail := Backslashed(data[1..]) + [QUOTE] + rest;
      if data[0] == QUOTE || data[0] == BACKSLASH {
        assert r[2..] == tail;
      } else {
        assert r[1..] == tail;
      }
    }
  }

  lemma {:induction false} UnbackslashedBackslashed(data: Bytes)
    ensures Unbackslashed(Backslashed(data)) == data
  {
    if data != [] {
      UnbackslashedBackslashed(data[1..]);
      var body := Backslashed(data);
      if data[0] == QUOTE || data[0] == BACKSLASH {
        assert body[2..] == Backslashed(data[1..]);
      } else {
        assert body[1..] == Backslashed(data[1..]);
      }
    }
  }

  function EscapeLiteral(e: byte, data: Bytes): Bytes { [e, QUOTE] + Backslashed(data) + [QUOTE] }

  // Any data behind E', with its quotes and backslashes escaped, is one token that
  // ends at its own quote, and reading it gives the data back.
  lemma EscapeLiteralScans(prev: int, e: byte, data: Bytes, rest: Bytes, seen: bool)
    requires (e == 69 || e == 101) && (rest == [] || rest[0] != QUOTE)
    ensures var text := EscapeLiteral(e, data);
            && Lex(prev, text + rest, seen) == Lexeme(Escaped, |text|)
            && Unbackslashed(text[2..|text| - 1]) == data
  {
    var text := EscapeLiteral(e, data);
    BackslashedLength(data, rest);
    UnbackslashedBackslashed(data);
    EscapeParts(e, data, rest);
    assert TriviaStep(text + rest) == 0;
  }

  lemma EscapeParts(e: byte, data: Bytes, rest: Bytes)
    ensures (EscapeLiteral(e, data) + rest)[2..] == Backslashed(data) + [QUOTE] + rest
    ensures EscapeLiteral(e, data)[2..|EscapeLiteral(e, data)| - 1] == Backslashed(data)
  {
  }

  // ---- Quotes inside quotes ----

  function Twice(data: Bytes, quote: byte): Bytes
  {
    if data == [] then [] else (if data[0] == quote then [quote, quote] else [data[0]]) + Twice(data[1..], quote)
  }

  lemma {:induction false} TwiceLength(data: Bytes, quote: byte, rest: Bytes)
    requires rest == [] || rest[0] != quote
    ensures QuotedLength(Twice(data, quote) + [quote] + rest, quote, false) == |Twice(data, quote)| + 1
  {
    var r := Twice(data, quote) + [quote] + rest;
    if data != [] {
      TwiceLength(data[1..], quote, rest);
      var tail := Twice(data[1..], quote) + [quote] + rest;
      if data[0] == quote {
        assert r[2..] == tail;
      } else {
        assert r[1..] == tail;
      }
    }
  }

  // Every name can be quoted, and is the key of the parameter then.
  lemma {:induction false} UndoubleTwice(data: Bytes, quote: byte)
    ensures Undouble(Twice(data, quote), quote) == data
  {
    if data != [] {
      UndoubleTwice(data[1..], quote);
      var body := Twice(data, quote);
      if data[0] == quote {
        assert body[2..] == Twice(data[1..], quote);
      } else {
        assert body[1..] == Twice(data[1..], quote);
      }
    }
  }

  function Quotation(data: Bytes, quote: byte): Bytes { [quote] + Twice(data, quote) + [quote] }

  lemma QuotationParts(data: Bytes, quote: byte, rest: Bytes)
    ensures (Quotation(data, quote) + rest)[1..] == Twice(data, quote) + [quote] + rest
  {
  }

  lemma QuotationScans(prev: int, data: Bytes, quote: byte, rest: Bytes, seen: bool)
    requires (quote == QUOTE || QuotesIdentifier(quote)) && (rest == [] || rest[0] != quote)
    ensures Lex(prev, Quotation(data, quote) + rest, seen) == Lexeme(Quoted, |Quotation(data, quote)|)
  {
    TwiceLength(data, quote, rest);
    QuotationParts(data, quote, rest);
    assert TriviaStep(Quotation(data, quote) + rest) == 0;
  }

  // A literal that is not closed goes on to the end.
  lemma {:induction false} Unclosed(r: Bytes, quote: byte, escapes: bool)
    requires quote !in r
    ensures QuotedLength(r, quote, escapes) == |r|
    decreases |r|
  {
    if r != [] {
      if escapes && r[0] == BACKSLASH && |r| > 1 {
        Unclosed(r[2..], quote, escapes);
      } else {
        Unclosed(r[1..], quote, escapes);
      }
    }
  }

  // ---- Comments ----

  // The inside of a block comment: its end, a byte of text, or a comment in it.
  datatype Comment = End | Byte(c: byte, rest: Comment) | Nested(inner: Comment, rest: Comment)

  // The comment behind its opening.
  function CommentText(c: Comment): Bytes
  {
    match c
    case End => [42, 47]
    case Byte(b, rest) => [b] + CommentText(rest)
    case Nested(inner, rest) => [47, 42] + (CommentText(inner) + CommentText(rest))
  }

  // No byte of text opens or closes a comment by accident.
  predicate CommentValid(c: Comment)
  {
    match c
    case End => true
    case Byte(b, rest) => !OpensComment([b] + CommentText(rest)) && !ClosesComment([b] + CommentText(rest)) && CommentValid(rest)
    case Nested(inner, rest) => CommentValid(inner) && CommentValid(rest)
  }

  lemma CommentLong(c: Comment)
    ensures |CommentText(c)| >= 2
  {
  }

  lemma ByteStep(b: byte, more: Comment, rest: Bytes, depth: nat)
    requires CommentValid(Byte(b, more)) && depth > 0
    ensures BlockLength(CommentText(Byte(b, more)) + rest, depth) == 1 + BlockLength(CommentText(more) + rest, depth)
  {
    var r := CommentText(Byte(b, more)) + rest;
    CommentLong(more);
    assert r[1] == ([b] + CommentText(more))[1];
    assert r[1..] == CommentText(more) + rest;
  }

  lemma NestedStep(inner: Comment, more: Comment, rest: Bytes, depth: nat)
    requires depth > 0
    ensures BlockLength(CommentText(Nested(inner, more)) + rest, depth)
         == 2 + BlockLength(CommentText(inner) + (CommentText(more) + rest), depth + 1)
  {
    assert (CommentText(Nested(inner, more)) + rest)[2..] == CommentText(inner) + (CommentText(more) + rest);
  }

  // A comment is passed to its own end, however deep comments are nested in it.
  lemma {:induction false} CommentLength(c: Comment, rest: Bytes, depth: nat)
    requires CommentValid(c)
    ensures BlockLength(CommentText(c) + rest, depth + 1) == |CommentText(c)| + BlockLength(rest, depth)
    decreases c
  {
    match c
    case End =>
      assert (CommentText(c) + rest)[2..] == rest;
    case Byte(b, more) =>
      CommentLength(more, rest, depth);
      ByteStep(b, more, rest, depth + 1);
    case Nested(inner, more) =>
      CommentLength(inner, CommentText(more) + rest, depth + 1);
      CommentLength(more, rest, depth);
      NestedStep(inner, more, rest, depth + 1);
  }

  // One that is not closed goes on to the end.
  lemma {:induction false} CommentUnclosed(r: Bytes, depth: nat)
    requires 42 !in r && depth > 0
    ensures BlockLength(r, depth) == |r|
  {
    if r != [] {
      CommentUnclosed(r[1..], depth);
    }
  }

  lemma BlockCommentStep(c: Comment, rest: Bytes)
    requires CommentValid(c)
    ensures TriviaStep([47, 42] + CommentText(c) + rest) == 2 + |CommentText(c)|
  {
    var r := [47, 42] + CommentText(c) + rest;
    CommentLength(c, rest, 0);
    assert r[2..] == CommentText(c) + rest;
  }

  predicate OneLine(text: Bytes) { forall i :: 0 <= i < |text| ==> text[i] != 10 && text[i] != 13 }

  lemma {:induction false} LineEnds(text: Bytes, rest: Bytes)
    requires OneLine(text) && (rest == [] || rest[0] == 10 || rest[0] == 13)
    ensures LineLength(text + rest) == |text|
  {
    if text == [] {
      assert text + rest == rest;
    } else {
      LineEnds(text[1..], rest);
      assert (text + rest)[1..] == text[1..] + rest;
    }
  }

  lemma LineCommentStep(text: Bytes, rest: Bytes)
    requires OneLine(text) && (rest == [] || rest[0] == 10 || rest[0] == 13)
    ensures TriviaStep([45, 45] + text + rest) == 2 + |text|
  {
    var r := [45, 45] + text + rest;
    LineEnds(text, rest);
    assert r[2..] == text + rest;
  }

  // ---- $tag$...$tag$ ----

  predicate TagValid(tag: Bytes)
  {
    tag != [] ==> IdentifierStart(tag[0]) && forall i :: 0 <= i < |tag| ==> IdentifierStart(tag[i]) || Digit(tag[i])
  }

  function Delimiter(tag: Bytes): Bytes { [DOLLAR] + tag + [DOLLAR] }

  // The first place where the mark stands is behind the body.
  predicate OnlyAtEnd(body: Bytes, mark: Bytes)
  {
    forall k :: 0 <= k < |body| ==> !(mark <= (body + mark)[k..])
  }

  lemma {:induction false} TagEnds(tag: Bytes, rest: Bytes)
    requires forall i :: 0 <= i < |tag| ==> IdentifierStart(tag[i]) || Digit(tag[i])
    requires rest != [] && !IdentifierStart(rest[0]) && !Digit(rest[0])
    ensures TagLength(tag + rest) == |tag|
  {
    if tag == [] {
      assert tag + rest == rest;
    } else {
      TagEnds(tag[1..], rest);
      assert (tag + rest)[1..] == tag[1..] + rest;
    }
  }

  lemma DelimiterRead(tag: Bytes, rest: Bytes)
    requires TagValid(tag)
    ensures DelimiterLength(Delimiter(tag) + rest) == |tag| + 2
  {
    var r := Delimiter(tag) + rest;
    if tag != [] {
      assert r[1] == tag[0] && r[2..] == tag[1..] + ([DOLLAR] + rest);
      TagEnds(tag[1..], [DOLLAR] + rest);
    }
  }

  lemma {:induction false} MarkFound(body: Bytes, mark: Bytes, rest: Bytes)
    requires mark != [] && OnlyAtEnd(body, mark)
    ensures FindLength(body + mark + rest, mark) == |body| + |mark|
  {
    var r := body + mark + rest;
    if body == [] {
      assert r[..|mark|] == mark;
    } else {
      assert (body + mark)[0..] == body + mark;
      assert r[..|mark|] == (body + mark)[..|mark|];
      assert r[1..] == body[1..] + mark + rest;
      forall k | 0 <= k < |body[1..]|
        ensures !(mark <= (body[1..] + mark)[k..])
      {
        assert (body + mark)[k + 1..] == (body[1..] + mark)[k..];
      }
      MarkFound(body[1..], mark, rest);
    }
  }

  function DollarText(tag: Bytes, body: Bytes): Bytes { Delimiter(tag) + body + Delimiter(tag) }

  // Text between two equal tags is read to the second.
  lemma DollarTextLength(tag: Bytes, body: Bytes, rest: Bytes)
    requires TagValid(tag) && OnlyAtEnd(body, Delimiter(tag))
    ensures DollarQuotedLength(DollarText(tag, body) + rest) == |DollarText(tag, body)|
  {
    var mark, r := Delimiter(tag), DollarText(tag, body) + rest;
    DelimiterRead(tag, body + mark + rest);
    assert r == mark + (body + mark + rest);
    assert r[..|mark|] == mark && r[|mark|..] == body + mark + rest;
    MarkFound(body, mark, rest);
  }

  // ---- Spaces of Unicode ----

  function Utf8(c: nat): Bytes
    requires c < 0x110000
  {
    if c < 0x80 then [c]
    else if c < 0x800 then [0xc0 + c / 64, 0x80 + c % 64]
    else if c < 0x10000 then [0xe0 + c / 4096, 0x80 + c / 64 % 64, 0x80 + c % 64]
    else [0xf0 + c / 262144, 0x80 + c / 4096 % 64, 0x80 + c / 64 % 64, 0x80 + c % 64]
  }

  predicate UnicodeSpace(c: nat)
  {
    c == 0xa0 || 0x2000 <= c <= 0x200a || c == 0x202f || c == 0x205f || c == 0x3000 || c == 0xfeff
  }

  // A character outside ASCII is passed as a space exactly when it is one of these.
  lemma UnicodeSpaceIs(c: nat, rest: Bytes)
    requires c < 0x110000
    ensures UnicodeSpaceLength(Utf8(c) + rest) == if UnicodeSpace(c) then |Utf8(c)| else 0
  {
    var r := Utf8(c) + rest;
    if c < 0x80 {
      assert r[0] == c;
    } else if c < 0x800 {
      assert r[0] == 0xc0 + c / 64 && r[1] == 0x80 + c % 64;
    } else if c < 0x10000 {
      assert r[0] == 0xe0 + c / 4096 && r[1] == 0x80 + c / 64 % 64 && r[2] == 0x80 + c % 64;
    } else {
      assert r[0] == 0xf0 + c / 262144;
    }
  }
}
