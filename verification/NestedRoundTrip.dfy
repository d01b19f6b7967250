// The reader undoes the renderer, so no two values of a type share a text.
module NestedRoundTrip {
  import opened Text
  import opened Decimals
  import opened NestedText

  predicate Plain(s: Bytes) { forall i :: 0 <= i < |s| ==> !Delimiter(s[i]) }

  lemma {:induction false} TokenIs(token: Bytes, rest: Bytes)
    requires Plain(token) && Delimited(rest)
    ensures TokenLength(token + rest) == |token|
    ensures (token + rest)[..|token|] == token && (token + rest)[|token|..] == rest
  {
    if token == [] {
      assert token + rest == rest;
    } else {
      TokenIs(token[1..], rest);
      assert (token + rest)[1..] == token[1..] + rest;
    }
  }

  lemma {:induction false} UnquoteEscaped(s: Bytes, rest: Bytes)
    ensures Unquote(Escaped(s) + ([QUOTE] + rest)) == Got(s, rest)
  {
    var t := Escaped(s) + ([QUOTE] + rest);
    if s == [] {
      assert t == [QUOTE] + rest;
    } else {
      UnquoteEscaped(s[1..], rest);
      var more := Escaped(s[1..]) + ([QUOTE] + rest);
      if Escapes(s[0]) {
        assert t == [BACKSLASH, s[0]] + more;
      } else {
        assert t == [s[0]] + more;
      }
      assert [s[0]] + s[1..] == s;
    }
  }

  lemma UnquotedIsPlain(s: Bytes)
    requires !NeedsQuotes(s)
    ensures s != [] && Plain(s) && s[0] != QUOTE && s != NULL
  {
    assert forall i :: 0 <= i < |s| ==> !Special(s[i]);
    assert NullWord(NULL);
  }

  // ---- Leaves ----

  lemma ReadToLeaf(t: Type, token: Bytes, rest: Bytes)
    requires Plain(token) && Delimited(rest) && token != []
    requires !Nested(t) || token == NULL
    requires t.Varchar? ==> token[0] != QUOTE
    ensures Read(t, token + rest) == Got(ReadToken(token, t), rest)
  {
    TokenIs(token, rest);
    LeafUnrolled(t, token + rest, |token|);
  }

  lemma LeafUnrolled(t: Type, s: Bytes, n: nat)
    requires s != [] && (!Nested(t) || NULL <= s) && (t.Varchar? ==> s[0] != QUOTE)
    requires TokenLength(s) == n <= |s|
    ensures Read(t, s) == Got(ReadToken(s[..n], t), s[n..])
  {
  }

  lemma NumberPlain(n: int)
    ensures Plain(Signed(n)) && Signed(n) != [] && Signed(n) != NULL && Unscaled(Signed(n)) == n
  {
    RenderedDenotes(n, 1, 0);
    assert Rendered(n, 1, 0) == Signed(n);
    assert Signed(n)[0] == 45 || Digit(Signed(n)[0]);
  }

  lemma DecimalPlain(n: int, width: nat, scale: nat)
    requires MetaOk(width, scale)
    ensures var s := Rendered(n, width, scale); Plain(s) && s != [] && s != NULL && Unscaled(s) == n
  {
    RenderedDenotes(n, width, scale);
    var whole, fraction := RenderedShape(n, width, scale);
    var sign: Bytes := if n < 0 then [45] else [];
    assert Plain(sign) && Plain(whole) && Plain(Pointed(fraction));
    assert Rendered(n, width, scale) == sign + (whole + Pointed(fraction));
    assert whole + Pointed(fraction) != [];
  }

  lemma ReadLeaf(v: Value, t: Type, rest: Bytes)
    requires TypeValid(t) && Typed(v, t) && Delimited(rest) && (v.Null? || !Nested(t))
    ensures Read(t, Render(v, t) + rest) == Got(v, rest)
  {
    if v.Null? {
      ReadToLeaf(t, NULL, rest);
    } else {
      match t
      case Varchar => ReadCharacters(v.bytes, rest);
      case Integer(_) =>
        NumberPlain(v.n);
        ReadToLeaf(t, Signed(v.n), rest);
      case Boolean =>
        ReadToLeaf(t, if v.b then TRUE else FALSE, rest);
      case Decimal(width, scale) =>
        DecimalPlain(v.n, width, scale);
        ReadToLeaf(t, Rendered(v.n, width, scale), rest);
    }
  }

  lemma ReadCharacters(s: Bytes, rest: Bytes)
    requires Delimited(rest)
    ensures Read(Varchar, Quoted(s) + rest) == Got(Characters(s), rest)
  {
    if NeedsQuotes(s) {
      UnquoteEscaped(s, rest);
      var more := Escaped(s) + ([QUOTE] + rest);
      assert Quoted(s) + rest == [QUOTE] + more;
      QuotedUnrolled([QUOTE] + more, more, s, rest);
    } else {
      UnquotedIsPlain(s);
      ReadToLeaf(Varchar, s, rest);
    }
  }

  lemma QuotedUnrolled(s: Bytes, more: Bytes, bytes: Bytes, rest: Bytes)
    requires s != [] && s[0] == QUOTE && s[1..] == more && Unquote(more) == Got(bytes, rest)
    ensures Read(Varchar, s) == Got(Characters(bytes), rest)
  {
  }

  // ---- Containers ----

  lemma SkipIs(prefix: Bytes, rest: Bytes)
    ensures Skip(prefix + rest, prefix) == Got((), rest)
  {
    assert (prefix + rest)[|prefix|..] == rest;
  }

  // A value's text begins with a quote, a letter, a digit, a sign, a point or an
  // opening bracket: never with what ends a list.
  lemma RenderStarts(v: Value, t: Type)
    requires TypeValid(t) && Typed(v, t)
    ensures var s := Render(v, t); s != [] && s[0] != 93 && s[0] != 125 && s[0] != 44
  {
    if !v.Null? {
      match t
      case Varchar =>
        if !NeedsQuotes(v.bytes) {
          UnquotedIsPlain(v.bytes);
        }
      case Integer(_) => NumberPlain(v.n);
      case Decimal(width, scale) => DecimalPlain(v.n, width, scale);
      case _ =>
    }
  }

  lemma Opened(t: Type, s: Bytes, more: Bytes)
    requires Nested(t) && s != [] && s[0] != 78 && s[1..] == more
    ensures Read(t, s) == ReadInside(t, more)
  {
    assert Skip(s, NULL).Lost?;
  }

  // Every value is read back from its text.
  lemma {:induction false} ReadBack(v: Value, t: Type, rest: Bytes)
    requires TypeValid(t) && Typed(v, t) && Delimited(rest)
    ensures Read(t, Render(v, t) + rest) == Got(v, rest)
    decreases v, 1
  {
    if v.Null? || !Nested(t) {
      ReadLeaf(v, t, rest);
    } else {
      match t
      case ListOf(item) =>
        ItemsBack(v.values, item, rest, true);
        Bracketed(t, 91, RenderItems(v.values, item, true), 93, rest);
      case ArrayOf(_, item) =>
        ItemsBack(v.values, item, rest, true);
        Bracketed(t, 91, RenderItems(v.values, item, true), 93, rest);
      case StructOf(fields) =>
        FieldsBack(v.values, fields, rest, true);
        Bracketed(t, 123, RenderFields(v.values, fields, true), 125, rest);
      case MapOf(key, value) =>
        PairsBack(v.pairs, t, key, value, rest, true);
        Bracketed(t, 123, RenderPairs(v.pairs, key, value, true), 125, rest);
    }
  }

  lemma Bracketed(t: Type, open: byte, inner: Bytes, close: byte, rest: Bytes)
    requires Nested(t) && open != 78
    ensures Read(t, ([open] + inner + [close]) + rest) == ReadInside(t, inner + ([close] + rest))
  {
    var s := ([open] + inner + [close]) + rest;
    assert s[1..] == inner + ([close] + rest);
    Opened(t, s, inner + ([close] + rest));
  }

  lemma Nest(a: Bytes, b: Bytes, c: Bytes, end: Bytes)
    ensures (a + (b + c)) + end == a + (b + (c + end))
  {
  }

  // What stands behind a value in a list ends its text.
  lemma ItemsDelimited(vs: Values, t: Type, end: Bytes)
    requires Delimited(end)
    ensures Delimited(RenderItems(vs, t, false) + end)
  {
    if vs.Values? {
      assert (RenderItems(vs, t, false) + end)[0] == 44;
    } else {
      assert [] + end == end;
    }
  }

  lemma ItemsCons(t: Type, s: Bytes, first: bool, s1: Bytes, head: Value, s2: Bytes)
    requires s != [] && s[0] != 93 && Skip(s, Comma(first)) == Got((), s1)
    requires Read(t, s1) == Got(head, s2) && |s2| < |s|
    ensures var tail := ReadItems(t, s2, false);
            ReadItems(t, s, first) ==
            if tail.Lost? then Lost else Got(Items(Values(head, tail.value.values)), tail.rest)
  {
  }

  lemma {:induction false} ItemsBack(vs: Values, t: Type, rest: Bytes, first: bool)
    requires TypeValid(t) && AllTyped(vs, t)
    ensures ReadItems(t, RenderItems(vs, t, first) + ([93] + rest), first) == Got(Items(vs), rest)
    decreases vs, 2
  {
    var end := [93] + rest;
    if vs.NoValue? {
      assert [] + end == end && end[1..] == rest;
    } else {
      var head, tail := Render(vs.head, t), RenderItems(vs.tail, t, false);
      ItemsBack(vs.tail, t, rest, false);
      ItemsDelimited(vs.tail, t, end);
      ReadBack(vs.head, t, tail + end);
      RenderStarts(vs.head, t);
      Nest(Comma(first), head, tail, end);
      SkipIs(Comma(first), head + (tail + end));
      ItemsCons(t, Comma(first) + (head + (tail + end)), first, head + (tail + end), vs.head, tail + end);
    }
  }

  lemma FieldsDelimited(vs: Values, fs: Fields, end: Bytes)
    requires Delimited(end)
    ensures Delimited(RenderFields(vs, fs, false) + end)
  {
    if vs.NoValue? || fs.NoField? {
      assert [] + end == end;
    } else {
      assert (RenderFields(vs, fs, false) + end)[0] == 44;
    }
  }

  lemma FieldsCons(fs: Fields, s: Bytes, first: bool, s1: Bytes, s2: Bytes, head: Value, s3: Bytes)
    requires fs.Field? && Skip(s, Comma(first)) == Got((), s1) && Skip(s1, NameText(fs.name)) == Got((), s2)
    requires Read(fs.kind, s2) == Got(head, s3)
    ensures var tail := ReadFields(fs.rest, s3, false);
            ReadFields(fs, s, first) ==
            if tail.Lost? then Lost else Got(Items(Values(head, tail.value.values)), tail.rest)
  {
  }

  lemma NestFields(a: Bytes, n: Bytes, b: Bytes, c: Bytes, end: Bytes)
    ensures (a + (n + (b + c))) + end == a + (n + (b + (c + end)))
  {
  }

  lemma {:induction false} FieldsBack(vs: Values, fs: Fields, rest: Bytes, first: bool)
    requires FieldsValid(fs) && FieldsTyped(vs, fs)
    ensures ReadFields(fs, RenderFields(vs, fs, first) + ([125] + rest), first) == Got(Items(vs), rest)
    decreases vs, 2
  {
    var end := [125] + rest;
    if fs.NoField? {
      assert [] + end == end && end[1..] == rest;
    } else {
      var head, tail, name := Render(vs.head, fs.kind), RenderFields(vs.tail, fs.rest, false), NameText(fs.name);
      FieldsBack(vs.tail, fs.rest, rest, false);
      FieldsDelimited(vs.tail, fs.rest, end);
      ReadBack(vs.head, fs.kind, tail + end);
      NestFields(Comma(first), name, head, tail, end);
      SkipIs(Comma(first), name + (head + (tail + end)));
      SkipIs(name, head + (tail + end));
      FieldsCons(fs, Comma(first) + (name + (head + (tail + end))), first, name + (head + (tail + end)),
                 head + (tail + end), vs.head, tail + end);
    }
  }

  lemma PairsDelimited(ps: Pairs, key: Type, value: Type, end: Bytes)
    requires Delimited(end)
    ensures Delimited(RenderPairs(ps, key, value, false) + end)
  {
    if ps.NoPair? {
      assert [] + end == end;
    } else {
      assert (RenderPairs(ps, key, value, false) + end)[0] == 44;
    }
  }

  lemma PairsCons(whole: Type, key: Type, value: Type, s: Bytes, first: bool, s1: Bytes, k: Value, s2: Bytes,
                  s3: Bytes, v: Value, s4: Bytes)
    requires whole == MapOf(key, value)
    requires s != [] && s[0] != 125 && Skip(s, Comma(first)) == Got((), s1)
    requires Read(key, s1) == Got(k, s2) && Skip(s2, [61]) == Got((), s3) && Read(value, s3) == Got(v, s4)
    ensures var tail := ReadPairs(whole, key, value, s4, false);
            ReadPairs(whole, key, value, s, first) ==
            if tail.Lost? then Lost else Got(Entries(Pair(k, v, tail.value.pairs)), tail.rest)
  {
  }

  lemma NestPairs(a: Bytes, k: Bytes, e: Bytes, v: Bytes, c: Bytes, end: Bytes)
    ensures (a + (k + (e + (v + c)))) + end == a + (k + (e + (v + (c + end))))
  {
  }

  lemma {:induction false} PairsBack(ps: Pairs, whole: Type, key: Type, value: Type, rest: Bytes, first: bool)
    requires whole == MapOf(key, value) && TypeValid(whole) && PairsTyped(ps, key, value)
    ensures ReadPairs(whole, key, value, RenderPairs(ps, key, value, first) + ([125] + rest), first) ==
            Got(Entries(ps), rest)
    decreases ps, 2
  {
    var end := [125] + rest;
    if ps.NoPair? {
      assert [] + end == end && end[1..] == rest;
    } else {
      var k, v, tail := Render(ps.key, key), Render(ps.value, value), RenderPairs(ps.rest, key, value, false);
      var equals: Bytes := [61];
      var s3 := v + (tail + end);
      PairsBack(ps.rest, whole, key, value, rest, false);
      PairsDelimited(ps.rest, key, value, end);
      ReadBack(ps.value, value, tail + end);
      ReadBack(ps.key, key, equals + s3);
      RenderStarts(ps.key, key);
      NestPairs(Comma(first), k, equals, v, tail, end);
      SkipIs(Comma(first), k + (equals + s3));
      SkipIs(equals, s3);
      PairsCons(whole, key, value, Comma(first) + (k + (equals + s3)), first, k + (equals + s3), ps.key,
                equals + s3, s3, ps.value, tail + end);
    }
  }

  // ---- Injectivity ----

  lemma TextDeterminesValue(v: Value, w: Value, t: Type)
    requires TypeValid(t) && Typed(v, t) && Typed(w, t)
    requires Render(v, t) == Render(w, t)
    ensures v == w
  {
    ReadBack(v, t, []);
    ReadBack(w, t, []);
    assert Render(v, t) + [] == Render(v, t) && Render(w, t) + [] == Render(w, t);
  }

  // Only NULL is written as NULL.
  lemma NullStandsApart(v: Value, t: Type)
    requires TypeValid(t) && Typed(v, t) && Render(v, t) == NULL
    ensures v.Null?
  {
    TextDeterminesValue(v, Null, t);
  }
}
