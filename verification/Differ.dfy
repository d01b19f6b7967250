// The line differ of the test runner, with lines compared for identity.
module Differ {
  import opened Sequences
  import opened Subsequences

  // Row |from| of the table: the length for each prefix of to.
  ghost predicate IsRow<T>(row: seq<nat>, from: seq<T>, to: seq<T>)
  {
    |row| == |to| + 1 && forall j :: 0 <= j <= |to| ==> row[j] == Longest(from, to[..j])
  }

  lemma NextCell<T>(from: seq<T>, to: seq<T>, i: nat, j: nat)
    requires i < |from| && j < |to|
    ensures Longest(from[..i + 1], to[..j + 1])
         == if from[i] == to[j] then Longest(from[..i], to[..j]) + 1
            else Max(Longest(from[..i + 1], to[..j]), Longest(from[..i], to[..j + 1]))
  {
    assert Init(from[..i + 1]) == from[..i] && Init(to[..j + 1]) == to[..j];
  }

  // commonSubsequenceLength
  method CommonSubsequenceLength<T(==)>(from: seq<T>, to: seq<T>) returns (current: seq<nat>)
    ensures IsRow(current, from, to)
  {
    current := seq(|to| + 1, _ => 0);
    var i := 0;
    while i < |from|
      invariant 0 <= i <= |from|
      invariant IsRow(current, from[..i], to)
    {
      var prev := current;
      var j := 0;
      while j < |to|
        invariant 0 <= j <= |to| && |current| == |to| + 1
        invariant forall k :: 0 <= k <= j ==> current[k] == Longest(from[..i + 1], to[..k])
      {
        NextCell(from, to, i, j);
        if from[i] == to[j] {
          current := current[j + 1 := prev[j] + 1];
        } else {
          current := current[j + 1 := Max(current[j], prev[j + 1])];
        }
        j := j + 1;
      }
      i := i + 1;
    }
    assert from[..i] == from;
  }

  method ReverseOf<T>(s: seq<T>) returns (r: seq<T>)
    ensures r == Reverse(s)
  {
    r := [];
    var i := 0;
    while i < |s|
      invariant 0 <= i <= |s|
      invariant r == Reverse(s[..i])
    {
      assert Init(s[..i + 1]) == s[..i];
      r := [s[i]] + r;
      i := i + 1;
    }
    assert s[..i] == s;
  }

  lemma BackRow<T>(row: seq<nat>, from: seq<T>, to: seq<T>, j: nat)
    requires IsRow(row, Reverse(from), Reverse(to)) && j <= |to|
    ensures |row| == |to| + 1 && row[|to| - j] == Longest(from, to[j..])
  {
    ReverseAppend(to[..j], to[j..]);
    assert to[..j] + to[j..] == to;
    assert Reverse(to)[..|to| - j] == Reverse(to[j..]);
    LongestReversed(from, to[j..]);
  }

  // Where to cut to: the last place at which the two halves give the most.
  method BestCut<T(==)>(from: seq<T>, to: seq<T>, half: nat) returns (jMax: nat)
    requires half <= |from|
    ensures jMax <= |to|
    ensures Longest(from, to) <= Longest(from[..half], to[..jMax]) + Longest(from[half..], to[jMax..])
  {
    var front := CommonSubsequenceLength(from[..half], to);
    var fromBack := ReverseOf(from[half..]);
    var toBack := ReverseOf(to);
    var back := CommonSubsequenceLength(fromBack, toBack);
    var max := 0;
    jMax := 0;
    var j := 0;
    while j <= |to|
      invariant 0 <= j <= |to| + 1 && jMax <= |to|
      invariant j > 0 ==> max == Longest(from[..half], to[..jMax]) + Longest(from[half..], to[jMax..])
      invariant forall k :: 0 <= k < j ==> Longest(from[..half], to[..k]) + Longest(from[half..], to[k..]) <= max
      invariant j == 0 ==> max == 0
    {
      BackRow(back, from[half..], to, j);
      var m := front[j] + back[|to| - j];
      if m >= max {
        max := m;
        jMax := j;
      }
      j := j + 1;
    }
    var k := LongestSplits(from[..half], from[half..], to);
    assert from[..half] + from[half..] == from;
  }

  lemma SingleLongest<T>(x: T, to: seq<T>)
    ensures Longest([x], to) == if x in to then 1 else 0
    ensures x in to ==> Common([x], [x], to)
  {
    if to != [] {
      SingleLongest(x, Init(to));
      assert Init([x]) == [];
    }
  }

  lemma JoinCommon<T>(front: seq<T>, back: seq<T>, from: seq<T>, to: seq<T>, i: nat, j: nat)
    requires i <= |from| && j <= |to| && Common(front, from[..i], to[..j]) && Common(back, from[i..], to[j..])
    ensures Common(front + back, from, to)
  {
    SubsequenceJoin(front, from[..i], back, from[i..]);
    SubsequenceJoin(front, to[..j], back, to[j..]);
    assert from[..i] + from[i..] == from && to[..j] + to[j..] == to;
  }

  // calculateCommonSubsequence: a common subsequence, and no shorter than any.
  method CalculateCommonSubsequence<T(==)>(from: seq<T>, to: seq<T>) returns (common: seq<T>)
    ensures Common(common, from, to)
    ensures forall c :: Common(c, from, to) ==> |c| <= |common|
    ensures |common| == Longest(from, to)
    decreases |from|
  {
    if |from| == 0 {
      common := [];
    } else if |from| == 1 {
      SingleLongest(from[0], to);
      assert from == [from[0]];
      var i := 0;
      common := [];
      while i < |to|
        invariant 0 <= i <= |to| && from[0] !in to[..i] && common == []
      {
        if from[0] == to[i] {
          common := [to[i]];
          break;
        }
        i := i + 1;
      }
    } else {
      var i := |from| / 2;
      var jMax := BestCut(from, to, i);
      var front := CalculateCommonSubsequence(from[..i], to[..jMax]);
      var back := CalculateCommonSubsequence(from[i..], to[jMax..]);
      common := front + back;
      JoinCommon(front, back, from, to, i, jMax);
      LongestBounds(common, from, to);
    }
    forall c | Common(c, from, to)
      ensures |c| <= |common|
    {
      LongestBounds(c, from, to);
    }
  }

  // ---- The edit script ----

  datatype Entry<+T> = Old(token: T) | Added(token: T, line: nat) | Removed(token: T, line: nat)

  // What the entries that are not additions spell, and those that are not removals.
  function FromOf<T>(diff: seq<Entry<T>>): seq<T>
  {
    if diff == [] then []
    else FromOf(Init(diff)) + if Last(diff).Added? then [] else [Last(diff).token]
  }

  function ToOf<T>(diff: seq<Entry<T>>): seq<T>
  {
    if diff == [] then []
    else ToOf(Init(diff)) + if Last(diff).Removed? then [] else [Last(diff).token]
  }

  // The number of lines that are kept.
  function Kept<T>(diff: seq<Entry<T>>): nat
  {
    if diff == [] then 0 else Kept(Init(diff)) + if Last(diff).Old? then 1 else 0
  }

  // Removed lines carry their number in from, added ones theirs in to.
  predicate Numbered<T>(diff: seq<Entry<T>>)
  {
    diff == []
    || (&& Numbered(Init(diff))
        && (Last(diff).Removed? ==> Last(diff).line == |FromOf(Init(diff))| + 1)
        && (Last(diff).Added? ==> Last(diff).line == |ToOf(Init(diff))| + 1))
  }

  lemma Append<T>(diff: seq<Entry<T>>, e: Entry<T>)
    ensures Init(diff + [e]) == diff && Last(diff + [e]) == e
    ensures FromOf(diff + [e]) == FromOf(diff) + if e.Added? then [] else [e.token]
    ensures ToOf(diff + [e]) == ToOf(diff) + if e.Removed? then [] else [e.token]
    ensures Kept(diff + [e]) == Kept(diff) + if e.Old? then 1 else 0
    ensures Numbered(diff) && (e.Removed? ==> e.line == |FromOf(diff)| + 1) && (e.Added? ==> e.line == |ToOf(diff)| + 1)
            ==> Numbered(diff + [e])
  {
  }

  // The state of a script: what it spells, and the line numbers to come.
  ghost predicate Spells<T>(diff: seq<Entry<T>>, from: seq<T>, to: seq<T>, kept: nat, fromLine: nat, toLine: nat)
  {
    && FromOf(diff) == from && ToOf(diff) == to && Kept(diff) == kept && Numbered(diff)
    && fromLine == |from| + 1 && toLine == |to| + 1
  }

  // getArrayDiffParted: from == start + a + end and to == start + b + end.
  method GetArrayDiffParted<T(==)>(from: seq<T>, to: seq<T>) returns (a: seq<T>, b: seq<T>, start: seq<T>, end: seq<T>)
    ensures from == start + a + end && to == start + b + end
    ensures a == [] || b == [] || (a[0] != b[0] && Last(a) != Last(b))
    ensures Longest(from, to) == |start| + Longest(a, b) + |end|
  {
    var k := 0;
    while k < |from| && k < |to| && from[k] == to[k]
      invariant 0 <= k <= |from| && k <= |to| && from[..k] == to[..k]
    {
      k := k + 1;
    }
    start, a, b, end := from[..k], from[k..], to[k..], [];
    while a != [] && b != [] && Last(a) == Last(b)
      invariant from == start + a + end && to == start + b + end
      invariant a == [] || b == [] || a[0] != b[0]
      decreases |a|
    {
      end := [Last(a)] + end;
      a, b := Init(a), Init(b);
    }
    LongestSuffix(start + a, start + b, end);
    LongestPrefix(start, a, b);
  }

  // Everything of from before the first token, as removals.
  method RemoveBefore<T(==)>(diff0: seq<Entry<T>>, from0: seq<T>, token: T, fromLine0: nat,
                             ghost f: seq<T>, ghost t: seq<T>, ghost kept: nat, ghost toLine: nat, ghost rest: seq<T>)
      returns (diff: seq<Entry<T>>, from: seq<T>, fromLine: nat)
    requires Spells(diff0, f, t, kept, fromLine0, toLine) && Subsequence([token] + rest, from0)
    ensures from != [] && from[0] == token && |from| <= |from0| && Subsequence(rest, from[1..])
    ensures Spells(diff, f + from0[..|from0| - |from|], t, kept, fromLine, toLine)
    ensures from == from0[|from0| - |from|..]
  {
    diff, from, fromLine := diff0, from0, fromLine0;
    SubsequenceFront(token, rest, from);
    while from != [] && from[0] != token
      invariant from != [] && |from| <= |from0| && Subsequence([token] + rest, from)
      invariant from == from0[|from0| - |from|..]
      invariant Spells(diff, f + from0[..|from0| - |from|], t, kept, fromLine, toLine)
      decreases |from|
    {
      SubsequenceFront(token, rest, from);
      SubsequenceFront(token, rest, from[1..]);
      Append(diff, Removed(from[0], fromLine));
      diff := diff + [Removed(from[0], fromLine)];
      assert f + from0[..|from0| - |from|] + [from[0]] == f + from0[..|from0| - |from| + 1];
      fromLine := fromLine + 1;
      from := from[1..];
    }
    SubsequenceFront(token, rest, from);
  }

  // Everything of to before the first token, as additions.
  method AddBefore<T(==)>(diff0: seq<Entry<T>>, to0: seq<T>, token: T, toLine0: nat,
                          ghost f: seq<T>, ghost t: seq<T>, ghost kept: nat, ghost fromLine: nat, ghost rest: seq<T>)
      returns (diff: seq<Entry<T>>, to: seq<T>, toLine: nat)
    requires Spells(diff0, f, t, kept, fromLine, toLine0) && Subsequence([token] + rest, to0)
    ensures to != [] && to[0] == token && |to| <= |to0| && Subsequence(rest, to[1..])
    ensures Spells(diff, f, t + to0[..|to0| - |to|], kept, fromLine, toLine)
    ensures to == to0[|to0| - |to|..]
  {
    diff, to, toLine := diff0, to0, toLine0;
    SubsequenceFront(token, rest, to);
    while to != [] && token != to[0]
      invariant to != [] && |to| <= |to0| && Subsequence([token] + rest, to)
      invariant to == to0[|to0| - |to|..]
      invariant Spells(diff, f, t + to0[..|to0| - |to|], kept, fromLine, toLine)
      decreases |to|
    {
      SubsequenceFront(token, rest, to);
      SubsequenceFront(token, rest, to[1..]);
      Append(diff, Added(to[0], toLine));
      diff := diff + [Added(to[0], toLine)];
      assert t + to0[..|to0| - |to|] + [to[0]] == t + to0[..|to0| - |to| + 1];
      toLine := toLine + 1;
      to := to[1..];
    }
    SubsequenceFront(token, rest, to);
  }

  // Lines both sides have, kept.
  method KeepAll<T>(diff0: seq<Entry<T>>, tokens: seq<T>, fromLine0: nat, toLine0: nat,
                    ghost f: seq<T>, ghost t: seq<T>, ghost kept: nat)
      returns (diff: seq<Entry<T>>, fromLine: nat, toLine: nat)
    requires Spells(diff0, f, t, kept, fromLine0, toLine0)
    ensures Spells(diff, f + tokens, t + tokens, kept + |tokens|, fromLine, toLine)
  {
    diff, fromLine, toLine := diff0, fromLine0, toLine0;
    var i := 0;
    assert f + tokens[..0] == f && t + tokens[..0] == t;
    while i < |tokens|
      invariant 0 <= i <= |tokens|
      invariant Spells(diff, f + tokens[..i], t + tokens[..i], kept + i, fromLine, toLine)
    {
      Append(diff, Old(tokens[i]));
      assert tokens[..i + 1] == tokens[..i] + [tokens[i]];
      assert f + tokens[..i] + [tokens[i]] == f + tokens[..i + 1] && t + tokens[..i] + [tokens[i]] == t + tokens[..i + 1];
      diff := diff + [Old(tokens[i])];
      fromLine, toLine := fromLine + 1, toLine + 1;
      i := i + 1;
    }
    assert tokens[..i] == tokens;
  }

  // One common line: what is gone before it, what is new before it, itself.
  method KeepCommon<T(==)>(diff0: seq<Entry<T>>, from0: seq<T>, to0: seq<T>, token: T, fromLine0: nat, toLine0: nat,
                           ghost f: seq<T>, ghost t: seq<T>, ghost kept: nat, ghost rest: seq<T>)
      returns (diff: seq<Entry<T>>, from: seq<T>, to: seq<T>, fromLine: nat, toLine: nat, ghost f': seq<T>, ghost t': seq<T>)
    requires Spells(diff0, f, t, kept, fromLine0, toLine0)
    requires Subsequence([token] + rest, from0) && Subsequence([token] + rest, to0)
    ensures Spells(diff, f', t', kept + 1, fromLine, toLine)
    ensures f' + from == f + from0 && t' + to == t + to0
    ensures Subsequence(rest, from) && Subsequence(rest, to)
  {
    diff, from, fromLine := RemoveBefore(diff0, from0, token, fromLine0, f, t, kept, toLine0, rest);
    f' := f + from0[..|from0| - |from|];
    diff, to, toLine := AddBefore(diff, to0, token, toLine0, f', t, kept, fromLine, rest);
    t' := t + to0[..|to0| - |to|];
    assert f' + from == f + from0 && t' + to == t + to0;
    Append(diff, Old(token));
    diff := diff + [Old(token)];
    f', t' := f' + [from[0]], t' + [to[0]];
    fromLine, toLine := fromLine + 1, toLine + 1;
    from, to := from[1..], to[1..];
  }

  // diffToArray
  method DiffToArray<T(==)>(from0: seq<T>, to0: seq<T>) returns (diff: seq<Entry<T>>)
    ensures FromOf(diff) == from0 && ToOf(diff) == to0 && Numbered(diff)
    ensures Kept(diff) == Longest(from0, to0)
  {
    var from, to, start, end := GetArrayDiffParted(from0, to0);
    ghost var a, b := start + from, start + to;
    var common := CalculateCommonSubsequence(from, to);
    var fromLine: nat, toLine: nat;
    diff, fromLine, toLine := KeepAll([], start, 1, 1, [], [], 0);
    assert [] + start == start;
    ghost var f, t := start, start;
    var i := 0;
    while i < |common|
      invariant 0 <= i <= |common|
      invariant Spells(diff, f, t, |start| + i, fromLine, toLine)
      invariant f + from == a && t + to == b
      invariant Subsequence(common[i..], from) && Subsequence(common[i..], to)
    {
      assert common[i..] == [common[i]] + common[i + 1..];
      diff, from, to, fromLine, toLine, f, t :=
        KeepCommon(diff, from, to, common[i], fromLine, toLine, f, t, |start| + i, common[i + 1..]);
      i := i + 1;
    }
    diff, fromLine := RemoveRest(diff, from, fromLine, f, t, |start| + |common|, toLine);
    diff, toLine := AddRest(diff, to, toLine, a, t, |start| + |common|, fromLine);
    diff, fromLine, toLine := KeepAll(diff, end, fromLine, toLine, a, b, |start| + |common|);
  }

  method RemoveRest<T>(diff0: seq<Entry<T>>, from0: seq<T>, fromLine0: nat,
                       ghost f: seq<T>, ghost t: seq<T>, ghost kept: nat, ghost toLine: nat)
      returns (diff: seq<Entry<T>>, fromLine: nat)
    requires Spells(diff0, f, t, kept, fromLine0, toLine)
    ensures Spells(diff, f + from0, t, kept, fromLine, toLine)
  {
    diff, fromLine := diff0, fromLine0;
    var from := from0;
    ghost var done: seq<T> := [];
    assert f + done == f;
    while from != []
      invariant done + from == from0 && Spells(diff, f + done, t, kept, fromLine, toLine)
      decreases |from|
    {
      Append(diff, Removed(from[0], fromLine));
      diff := diff + [Removed(from[0], fromLine)];
      assert f + done + [from[0]] == f + (done + [from[0]]);
      done := done + [from[0]];
      fromLine := fromLine + 1;
      from := from[1..];
    }
  }

  method AddRest<T>(diff0: seq<Entry<T>>, to0: seq<T>, toLine0: nat,
                    ghost f: seq<T>, ghost t: seq<T>, ghost kept: nat, ghost fromLine: nat)
      returns (diff: seq<Entry<T>>, toLine: nat)
    requires Spells(diff0, f, t, kept, fromLine, toLine0)
    ensures Spells(diff, f, t + to0, kept, fromLine, toLine)
  {
    diff, toLine := diff0, toLine0;
    var to := to0;
    ghost var done: seq<T> := [];
    assert t + done == t;
    while to != []
      invariant done + to == to0 && Spells(diff, f, t + done, kept, fromLine, toLine)
      decreases |to|
    {
      Append(diff, Added(to[0], toLine));
      diff := diff + [Added(to[0], toLine)];
      assert t + done + [to[0]] == t + (done + [to[0]]);
      done := done + [to[0]];
      toLine := toLine + 1;
      to := to[1..];
    }
  }

  // The kept lines of any script are common to both sides, so no script that
  // spells the same two texts keeps more lines than diffToArray's does.
  lemma {:induction false} KeptIsCommon<T>(diff: seq<Entry<T>>) returns (c: seq<T>)
    ensures |c| == Kept(diff) && Common(c, FromOf(diff), ToOf(diff))
    decreases |diff|
  {
    if diff == [] {
      c := [];
    } else {
      var e := Last(diff);
      c := KeptIsCommon(Init(diff));
      SubsequenceExtend(c, FromOf(Init(diff)), e.token);
      SubsequenceExtend(c, ToOf(Init(diff)), e.token);
      if e.Old? {
        c := c + [e.token];
      } else if e.Added? {
        assert FromOf(Init(diff)) + [] == FromOf(Init(diff));
      } else {
        assert ToOf(Init(diff)) + [] == ToOf(Init(diff));
      }
    }
  }

  lemma NoDiffKeepsMore<T>(diff: seq<Entry<T>>)
    ensures Kept(diff) <= Longest(FromOf(diff), ToOf(diff))
  {
    var c := KeptIsCommon(diff);
    LongestBounds(c, FromOf(diff), ToOf(diff));
  }
}
