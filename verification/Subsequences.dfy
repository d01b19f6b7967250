// Common subsequences and the length of a longest one.
module Subsequences {
  import opened Sequences

  // c can be had from s by leaving elements out.
  predicate Subsequence<T(==)>(c: seq<T>, s: seq<T>)
  {
    c == []
    || (s != [] && ((Last(c) == Last(s) && Subsequence(Init(c), Init(s))) || Subsequence(c, Init(s))))
  }

  ghost predicate Common<T>(c: seq<T>, a: seq<T>, b: seq<T>) { Subsequence(c, a) && Subsequence(c, b) }

  function Max(x: nat, y: nat): nat { if x >= y then x else y }

  // The length of a longest common subsequence.
  function Longest<T(==)>(a: seq<T>, b: seq<T>): nat
    decreases |a| + |b|
  {
    if a == [] || b == [] then 0
    else if Last(a) == Last(b) then Longest(Init(a), Init(b)) + 1
    else Max(Longest(Init(a), b), Longest(a, Init(b)))
  }

  lemma SubsequenceExtend<T>(c: seq<T>, s: seq<T>, x: T)
    requires Subsequence(c, s)
    ensures Subsequence(c, s + [x]) && Subsequence(c + [x], s + [x])
  {
    assert Init(s + [x]) == s && Init(c + [x]) == c;
  }

  lemma {:induction false} SubsequenceInit<T>(c: seq<T>, s: seq<T>)
    requires c != [] && Subsequence(c, s)
    ensures s != [] && Subsequence(Init(c), Init(s)) && |c| <= |s|
    decreases |s|
  {
    if Last(c) == Last(s) && Subsequence(Init(c), Init(s)) {
      if Init(c) != [] {
        SubsequenceInit(Init(c), Init(s));
      }
    } else {
      SubsequenceInit(c, Init(s));
      SubsequenceExtend(Init(c), Init(Init(s)), Last(Init(s)));
      assert Init(Init(s)) + [Last(Init(s))] == Init(s);
    }
  }

  // No common subsequence is longer.
  lemma {:induction false} LongestBounds<T>(c: seq<T>, a: seq<T>, b: seq<T>)
    requires Common(c, a, b)
    ensures |c| <= Longest(a, b)
    decreases |a| + |b|
  {
    if c != [] {
      if Last(a) == Last(b) {
        SubsequenceInit(c, a);
        SubsequenceInit(c, b);
        LongestBounds(Init(c), Init(a), Init(b));
      } else if Subsequence(c, Init(a)) {
        LongestBounds(c, Init(a), b);
      } else {
        LongestBounds(c, a, Init(b));
      }
    }
  }

  // And there is one of that length.
  lemma {:induction false} LongestReached<T>(a: seq<T>, b: seq<T>) returns (c: seq<T>)
    ensures Common(c, a, b) && |c| == Longest(a, b)
    decreases |a| + |b|
  {
    if a == [] || b == [] {
      c := [];
    } else if Last(a) == Last(b) {
      var d := LongestReached(Init(a), Init(b));
      c := d + [Last(a)];
      SubsequenceExtend(d, Init(a), Last(a));
      SubsequenceExtend(d, Init(b), Last(b));
      assert Init(a) + [Last(a)] == a && Init(b) + [Last(b)] == b;
    } else if Longest(Init(a), b) >= Longest(a, Init(b)) {
      c := LongestReached(Init(a), b);
    } else {
      c := LongestReached(a, Init(b));
    }
  }

  // ---- Joining and cutting ----

  lemma {:induction false} SubsequenceJoin<T>(c: seq<T>, s: seq<T>, d: seq<T>, t: seq<T>)
    requires Subsequence(c, s) && Subsequence(d, t)
    ensures Subsequence(c + d, s + t)
    decreases |t|
  {
    if t == [] {
      assert c + d == c && s + t == s;
    } else {
      assert Init(s + t) == s + Init(t);
      if d == [] {
        SubsequenceJoin(c, s, [], Init(t));
        assert c + [] == c;
      } else if Last(d) == Last(t) && Subsequence(Init(d), Init(t)) {
        SubsequenceJoin(c, s, Init(d), Init(t));
        assert Init(c + d) == c + Init(d);
      } else {
        SubsequenceJoin(c, s, d, Init(t));
      }
    }
  }

  lemma InitCut<T>(s: seq<T>, i: nat)
    requires i < |s|
    ensures Init(s)[..i] == s[..i] && Init(s)[i..] + [Last(s)] == s[i..]
    ensures Init(s) + [Last(s)] == s
  {
  }

  // A subsequence of s + t is cut where s ends.
  lemma {:induction false} SubsequenceCut<T>(c: seq<T>, s: seq<T>, t: seq<T>) returns (i: nat)
    requires Subsequence(c, s + t)
    ensures i <= |c| && Subsequence(c[..i], s) && Subsequence(c[i..], t)
    decreases |t|
  {
    if t == [] || c == [] {
      i := |c|;
      assert c[..i] == c && s + [] == s && c[i..] == [];
    } else {
      assert Init(s + t) == s + Init(t);
      if Last(c) == Last(t) && Subsequence(Init(c), s + Init(t)) {
        i := SubsequenceCut(Init(c), s, Init(t));
        SubsequenceExtend(Init(c)[i..], Init(t), Last(t));
        InitCut(c, i);
        InitCut(t, 0);
      } else {
        i := SubsequenceCut(c, s, Init(t));
        SubsequenceExtend(c[i..], Init(t), Last(t));
        assert Init(t) + [Last(t)] == t;
      }
    }
  }

  // What the last element of t adds behind a cut of t.
  lemma CutEnd<T>(d: seq<T>, t: seq<T>, j: nat)
    requires t != [] && j < |t|
    ensures Init(t)[..j] == t[..j]
    ensures Subsequence(d, Init(t)[j..]) ==> Subsequence(d, t[j..])
    ensures d != [] && Last(d) == Last(t) && Subsequence(Init(d), Init(t)[j..]) ==> Subsequence(d, t[j..])
  {
    assert Init(t[j..]) == Init(t)[j..];
  }

  // A subsequence c + d of t cuts t.
  lemma {:induction false} SubsequencePlace<T>(c: seq<T>, d: seq<T>, t: seq<T>) returns (j: nat)
    requires Subsequence(c + d, t)
    ensures j <= |t| && Subsequence(c, t[..j]) && Subsequence(d, t[j..])
    decreases |t|
  {
    if d == [] {
      j := |t|;
      assert c + d == c && t[..j] == t;
    } else {
      assert c + d != [];
      if Last(c + d) == Last(t) && Subsequence(Init(c + d), Init(t)) {
        assert Init(c + d) == c + Init(d);
        j := SubsequencePlace(c, Init(d), Init(t));
      } else {
        j := SubsequencePlace(c, d, Init(t));
      }
      CutEnd(d, t, j);
    }
  }

  // However a is halved, some cut of b splits a longest common subsequence.
  lemma LongestSplits<T>(x: seq<T>, y: seq<T>, b: seq<T>) returns (j: nat)
    ensures j <= |b| && Longest(x + y, b) <= Longest(x, b[..j]) + Longest(y, b[j..])
  {
    var c := LongestReached(x + y, b);
    var i := SubsequenceCut(c, x, y);
    assert c == c[..i] + c[i..];
    j := SubsequencePlace(c[..i], c[i..], b);
    LongestBounds(c[..i], x, b[..j]);
    LongestBounds(c[i..], y, b[j..]);
  }

  // ---- Reading backwards ----

  lemma {:induction false} SubsequenceReversed<T>(c: seq<T>, s: seq<T>)
    requires Subsequence(c, s)
    ensures Subsequence(Reverse(c), Reverse(s))
    decreases |s|
  {
    if c != [] {
      assert Subsequence([], [Last(s)]);
      if Last(c) == Last(s) && Subsequence(Init(c), Init(s)) {
        SubsequenceReversed(Init(c), Init(s));
        SubsequenceExtend([], [], Last(s));
        assert [] + [Last(s)] == [Last(s)];
        SubsequenceJoin([Last(c)], [Last(s)], Reverse(Init(c)), Reverse(Init(s)));
      } else {
        SubsequenceReversed(c, Init(s));
        SubsequenceJoin([], [Last(s)], Reverse(c), Reverse(Init(s)));
        assert [] + Reverse(c) == Reverse(c);
      }
    }
  }

  lemma LongestReversed<T>(a: seq<T>, b: seq<T>)
    ensures Longest(Reverse(a), Reverse(b)) == Longest(a, b)
  {
    var c := LongestReached(a, b);
    SubsequenceReversed(c, a);
    SubsequenceReversed(c, b);
    LongestBounds(Reverse(c), Reverse(a), Reverse(b));
    var d := LongestReached(Reverse(a), Reverse(b));
    SubsequenceReversed(d, Reverse(a));
    SubsequenceReversed(d, Reverse(b));
    ReverseTwice(a);
    ReverseTwice(b);
    LongestBounds(Reverse(d), a, b);
  }

  // ---- Common ends ----

  lemma {:induction false} LongestSuffix<T>(a: seq<T>, b: seq<T>, s: seq<T>)
    ensures Longest(a + s, b + s) == Longest(a, b) + |s|
    decreases |s|
  {
    if s == [] {
      assert a + s == a && b + s == b;
    } else {
      LongestSuffix(a, b, Init(s));
      assert Init(a + s) == a + Init(s) && Init(b + s) == b + Init(s);
    }
  }

  lemma LongestPrefix<T>(p: seq<T>, a: seq<T>, b: seq<T>)
    ensures Longest(p + a, p + b) == |p| + Longest(a, b)
  {
    LongestReversed(p + a, p + b);
    ReverseAppend(p, a);
    ReverseAppend(p, b);
    LongestSuffix(Reverse(a), Reverse(b), Reverse(p));
    LongestReversed(a, b);
  }

  // ---- Taking a subsequence from the front ----

  lemma {:induction false} SubsequenceFront<T>(x: T, c: seq<T>, s: seq<T>)
    requires Subsequence([x] + c, s)
    ensures s != []
    ensures s[0] == x ==> Subsequence(c, s[1..])
    ensures s[0] != x ==> Subsequence([x] + c, s[1..])
    decreases |s|
  {
    var d := [x] + c;
    if Last(d) == Last(s) && Subsequence(Init(d), Init(s)) {
      if c == [] {
        assert d == [x];
        if |s| > 1 {
          assert Subsequence([], s[1..|s| - 1]);
          SubsequenceExtend([], Init(s[1..]), Last(s));
          assert [] + [x] == [x] && Init(s[1..]) + [Last(s)] == s[1..];
        }
      } else {
        assert Init(d) == [x] + Init(c);
        SubsequenceFront(x, Init(c), Init(s));
        assert Init(s)[1..] == Init(s[1..]);
        assert Init(s[1..]) + [Last(s)] == s[1..] && Init(c) + [Last(c)] == c;
        if s[0] == x {
          SubsequenceExtend(Init(c), Init(s[1..]), Last(s));
        } else {
          SubsequenceExtend([x] + Init(c), Init(s[1..]), Last(s));
          assert [x] + Init(c) + [Last(c)] == [x] + c;
        }
      }
    } else {
      SubsequenceFront(x, c, Init(s));
      assert Init(s)[1..] == Init(s[1..]);
      assert Init(s[1..]) + [Last(s)] == s[1..];
      if s[0] == x {
        SubsequenceExtend(c, Init(s[1..]), Last(s));
      } else {
        SubsequenceExtend([x] + c, Init(s[1..]), Last(s));
      }
    }
  }
}
