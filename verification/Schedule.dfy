// Queues of test files and the conflict keys that hold them back.
module Schedule {
  import opened Sequences

  type File = string
  // A conflict key; no other test may run beside one that conflicts with "all".
  datatype Key = All | Named(name: string)
  type Worker = nat

  // Everything held in the lists of a map.
  ghost function Contents<K(!new)>(m: map<K, seq<File>>): multiset<File>
    decreases |m|
  {
    if m == map[] then multiset{}
    else
      var k: K :| k in m;
      multiset(m[k]) + Contents(m - {k})
  }

  // A map's value, where no entry reads as an empty list.
  function Listed<K>(m: map<K, seq<File>>, k: K): seq<File>
  {
    if k in m then m[k] else []
  }

  // The files that carry key k, in order.
  function Carrying(keys: map<File, seq<Key>>, k: Key, s: seq<File>): seq<File>
  {
    if s == [] then []
    else (if s[0] in keys && k in keys[s[0]] then [s[0]] else []) + Carrying(keys, k, s[1..])
  }

  // Every file that carries k carries no other key.
  ghost predicate Sole(keys: map<File, seq<Key>>, k: Key)
  {
    forall f, j :: f in keys && k in keys[f] && j in keys[f] ==> j == k
  }

  lemma {:induction false} CarryingAppend(keys: map<File, seq<Key>>, k: Key, s: seq<File>, t: seq<File>)
    ensures Carrying(keys, k, s + t) == Carrying(keys, k, s) + Carrying(keys, k, t)
  {
    if s == [] {
      assert s + t == t;
    } else {
      var rest := s[1..];
      CarryingAppend(keys, k, rest, t);
      assert (s + t)[1..] == rest + t;
      var head := if s[0] in keys && k in keys[s[0]] then [s[0]] else [];
      Associate(head, Carrying(keys, k, rest), Carrying(keys, k, t));
    }
  }

  lemma {:induction false} CarryingNone(keys: map<File, seq<Key>>, k: Key, s: seq<File>)
    requires forall f :: f in s && f in keys ==> k !in keys[f]
    ensures Carrying(keys, k, s) == []
  {
    if s != [] {
      CarryingNone(keys, k, s[1..]);
    }
  }

  lemma {:induction false} CarryingAll(keys: map<File, seq<Key>>, k: Key, s: seq<File>)
    requires forall f :: f in s ==> f in keys && k in keys[f]
    ensures Carrying(keys, k, s) == s
  {
    if s != [] {
      CarryingAll(keys, k, s[1..]);
    }
  }

  // One list can be set apart from what a map holds.
  lemma {:induction false} ContentsWithout<K(!new)>(m: map<K, seq<File>>, k: K)
    requires k in m
    ensures Contents(m) == multiset(m[k]) + Contents(m - {k})
    decreases |m|
  {
    var j: K :| j in m && Contents(m) == multiset(m[j]) + Contents(m - {j});
    if j != k {
      ContentsWithout(m - {j}, k);
      assert k in m - {j};
      ContentsWithout(m - {k}, j) by { assert j in m - {k}; }
      assert m - {j} - {k} == m - {k} - {j};
    }
  }

  lemma ContentsWith<K(!new)>(m: map<K, seq<File>>, k: K, s: seq<File>)
    ensures Contents(m[k := Listed(m, k) + s]) == Contents(m) + multiset(s)
  {
    var n := m[k := Listed(m, k) + s];
    ContentsWithout(n, k);
    assert n - {k} == m - {k};
    if k in m {
      ContentsWithout(m, k);
    } else {
      assert m - {k} == m;
    }
  }

  lemma ContentsAdd<K(!new)>(m: map<K, seq<File>>, k: K, s: seq<File>)
    requires k !in m
    ensures Contents(m[k := s]) == Contents(m) + multiset(s)
  {
    ContentsWithout(m[k := s], k);
    assert m[k := s] - {k} == m;
  }

  lemma ContentsHold<K(!new)>(m: map<K, seq<File>>, k: K, f: File)
    requires k in m && f in m[k]
    ensures f in Contents(m)
  {
    ContentsWithout(m, k);
  }
}
