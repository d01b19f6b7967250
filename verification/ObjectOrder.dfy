// Restoring the order of object members in a rebuilt VARIANT.
module ObjectOrder {
  import opened Sequences

  type Key = string

  // A container has a slot for each child: the key, for objects, and the child's node.
  datatype Node = Leaf(id: nat) | Container(isObject: bool, keys: seq<Key>, children: seq<nat>)

  // A VARIANT's flat form; node 0 is the whole value.
  type Storage = seq<Node>

  // Children come after their container.
  ghost predicate Readable(s: Storage)
  {
    forall n :: 0 <= n < |s| ==> ReadableAt(s, n)
  }

  ghost predicate ReadableAt(s: Storage, n: nat)
    requires n < |s|
  {
    s[n].Container? ==>
      && |s[n].keys| == |s[n].children|
      && forall k :: 0 <= k < |s[n].children| ==> n < s[n].children[k] < |s|
  }

  // Nodes form a tree: each stands in one slot. An object's keys differ.
  ghost predicate Valid(s: Storage)
  {
    s != [] && Readable(s) && OneSlot(s) && KeysDiffer(s)
  }

  ghost predicate OneSlot(s: Storage)
  {
    forall n, k, m, j ::
      0 <= n < |s| && 0 <= m < |s| && s[n].Container? && s[m].Container?
      && 0 <= k < |s[n].children| && 0 <= j < |s[m].children| && s[n].children[k] == s[m].children[j]
      ==> n == m && k == j
  }

  ghost predicate KeysDiffer(s: Storage)
  {
    forall n :: 0 <= n < |s| && s[n].Container? && s[n].isObject ==> Distinct(s[n].keys)
  }

  datatype Tree = Scalar(id: nat) | Branch(isObject: bool, members: seq<Member>)
  datatype Member = Member(key: Key, tree: Tree)

  ghost function TreeOf(s: Storage, n: nat): Tree
    requires Readable(s) && n < |s|
    decreases |s| - n
  {
    if s[n].Leaf? then Scalar(s[n].id)
    else
      assert ReadableAt(s, n);
      Branch(s[n].isObject, seq(|s[n].children|, k requires 0 <= k < |s[n].children| =>
        Member(if s[n].isObject then s[n].keys[k] else "", TreeOf(s, s[n].children[k]))))
  }

  // The first slot with a key.
  function Find(keys: seq<Key>, key: Key): (k: nat)
    ensures k <= |keys| && (k < |keys| ==> keys[k] == key) && (k == |keys| ==> key !in keys)
  {
    if keys == [] || keys[0] == key then 0 else 1 + Find(keys[1..], key)
  }

  // The slot of the rebuilt container that holds child k of the original.
  function Partner(a: Node, b: Node, k: nat): nat
    requires a.Container? && b.Container? && k < |a.keys|
  {
    if a.isObject then Find(b.keys, a.keys[k]) else k
  }

  // b's node m is a's node n but for the order of object members and for leaves.
  ghost predicate Similar(a: Storage, n: nat, b: Storage, m: nat)
    requires Readable(a) && Readable(b) && n < |a| && m < |b|
    decreases |b| - m
  {
    if a[n].Leaf? then b[m].Leaf?
    else
      assert ReadableAt(a, n) && ReadableAt(b, m);
      && b[m].Container? && b[m].isObject == a[n].isObject && |b[m].children| == |a[n].children|
      && forall k :: 0 <= k < |a[n].children| ==>
           && Partner(a[n], b[m], k) < |b[m].children|
           && Similar(a, a[n].children[k], b, b[m].children[Partner(a[n], b[m], k)])
  }

  // b's tree with the members of every object in a's order, each with its own subtree.
  ghost function Reordered(a: Storage, n: nat, b: Storage, m: nat): Tree
    requires Readable(a) && Readable(b) && n < |a| && m < |b| && Similar(a, n, b, m)
    decreases |b| - m
  {
    if a[n].Leaf? then Scalar(b[m].id)
    else
      assert ReadableAt(a, n) && ReadableAt(b, m);
      Branch(a[n].isObject, seq(|a[n].children|, k requires 0 <= k < |a[n].children| =>
        Member(if a[n].isObject then a[n].keys[k] else "",
               Reordered(a, a[n].children[k], b, b[m].children[Partner(a[n], b[m], k)]))))
  }

  // The container b[m] with its slots rearranged for a[n].
  ghost predicate Placed(a: Node, b: Node, t: Node)
  {
    && t.Container? && b.Container? && a.Container? && t.isObject == b.isObject
    && |t.keys| == |t.children| == |b.children| == |b.keys| == |a.keys| == |a.children|
    && forall k :: 0 <= k < |a.keys| ==>
         && Partner(a, b, k) < |b.children|
         && (a.isObject ==> t.keys[k] == a.keys[k])
         && t.children[k] == b.children[Partner(a, b, k)]
  }

  lemma PlacedReads(a: Storage, n: nat, b: Storage, m: nat, t: Storage)
    requires Readable(a) && Readable(b) && Readable(t) && |t| == |b| && n < |a| && m < |b| && Similar(a, n, b, m)
    requires forall i, j :: Reaches(a, n, b, m, i, j) ==> SettledAt(a, i, b, j, t)
    ensures TreeOf(t, m) == Reordered(a, n, b, m)
    decreases |b| - m
  {
    assert Reaches(a, n, b, m, n, m);
    assert SettledAt(a, n, b, m, t);
    assert ReadableAt(a, n) && ReadableAt(b, m) && ReadableAt(t, m);
    if a[n].Container? {
      forall k | 0 <= k < |a[n].children|
        ensures TreeOf(t, t[m].children[k]) == Reordered(a, a[n].children[k], b, b[m].children[Partner(a[n], b[m], k)])
      {
        PlacedReads(a, a[n].children[k], b, b[m].children[Partner(a[n], b[m], k)], t);
      }
    }
  }

  // Walking both trees in step from n and m leads to i and j.
  ghost predicate Reaches(a: Storage, n: nat, b: Storage, m: nat, i: nat, j: nat)
    decreases |b| - m
  {
    (i == n && j == m)
    || (n < |a| && m < |b| && a[n].Container? && b[m].Container? && |a[n].keys| == |a[n].children|
        && exists k ::
             && 0 <= k < |a[n].children| && Partner(a[n], b[m], k) < |b[m].children|
             && m < b[m].children[Partner(a[n], b[m], k)] < |b|
             && Reaches(a, a[n].children[k], b, b[m].children[Partner(a[n], b[m], k)], i, j))
  }

  ghost predicate SettledAt(a: Storage, i: nat, b: Storage, j: nat, t: Storage)
  {
    && i < |a| && j < |b| && |t| == |b|
    && (if a[i].Container? then Placed(a[i], b[j], t[j]) else t[j] == b[j])
  }

  // ---- The worklist ----

  type Pair = (nat, nat)

  // How far the walk has come: partner gives the original's node for each rebuilt
  // node met so far, expanded are those already rearranged.
  ghost predicate Progress(a: Storage, b: Storage, t: Storage, pending: seq<Pair>, partner: map<nat, nat>, expanded: set<nat>)
  {
    && |t| == |b| && expanded <= partner.Keys
    && 0 in partner && partner[0] == 0
    && AllMet(a, b, partner)
    && Awaiting(pending, partner, expanded)
    && AllHaveParents(b, partner, expanded)
    && AllSettled(a, b, t, partner, expanded)
    && Untouched(b, t, expanded)
  }

  ghost predicate AllSettled(a: Storage, b: Storage, t: Storage, partner: map<nat, nat>, expanded: set<nat>)
  {
    forall j :: j in expanded ==> j in partner && SettledAt(a, partner[j], b, j, t) && ChildrenMet(a, b, partner, j)
  }

  ghost predicate Untouched(b: Storage, t: Storage, expanded: set<nat>)
  {
    |t| == |b| && forall j :: 0 <= j < |b| && j !in expanded ==> t[j] == b[j]
  }

  ghost predicate AllMet(a: Storage, b: Storage, partner: map<nat, nat>)
  {
    forall j :: j in partner ==> Met(a, b, partner[j], j)
  }

  ghost predicate AllHaveParents(b: Storage, partner: map<nat, nat>, expanded: set<nat>)
  {
    forall j :: j in partner && j != 0 ==> HasParent(b, expanded, j)
  }

  // more is partner with the children of an expanded pair, all met for the first time.
  ghost predicate Extends(partner: map<nat, nat>, more: map<nat, nat>, pairs: seq<Pair>)
  {
    && (forall x, y :: 0 <= x < y < |pairs| ==> pairs[x].1 != pairs[y].1)
    && (forall x :: 0 <= x < |pairs| ==> pairs[x].1 !in partner)
    && (forall j :: j in partner ==> j in more && more[j] == partner[j])
    && (forall x :: 0 <= x < |pairs| ==> ChildMet(more, pairs[x].0, pairs[x].1))
    && (forall j :: j in more ==> j in partner || (more[j], j) in pairs)
  }

  ghost predicate Met(a: Storage, b: Storage, i: nat, j: nat)
  {
    Readable(a) && Readable(b) && i < |a| && j < |b| && Similar(a, i, b, j)
  }

  // The pairs waiting are those met and not expanded, each once.
  ghost predicate Awaiting(pending: seq<Pair>, partner: map<nat, nat>, expanded: set<nat>)
  {
    && (forall x, y :: 0 <= x < y < |pending| ==> pending[x].1 != pending[y].1)
    && (forall x :: 0 <= x < |pending| ==>
          pending[x].1 in partner && partner[pending[x].1] == pending[x].0 && pending[x].1 !in expanded)
    && (forall j :: j in partner && j !in expanded ==> (partner[j], j) in pending)
  }

  ghost predicate HasParent(b: Storage, expanded: set<nat>, j: nat)
  {
    exists m, k :: m in expanded && m < |b| && b[m].Container? && 0 <= k < |b[m].children| && b[m].children[k] == j
  }

  ghost predicate ChildrenMet(a: Storage, b: Storage, partner: map<nat, nat>, j: nat)
    requires j in partner
  {
    && partner[j] < |a| && j < |b|
    && (a[partner[j]].Container? && b[j].Container? && |a[partner[j]].keys| == |a[partner[j]].children| ==>
          forall k :: 0 <= k < |a[partner[j]].children| && Partner(a[partner[j]], b[j], k) < |b[j].children| ==>
            ChildMet(partner, a[partner[j]].children[k], b[j].children[Partner(a[partner[j]], b[j], k)]))
  }

  ghost predicate ChildMet(partner: map<nat, nat>, i: nat, j: nat) { j in partner && partner[j] == i }

  // The pairs of children that expanding (i, j) adds.
  ghost predicate Pairs(a: Node, b: Node, pairs: seq<Pair>)
  {
    && a.Container? && b.Container? && |a.keys| == |a.children| == |pairs|
    && forall k :: 0 <= k < |pairs| ==>
         Partner(a, b, k) < |b.children| && pairs[k] == (a.children[k], b.children[Partner(a, b, k)])
  }

  lemma PartnersDiffer(a: Storage, b: Storage, i: nat, j: nat, pairs: seq<Pair>)
    requires KeysDiffer(a) && OneSlot(b) && i < |a| && j < |b| && Pairs(a[i], b[j], pairs)
    requires b[j].isObject == a[i].isObject && |b[j].keys| == |b[j].children|
    ensures forall x, y :: 0 <= x < y < |pairs| ==> pairs[x].1 != pairs[y].1
  {
    forall x, y | 0 <= x < y < |pairs|
      ensures pairs[x].1 != pairs[y].1
    {
      if a[i].isObject {
        assert a[i].keys[x] != a[i].keys[y];
      }
      assert Partner(a[i], b[j], x) != Partner(a[i], b[j], y);
    }
  }

  // The children's partners are added to those already met.
  lemma Extend(partner: map<nat, nat>, pairs: seq<Pair>) returns (more: map<nat, nat>)
    requires forall x, y :: 0 <= x < y < |pairs| ==> pairs[x].1 != pairs[y].1
    requires forall x :: 0 <= x < |pairs| ==> pairs[x].1 !in partner
    ensures Extends(partner, more, pairs)
  {
    more := partner;
    for n := 0 to |pairs|
      invariant forall j :: j in partner ==> j in more && more[j] == partner[j]
      invariant forall x :: 0 <= x < n ==> ChildMet(more, pairs[x].0, pairs[x].1)
      invariant forall j :: j in more ==> j in partner || (more[j], j) in pairs
    {
      more := more[pairs[n].1 := pairs[n].0];
      assert pairs[n] in pairs;
    }
  }

  // A child not yet expanded has not been met: its only slot is its parent's.
  lemma ChildrenAreNew(b: Storage, partner: map<nat, nat>, expanded: set<nat>, j: nat, k: nat)
    requires Readable(b) && OneSlot(b) && AllHaveParents(b, partner, expanded)
    requires j < |b| && j !in expanded && b[j].Container? && k < |b[j].children|
    ensures b[j].children[k] !in partner
  {
    assert ReadableAt(b, j);
    var c := b[j].children[k];
    assert c in partner ==> HasParent(b, expanded, c);
  }

  lemma ExpandLeaf(a: Storage, b: Storage, t: Storage, pending: seq<Pair>, partner: map<nat, nat>, expanded: set<nat>,
                   i: nat, j: nat)
    requires Progress(a, b, t, pending, partner, expanded)
    requires pending != [] && pending[|pending| - 1] == (i, j) && i < |a| && a[i].Leaf?
    ensures Progress(a, b, t, pending[..|pending| - 1], partner, expanded + {j})
  {
    var rest := pending[..|pending| - 1];
    assert Met(a, b, i, j);
    assert SettledAt(a, i, b, j, t);
    AwaitingRest(pending, partner, expanded, j);
    forall c | c in partner && c != 0
      ensures HasParent(b, expanded + {j}, c)
    {
      StillHasParent(b, expanded, c, j);
    }
  }

  lemma StillHasParent(b: Storage, expanded: set<nat>, c: nat, j: nat)
    requires HasParent(b, expanded, c)
    ensures HasParent(b, expanded + {j}, c)
  {
    var m, k :| m in expanded && m < |b| && b[m].Container? && 0 <= k < |b[m].children| && b[m].children[k] == c;
    assert m in expanded + {j};
  }

  lemma AwaitingRest(pending: seq<Pair>, partner: map<nat, nat>, expanded: set<nat>, j: nat)
    requires Awaiting(pending, partner, expanded) && pending != [] && pending[|pending| - 1].1 == j
    ensures Awaiting(pending[..|pending| - 1], partner, expanded + {j})
  {
    var rest := pending[..|pending| - 1];
    forall c | c in partner && c !in expanded + {j}
      ensures (partner[c], c) in rest
    {
      var x :| 0 <= x < |pending| && pending[x] == (partner[c], c);
      assert rest[x] == pending[x];
    }
  }

  lemma AwaitingMore(rest: seq<Pair>, partner: map<nat, nat>, expanded: set<nat>, pairs: seq<Pair>, more: map<nat, nat>)
    requires Awaiting(rest, partner, expanded) && expanded <= partner.Keys && Extends(partner, more, pairs)
    ensures Awaiting(rest + pairs, more, expanded)
  {
    var all := rest + pairs;
    forall x | 0 <= x < |all|
      ensures all[x].1 in more && more[all[x].1] == all[x].0 && all[x].1 !in expanded
    {
      if x >= |rest| {
        assert ChildMet(more, pairs[x - |rest|].0, pairs[x - |rest|].1);
      }
    }
    forall x, y | 0 <= x < y < |all|
      ensures all[x].1 != all[y].1
    {
    }
    forall j | j in more && j !in expanded
      ensures (more[j], j) in all
    {
      if j in partner {
        assert (partner[j], j) in rest;
      }
    }
  }

  ghost predicate LastIs(pending: seq<Pair>, i: nat, j: nat)
  {
    pending != [] && pending[|pending| - 1] == (i, j)
  }

  ghost predicate Expandable(a: Storage, b: Storage, i: nat, j: nat, node: Node, pairs: seq<Pair>)
  {
    && i < |a| && j < |b| && a[i].Container? && b[j].Container? && a[i].isObject == b[j].isObject
    && Placed(a[i], b[j], node) && Pairs(a[i], b[j], pairs)
  }

  lemma ExpandContainer(a: Storage, b: Storage, t: Storage, pending: seq<Pair>, partner: map<nat, nat>, expanded: set<nat>,
                        i: nat, j: nat, node: Node, pairs: seq<Pair>) returns (more: map<nat, nat>)
    requires KeysDiffer(a) && OneSlot(b) && Progress(a, b, t, pending, partner, expanded)
    requires LastIs(pending, i, j) && Expandable(a, b, i, j, node, pairs)
    ensures Progress(a, b, t[j := node], pending[..|pending| - 1] + pairs, more, expanded + {j})
  {
    more := MeetChildren(a, b, partner, expanded, i, j, pairs);
    AwaitingAfter(pending, partner, expanded, j, pairs, more);
    MetAfter(a, b, partner, i, j, pairs, more);
    ParentsAfter(a, b, partner, expanded, i, j, pairs, more);
    SettledAfter(a, b, t, partner, expanded, i, j, node, pairs, more);
    RootStays(partner, expanded, j, pairs, more);
    UntouchedAfter(b, t, expanded, j, node);
  }

  lemma RootStays(partner: map<nat, nat>, expanded: set<nat>, j: nat, pairs: seq<Pair>, more: map<nat, nat>)
    requires Extends(partner, more, pairs) && 0 in partner && partner[0] == 0 && expanded <= partner.Keys && j in partner
    ensures 0 in more && more[0] == 0 && expanded + {j} <= more.Keys
  {
  }

  lemma UntouchedAfter(b: Storage, t: Storage, expanded: set<nat>, j: nat, node: Node)
    requires Untouched(b, t, expanded) && j < |b|
    ensures Untouched(b, t[j := node], expanded + {j})
  {
  }

  lemma MeetChildren(a: Storage, b: Storage, partner: map<nat, nat>, expanded: set<nat>,
                     i: nat, j: nat, pairs: seq<Pair>) returns (more: map<nat, nat>)
    requires KeysDiffer(a) && Readable(b) && OneSlot(b) && AllHaveParents(b, partner, expanded)
    requires i < |a| && j < |b| && j !in expanded && Pairs(a[i], b[j], pairs) && a[i].isObject == b[j].isObject
    ensures Extends(partner, more, pairs)
  {
    PairsAreNew(a, b, partner, expanded, i, j, pairs);
    more := Extend(partner, pairs);
  }

  lemma AwaitingAfter(pending: seq<Pair>, partner: map<nat, nat>, expanded: set<nat>, j: nat, pairs: seq<Pair>,
                      more: map<nat, nat>)
    requires Awaiting(pending, partner, expanded) && pending != [] && pending[|pending| - 1].1 == j
    requires expanded <= partner.Keys && j in partner && Extends(partner, more, pairs)
    ensures Awaiting(pending[..|pending| - 1] + pairs, more, expanded + {j})
  {
    AwaitingRest(pending, partner, expanded, j);
    AwaitingMore(pending[..|pending| - 1], partner, expanded + {j}, pairs, more);
  }

  lemma PairsAreNew(a: Storage, b: Storage, partner: map<nat, nat>, expanded: set<nat>,
                    i: nat, j: nat, pairs: seq<Pair>)
    requires KeysDiffer(a) && Readable(b) && OneSlot(b) && AllHaveParents(b, partner, expanded)
    requires i < |a| && j < |b| && j !in expanded && Pairs(a[i], b[j], pairs) && a[i].isObject == b[j].isObject
    ensures forall x, y :: 0 <= x < y < |pairs| ==> pairs[x].1 != pairs[y].1
    ensures forall x :: 0 <= x < |pairs| ==> pairs[x].1 !in partner
  {
    assert ReadableAt(b, j);
    PartnersDiffer(a, b, i, j, pairs);
    forall x | 0 <= x < |pairs|
      ensures pairs[x].1 !in partner
    {
      ChildrenAreNew(b, partner, expanded, j, Partner(a[i], b[j], x));
    }
  }

  lemma MetAfter(a: Storage, b: Storage, partner: map<nat, nat>, i: nat, j: nat, pairs: seq<Pair>, more: map<nat, nat>)
    requires Met(a, b, i, j) && a[i].Container? && Pairs(a[i], b[j], pairs)
    requires AllMet(a, b, partner) && Extends(partner, more, pairs)
    ensures AllMet(a, b, more)
  {
    MetChildren(a, b, i, j, pairs);
    forall c | c in more
      ensures Met(a, b, more[c], c)
    {
      if c !in partner {
        var x :| 0 <= x < |pairs| && pairs[x] == (more[c], c);
        assert Met(a, b, pairs[x].0, pairs[x].1);
      }
    }
  }

  lemma MetChildren(a: Storage, b: Storage, i: nat, j: nat, pairs: seq<Pair>)
    requires Met(a, b, i, j) && a[i].Container? && Pairs(a[i], b[j], pairs)
    ensures forall x :: 0 <= x < |pairs| ==> Met(a, b, pairs[x].0, pairs[x].1)
  {
    assert ReadableAt(a, i) && ReadableAt(b, j);
  }

  lemma ParentsAfter(a: Storage, b: Storage, partner: map<nat, nat>, expanded: set<nat>, i: nat, j: nat, pairs: seq<Pair>,
                     more: map<nat, nat>)
    requires i < |a| && j < |b| && Pairs(a[i], b[j], pairs)
    requires AllHaveParents(b, partner, expanded) && Extends(partner, more, pairs)
    ensures AllHaveParents(b, more, expanded + {j})
  {
    forall c | c in more && c != 0
      ensures HasParent(b, expanded + {j}, c)
    {
      if c in partner {
        StillHasParent(b, expanded, c, j);
      } else {
        var x :| 0 <= x < |pairs| && pairs[x] == (more[c], c);
        assert j in expanded + {j} && b[j].children[Partner(a[i], b[j], x)] == c;
      }
    }
  }

  lemma SettledAfter(a: Storage, b: Storage, t: Storage, partner: map<nat, nat>, expanded: set<nat>, i: nat, j: nat,
                     node: Node, pairs: seq<Pair>, more: map<nat, nat>)
    requires |t| == |b| && j < |b| && i < |a| && j !in expanded && j in partner && partner[j] == i && expanded <= partner.Keys
    requires Placed(a[i], b[j], node) && Pairs(a[i], b[j], pairs)
    requires AllSettled(a, b, t, partner, expanded) && Extends(partner, more, pairs)
    ensures AllSettled(a, b, t[j := node], more, expanded + {j})
  {
    forall c | c in expanded + {j}
      ensures c in more && SettledAt(a, more[c], b, c, t[j := node]) && ChildrenMet(a, b, more, c)
    {
      if c == j {
        forall k | 0 <= k < |a[i].children| && Partner(a[i], b[j], k) < |b[j].children|
          ensures ChildMet(more, a[i].children[k], b[j].children[Partner(a[i], b[j], k)])
        {
          assert ChildMet(more, pairs[k].0, pairs[k].1);
        }
      } else {
        assert SettledAt(a, partner[c], b, c, t) && ChildrenMet(a, b, partner, c);
        StillMet(a, b, partner, more, c);
      }
    }
  }

  lemma StillMet(a: Storage, b: Storage, partner: map<nat, nat>, more: map<nat, nat>, c: nat)
    requires c in partner && ChildrenMet(a, b, partner, c)
    requires forall d :: d in partner ==> d in more && more[d] == partner[d]
    ensures ChildrenMet(a, b, more, c)
  {
    if partner[c] < |a| && c < |b| {
      var x, y := a[partner[c]], b[c];
      if x.Container? && y.Container? && |x.keys| == |x.children| {
        forall k | 0 <= k < |x.children| && Partner(x, y, k) < |y.children|
          ensures ChildMet(more, x.children[k], y.children[Partner(x, y, k)])
        {
          assert ChildMet(partner, x.children[k], y.children[Partner(x, y, k)]);
        }
      }
    }
  }

  // ---- The end of the walk ----

  lemma ReachedIsExpanded(a: Storage, b: Storage, t: Storage, partner: map<nat, nat>, n: nat, m: nat, i: nat, j: nat)
    requires AllMet(a, b, partner) && AllSettled(a, b, t, partner, partner.Keys)
    requires ChildMet(partner, n, m) && Reaches(a, n, b, m, i, j)
    ensures ChildMet(partner, i, j)
    decreases |b| - m
  {
    assert Met(a, b, n, m) && ChildrenMet(a, b, partner, m);
    if !(i == n && j == m) {
      var k :|
        && 0 <= k < |a[n].children| && Partner(a[n], b[m], k) < |b[m].children|
        && m < b[m].children[Partner(a[n], b[m], k)] < |b|
        && Reaches(a, a[n].children[k], b, b[m].children[Partner(a[n], b[m], k)], i, j);
      ReachedIsExpanded(a, b, t, partner, a[n].children[k], b[m].children[Partner(a[n], b[m], k)], i, j);
    }
  }

  lemma StaysReadable(a: Storage, b: Storage, t: Storage, pending: seq<Pair>, partner: map<nat, nat>, expanded: set<nat>)
    requires Readable(b) && Progress(a, b, t, pending, partner, expanded)
    ensures Readable(t)
  {
    forall n | 0 <= n < |t|
      ensures ReadableAt(t, n)
    {
      assert ReadableAt(b, n);
      if n in expanded {
        assert SettledAt(a, partner[n], b, n, t);
      }
    }
  }

  lemma Finished(a: Storage, b: Storage, t: Storage, partner: map<nat, nat>, expanded: set<nat>)
    requires Valid(a) && Valid(b) && Similar(a, 0, b, 0) && Progress(a, b, t, [], partner, expanded)
    ensures Readable(t) && TreeOf(t, 0) == Reordered(a, 0, b, 0)
  {
    StaysReadable(a, b, t, [], partner, expanded);
    assert expanded == partner.Keys;
    forall i, j | Reaches(a, 0, b, 0, i, j)
      ensures SettledAt(a, i, b, j, t)
    {
      ReachedIsExpanded(a, b, t, partner, 0, 0, i, j);
    }
    PlacedReads(a, 0, b, 0, t);
  }

  lemma Start(a: Storage, b: Storage)
    requires Valid(a) && Valid(b) && Similar(a, 0, b, 0)
    ensures Progress(a, b, b, [(0, 0)], map[0 := 0], {})
  {
    assert [(0, 0)][0] == (0, 0);
  }

  // Rearranges one container in place; from slot to slot it reads the copy.
  method Rearrange(before: Node, after: Node, result: array<Node>, j: nat) returns (pairs: seq<Pair>)
    requires before.Container? && after.Container? && j < result.Length && result[j] == after
    requires |before.keys| == |before.children| == |after.keys| == |after.children|
    requires before.isObject == after.isObject
    requires forall k :: 0 <= k < |before.keys| ==> Partner(before, after, k) < |after.children|
    modifies result
    ensures Placed(before, after, result[j]) && Pairs(before, after, pairs)
    ensures result[..] == old(result[..])[j := result[j]]
  {
    pairs := [];
    for k := 0 to |before.keys|
      invariant result[..] == old(result[..])[j := result[j]]
      invariant result[j].Container? && result[j].isObject == after.isObject
      invariant |result[j].keys| == |result[j].children| == |after.children| && |pairs| == k
      invariant forall x :: 0 <= x < k ==> pairs[x] == (before.children[x], after.children[Partner(before, after, x)])
      invariant forall x :: 0 <= x < k ==>
                  (before.isObject ==> result[j].keys[x] == before.keys[x])
                  && result[j].children[x] == after.children[Partner(before, after, x)]
      invariant !before.isObject ==> result[j] == after
    {
      var from := k;
      if before.isObject {
        from := Find(after.keys, before.keys[k]);
        assert from == Partner(before, after, k);
        result[j] := result[j].(keys := result[j].keys[k := after.keys[from]],
                                children := result[j].children[k := after.children[from]]);
      }
      pairs := pairs + [(before.children[k], after.children[from])];
    }
  }

  // One turn: the last pair is settled, and its children wait in turn.
  method Expand(original: Storage, rebuilt: Storage, result: array<Node>, pending: seq<Pair>,
                ghost partner: map<nat, nat>, ghost expanded: set<nat>)
      returns (more: seq<Pair>, ghost wider: map<nat, nat>, ghost done: set<nat>)
    requires Valid(original) && Valid(rebuilt) && pending != []
    requires Progress(original, rebuilt, result[..], pending, partner, expanded)
    modifies result
    ensures Progress(original, rebuilt, result[..], more, wider, done)
    ensures |expanded| < |rebuilt| && |done| == |expanded| + 1
  {
    var n := |pending| - 1;
    var i, j := pending[n].0, pending[n].1;
    ghost var before := result[..];
    Counted(original, rebuilt, before, pending, partner, expanded);
    assert Met(original, rebuilt, i, j);
    assert ReadableAt(original, i) && ReadableAt(rebuilt, j);
    more, done := pending[..n], expanded + {j};
    if original[i].Leaf? {
      ExpandLeaf(original, rebuilt, before, pending, partner, expanded, i, j);
      wider := partner;
    } else {
      assert before[j] == rebuilt[j];
      var pairs := Rearrange(original[i], rebuilt[j], result, j);
      wider := ExpandContainer(original, rebuilt, before, pending, partner, expanded, i, j, result[j], pairs);
      more := more + pairs;
    }
  }

  // Leaves every object's keys in the original's order, each with its own subtree.
  method RestoreObjectOrder(original: Storage, result: array<Node>)
    requires Valid(original) && Valid(result[..]) && Similar(original, 0, result[..], 0)
    modifies result
    ensures Readable(result[..])
    ensures TreeOf(result[..], 0) == Reordered(original, 0, old(result[..]), 0)
    ensures InOriginalOrder(TreeOf(original, 0), TreeOf(old(result[..]), 0), TreeOf(result[..], 0))
  {
    var rebuilt := result[..];
    var pending: seq<Pair> := [(0, 0)];
    ghost var partner: map<nat, nat>, expanded: set<nat> := map[0 := 0], {};
    Start(original, rebuilt);
    while pending != []
      invariant Progress(original, rebuilt, result[..], pending, partner, expanded)
      decreases |rebuilt| - |expanded|
    {
      pending, partner, expanded := Expand(original, rebuilt, result, pending, partner, expanded);
    }
    Finished(original, rebuilt, result[..], partner, expanded);
    ReorderedInOrder(original, 0, rebuilt, 0);
  }

  // after is before with the members of each object in the order that the original's
  // keys have, each with what stood under its own key before; arrays are as before.
  ghost predicate InOriginalOrder(original: Tree, before: Tree, after: Tree)
    decreases original
  {
    match original
    case Scalar(_) => after == before
    case Branch(isObject, members) =>
      && before.Branch? && after.Branch? && before.isObject == after.isObject == isObject
      && |members| == |before.members| == |after.members|
      && forall k :: 0 <= k < |members| ==>
           && after.members[k].key == members[k].key
           && exists j :: 0 <= j < |members| && StoodAt(isObject, members[k], before.members, j, k)
                && InOriginalOrder(members[k].tree, before.members[j].tree, after.members[k].tree)
  }

  // The original's member k stood at j: under its key in an object, at k in an array.
  predicate StoodAt(isObject: bool, member: Member, before: seq<Member>, j: nat, k: nat)
    requires j < |before|
  {
    if isObject then before[j].key == member.key else j == k
  }

  lemma {:induction false} ReorderedInOrder(a: Storage, n: nat, b: Storage, m: nat)
    requires Readable(a) && Readable(b) && n < |a| && m < |b| && Similar(a, n, b, m)
    ensures InOriginalOrder(TreeOf(a, n), TreeOf(b, m), Reordered(a, n, b, m))
    decreases |b| - m
  {
    if a[n].Container? {
      assert ReadableAt(a, n) && ReadableAt(b, m);
      forall k | 0 <= k < |a[n].children|
        ensures MemberInOrder(a, n, b, m, k, Partner(a[n], b[m], k))
      {
        ReorderedInOrder(a, a[n].children[k], b, b[m].children[Partner(a[n], b[m], k)]);
      }
      MembersInOrder(a, n, b, m);
    }
  }

  // Member k of the original, and member j of the container to be reordered.
  ghost predicate MemberInOrder(a: Storage, n: nat, b: Storage, m: nat, k: nat, j: nat)
    requires Readable(a) && Readable(b) && n < |a| && m < |b| && Similar(a, n, b, m)
    requires a[n].Container? && k < |TreeOf(a, n).members|
  {
    && j < |TreeOf(b, m).members|
    && StoodAt(a[n].isObject, TreeOf(a, n).members[k], TreeOf(b, m).members, j, k)
    && InOriginalOrder(TreeOf(a, n).members[k].tree, TreeOf(b, m).members[j].tree, Reordered(a, n, b, m).members[k].tree)
  }

  lemma MembersInOrder(a: Storage, n: nat, b: Storage, m: nat)
    requires Readable(a) && Readable(b) && n < |a| && m < |b| && Similar(a, n, b, m)
    requires a[n].Container? && b[m].Container? && |a[n].keys| == |TreeOf(a, n).members|
    requires forall k :: 0 <= k < |a[n].keys| ==> MemberInOrder(a, n, b, m, k, Partner(a[n], b[m], k))
    ensures InOriginalOrder(TreeOf(a, n), TreeOf(b, m), Reordered(a, n, b, m))
  {
  }

  // A pair that waits is one more than those expanded.
  lemma Counted(a: Storage, b: Storage, t: Storage, pending: seq<Pair>, partner: map<nat, nat>, expanded: set<nat>)
    requires Progress(a, b, t, pending, partner, expanded) && pending != []
    ensures pending[|pending| - 1].1 !in expanded && |expanded| < |b|
  {
    var all, last := Below(|b|), pending[|pending| - 1].1;
    forall j | j in expanded
      ensures j in all - {last}
    {
      assert Met(a, b, partner[j], j);
    }
    assert Met(a, b, partner[last], last);
    Fewer(expanded, all - {last});
  }

  ghost function Below(n: nat): (s: set<nat>)
    ensures |s| == n && forall k: nat :: k in s <==> k < n
  {
    if n == 0 then {} else Below(n - 1) + {n - 1}
  }

  lemma {:induction false} Fewer(s: set<nat>, t: set<nat>)
    requires s <= t
    ensures |s| <= |t|
  {
    if s != {} {
      var x :| x in s;
      Fewer(s - {x}, t - {x});
    }
  }
}
