// The collations inside a type: a walk with an explicit stack against the
// recursive list of them.
module Annotations {
  import opened Sequences

  type Collation = string

  datatype Type =
    | Varchar(collation: Collation)
    | Structure(fields: seq<Type>)
    | ListOf(item: Type)
    | ArrayOf(item: Type)
    | MapOf(key: Type, value: Type)
    | UnionOf(members: seq<Type>)
    | Plain

  type Path = seq<nat>

  datatype Annotation = Annotation(path: Path, collation: Collation)

  function Children(t: Type): (cs: seq<Type>)
    ensures forall c :: c in cs ==> c < t
  {
    match t
    case Structure(fields) => fields
    case ListOf(item) => [item]
    case ArrayOf(item) => [item]
    case MapOf(key, value) => [key, value]
    case UnionOf(members) => members
    case _ => []
  }

  // The collation of the node itself.
  function Own(t: Type, path: Path): seq<Annotation>
  {
    if t.Varchar? && t.collation != "" then [Annotation(path, t.collation)] else []
  }

  // All collations of a type, a node before its children and children in order.
  function Annotated(t: Type, path: Path): seq<Annotation>
    decreases t, |Children(t)| + 1
  {
    Own(t, path) + Below(t, path, 0)
  }

  // Those of the children from ordinal i on.
  function Below(t: Type, path: Path, i: nat): seq<Annotation>
    requires i <= |Children(t)|
    decreases t, |Children(t)| - i
  {
    if i == |Children(t)| then [] else Annotated(Children(t)[i], path + [i]) + Below(t, path, i + 1)
  }

  // ---- What the list says ----

  // The node a path leads to.
  predicate Leads(t: Type, path: Path, node: Type)
    decreases |path|
  {
    if path == [] then node == t
    else path[0] < |Children(t)| && Leads(Children(t)[path[0]], path[1..], node)
  }

  predicate Collated(t: Type, path: Path, c: Collation)
  {
    c != "" && Leads(t, path, Varchar(c))
  }

  ghost predicate Holds(list: seq<Annotation>, prefix: Path, path: Path, c: Collation)
  {
    Annotation(prefix + path, c) in list
  }

  // The list has every collated node under its path, and nothing else.
  lemma {:induction false} AnnotatedMeans(t: Type, prefix: Path)
    ensures forall p, c :: Holds(Annotated(t, prefix), prefix, p, c) <==> Collated(t, p, c)
    ensures forall a :: a in Annotated(t, prefix) ==> prefix <= a.path
    decreases t, |Children(t)| + 1
  {
    BelowMeans(t, prefix, 0);
    forall p, c
      ensures Holds(Annotated(t, prefix), prefix, p, c) <==> Collated(t, p, c)
    {
      OwnOrBelow(t, prefix, p, c);
    }
  }

  lemma OwnOrBelow(t: Type, prefix: Path, p: Path, c: Collation)
    requires forall q, d :: Holds(Below(t, prefix, 0), prefix, q, d) <==> q != [] && Collated(t, q, d)
    ensures Holds(Annotated(t, prefix), prefix, p, c) <==> Collated(t, p, c)
  {
    assert prefix + [] == prefix;
    if p == [] {
      assert Holds(Own(t, prefix), prefix, p, c) <==> Collated(t, p, c);
    } else {
      assert prefix + p != prefix by {
        assert |prefix + p| > |prefix|;
      }
    }
  }

  lemma {:induction false} BelowMeans(t: Type, prefix: Path, i: nat)
    requires i <= |Children(t)|
    ensures forall p, c :: Holds(Below(t, prefix, i), prefix, p, c) <==> p != [] && i <= p[0] && Collated(t, p, c)
    ensures forall a :: a in Below(t, prefix, i) ==> prefix < a.path && i <= a.path[|prefix|]
    decreases t, |Children(t)| - i
  {
    if i < |Children(t)| {
      AnnotatedMeans(Children(t)[i], prefix + [i]);
      BelowMeans(t, prefix, i + 1);
      forall p, c
        ensures Holds(Below(t, prefix, i), prefix, p, c) <==> p != [] && i <= p[0] && Collated(t, p, c)
      {
        ChildOrLater(t, prefix, i, p, c);
      }
    }
  }

  lemma ChildOrLater(t: Type, prefix: Path, i: nat, p: Path, c: Collation)
    requires i < |Children(t)|
    requires forall q, d :: Holds(Annotated(Children(t)[i], prefix + [i]), prefix + [i], q, d) <==> Collated(Children(t)[i], q, d)
    requires forall a :: a in Annotated(Children(t)[i], prefix + [i]) ==> prefix + [i] <= a.path
    requires forall q, d :: Holds(Below(t, prefix, i + 1), prefix, q, d) <==> q != [] && i + 1 <= q[0] && Collated(t, q, d)
    ensures Holds(Below(t, prefix, i), prefix, p, c) <==> p != [] && i <= p[0] && Collated(t, p, c)
  {
    var child := Annotated(Children(t)[i], prefix + [i]);
    assert Holds(Below(t, prefix, i), prefix, p, c) <==> Holds(child, prefix, p, c) || Holds(Below(t, prefix, i + 1), prefix, p, c);
    if p != [] && p[0] == i {
      assert prefix + p == (prefix + [i]) + p[1..];
      assert Holds(child, prefix, p, c) <==> Holds(child, prefix + [i], p[1..], c);
    } else {
      Elsewhere(prefix, i, p);
      assert !Holds(child, prefix, p, c);
      assert Holds(Below(t, prefix, i + 1), prefix, p, c) <==> p != [] && i + 1 <= p[0] && Collated(t, p, c);
    }
  }

  lemma Elsewhere(prefix: Path, i: nat, p: Path)
    requires p == [] || p[0] != i
    ensures !(prefix + [i] <= prefix + p)
  {
    assert (prefix + [i])[|prefix|] == i;
    assert p != [] ==> (prefix + p)[|prefix|] == p[0];
  }

  // ---- Order ----

  // a comes before b: at the first difference a has ended or has the smaller ordinal.
  predicate Before(a: Path, b: Path)
  {
    b != [] && (a == [] || a[0] < b[0] || (a[0] == b[0] && Before(a[1..], b[1..])))
  }

  predicate InOrder(list: seq<Annotation>)
  {
    forall i, j :: 0 <= i < j < |list| ==> Before(list[i].path, list[j].path)
  }

  lemma {:induction false} BeforeUnder(prefix: Path, a: Path, b: Path)
    requires Before(a, b)
    ensures Before(prefix + a, prefix + b)
  {
    if prefix == [] {
      assert prefix + a == a && prefix + b == b;
    } else {
      BeforeUnder(prefix[1..], a, b);
      assert (prefix + a)[1..] == prefix[1..] + a && (prefix + b)[1..] == prefix[1..] + b;
    }
  }

  lemma {:induction false} BeforeDiffers(a: Path, b: Path)
    requires Before(a, b)
    ensures a != b
  {
    if a != [] && a[0] == b[0] {
      BeforeDiffers(a[1..], b[1..]);
    }
  }

  lemma OrderJoined(a: seq<Annotation>, b: seq<Annotation>)
    requires InOrder(a) && InOrder(b)
    requires forall x, y :: x in a && y in b ==> Before(x.path, y.path)
    ensures InOrder(a + b)
  {
    var s := a + b;
    forall i, j | 0 <= i < j < |s|
      ensures Before(s[i].path, s[j].path)
    {
      if i < |a| <= j {
        assert s[i] in a && s[j] in b;
      }
    }
  }

  // Paths rise from entry to entry, so no two entries share one.
  lemma {:induction false} AnnotatedInOrder(t: Type, prefix: Path)
    ensures InOrder(Annotated(t, prefix))
    decreases t, |Children(t)| + 1
  {
    BelowInOrder(t, prefix, 0);
    assert Own(t, prefix) == [] || Below(t, prefix, 0) == [];
    OrderJoined(Own(t, prefix), Below(t, prefix, 0));
  }

  lemma {:induction false} BelowInOrder(t: Type, prefix: Path, i: nat)
    requires i <= |Children(t)|
    ensures InOrder(Below(t, prefix, i))
    decreases t, |Children(t)| - i
  {
    if i < |Children(t)| {
      var child := Children(t)[i];
      AnnotatedInOrder(child, prefix + [i]);
      AnnotatedMeans(child, prefix + [i]);
      BelowInOrder(t, prefix, i + 1);
      BelowMeans(t, prefix, i + 1);
      forall x, y | x in Annotated(child, prefix + [i]) && y in Below(t, prefix, i + 1)
        ensures Before(x.path, y.path)
      {
        SiblingsInOrder(prefix, i, x.path, y.path);
      }
      OrderJoined(Annotated(child, prefix + [i]), Below(t, prefix, i + 1));
    }
  }

  lemma SiblingsInOrder(prefix: Path, i: nat, a: Path, b: Path)
    requires prefix + [i] <= a && prefix < b && i < b[|prefix|]
    ensures Before(a, b)
  {
    var x, y := a[|prefix|..], b[|prefix|..];
    assert a == prefix + x && b == prefix + y;
    assert x[0] == a[|prefix|] == i;
    BeforeUnder(prefix, x, y);
  }

  // The paths of a type's collations differ.
  lemma PathsAreDistinct(t: Type, i: nat, j: nat)
    requires i < j < |Annotated(t, [])|
    ensures Annotated(t, [])[i].path != Annotated(t, [])[j].path
  {
    AnnotatedInOrder(t, []);
    BeforeDiffers(Annotated(t, [])[i].path, Annotated(t, [])[j].path);
  }

  // ---- The walk ----

  datatype Frame = Frame(node: Type, nextChild: nat, visited: bool)

  // The child of an ordinal, asked for by the kind of type.
  method ChildAt(t: Type, ordinal: nat) returns (found: bool, child: Type)
    ensures found <==> ordinal < |Children(t)|
    ensures found ==> child == Children(t)[ordinal]
  {
    found, child := false, t;
    match t
    case Structure(fields) =>
      if ordinal < |fields| {
        return true, fields[ordinal];
      }
    case ListOf(item) =>
      if ordinal == 0 {
        return true, item;
      }
    case ArrayOf(item) =>
      if ordinal == 0 {
        return true, item;
      }
    case MapOf(key, value) =>
      if ordinal == 0 {
        return true, key;
      }
      if ordinal == 1 {
        return true, value;
      }
    case UnionOf(members) =>
      if ordinal < |members| {
        return true, members[ordinal];
      }
    case Varchar(_) =>
    case Plain =>
  }

  // The path below the root that the frames stand for.
  ghost predicate OnPath(pending: seq<Frame>, path: Path)
  {
    && (pending == [] ==> path == [])
    && (pending != [] ==> |path| == |pending| - 1)
    && (forall k :: 0 <= k < |pending| ==> pending[k].nextChild <= |Children(pending[k].node)|)
    && (forall k :: 0 <= k < |path| ==> pending[k].visited && pending[k].nextChild > 0 && path[k] == pending[k].nextChild - 1)
  }

  // What the frames still have to list, the last frame first.
  ghost function Remaining(pending: seq<Frame>, path: Path): seq<Annotation>
    requires OnPath(pending, path)
    decreases |pending|
  {
    if pending == [] then []
    else
      var n := |pending| - 1;
      var frame := pending[n];
      (if frame.visited then [] else Own(frame.node, path))
      + Below(frame.node, path, frame.nextChild)
      + Remaining(pending[..n], if n == 0 then [] else path[..n - 1])
  }

  // The turns the walk still takes: one for each node to enter and one to leave it.
  ghost function Turns(t: Type, i: nat): nat
    requires i <= |Children(t)|
    decreases t, |Children(t)| - i
  {
    if i == |Children(t)| then 1 else 1 + Turns(Children(t)[i], 0) + Turns(t, i + 1)
  }

  ghost function TurnsLeft(pending: seq<Frame>): nat
    requires forall k :: 0 <= k < |pending| ==> pending[k].nextChild <= |Children(pending[k].node)|
  {
    if pending == [] then 0
    else
      var n := |pending| - 1;
      Turns(pending[n].node, pending[n].nextChild) + TurnsLeft(pending[..n])
  }

  method TypeAnnotations(root: Type) returns (annotations: seq<Annotation>)
    ensures annotations == Annotated(root, [])
  {
    var pending := [Frame(root, 0, false)];
    var path: Path := [];
    annotations := [];
    assert pending[..0] == [] && Remaining(pending, path) == Annotated(root, []) + [];
    while pending != []
      invariant Underway(annotations, pending, path, Annotated(root, []))
      decreases TurnsLeft(pending)
    {
      var n := |pending| - 1;
      var frame := pending[n];
      ghost var own := if frame.visited then [] else Own(frame.node, path);
      VisitedRemains(pending, pending[n := frame.(visited := true)], path, annotations, own, Annotated(root, []));
      if !frame.visited {
        annotations := Visit(frame.node, path, annotations);
        pending := pending[n := frame.(visited := true)];
      }
      assert pending[n] == frame.(visited := true);
      var ordinal := frame.nextChild;
      var found, child := ChildAt(frame.node, ordinal);
      if found {
        ghost var visited, above := pending, path;
        pending := pending[n := pending[n].(nextChild := ordinal + 1)] + [Frame(child, 0, false)];
        path := path + [ordinal];
        PushRemains(visited, above, pending, path, child, ordinal);
      } else {
        PopRemains(pending, path);
        pending := pending[..n];
        if path != [] {
          path := path[..|path| - 1];
        }
      }
    }
  }

  method Visit(node: Type, path: Path, annotations: seq<Annotation>) returns (more: seq<Annotation>)
    ensures more == annotations + Own(node, path)
  {
    if node.Varchar? && node.collation != "" {
      more := annotations + [Annotation(path, node.collation)];
    } else {
      more := annotations;
    }
  }

  ghost predicate Underway(annotations: seq<Annotation>, pending: seq<Frame>, path: Path, whole: seq<Annotation>)
  {
    OnPath(pending, path) && annotations + Remaining(pending, path) == whole
  }

  lemma VisitedRest(before: seq<Frame>, after: seq<Frame>, path: Path)
    requires before != [] && OnPath(before, path)
    requires after == before[|before| - 1 := before[|before| - 1].(visited := true)]
    ensures OnPath(after, path) && TurnsLeft(after) == TurnsLeft(before)
    ensures Remaining(before, path) ==
            (if before[|before| - 1].visited then [] else Own(before[|before| - 1].node, path)) + Remaining(after, path)
  {
    var n := |before| - 1;
    var up := if n == 0 then [] else path[..n - 1];
    assert after[..n] == before[..n];
    Unrolled(after, path, n, up);
    var own := if before[n].visited then [] else Own(before[n].node, path);
    Associate(own, Below(before[n].node, path, before[n].nextChild), Remaining(before[..n], up));
  }

  lemma VisitedRemains(before: seq<Frame>, after: seq<Frame>, path: Path, list: seq<Annotation>, own: seq<Annotation>,
                       whole: seq<Annotation>)
    requires before != [] && Underway(list, before, path, whole)
    requires after == before[|before| - 1 := before[|before| - 1].(visited := true)]
    requires own == if before[|before| - 1].visited then [] else Own(before[|before| - 1].node, path)
    ensures Underway(list + own, after, path, whole) && TurnsLeft(after) == TurnsLeft(before)
  {
    VisitedRest(before, after, path);
    Associate(list, own, Remaining(after, path));
  }

  // What is left below an entered frame, without its own entry.
  lemma Unrolled(pending: seq<Frame>, path: Path, n: nat, up: Path)
    requires |pending| == n + 1 && OnPath(pending, path) && pending[n].visited && up == if n == 0 then [] else path[..n - 1]
    ensures OnPath(pending[..n], up)
    ensures Remaining(pending, path) == Below(pending[n].node, path, pending[n].nextChild) + Remaining(pending[..n], up)
  {
    assert [] + Below(pending[n].node, path, pending[n].nextChild) == Below(pending[n].node, path, pending[n].nextChild);
  }

  lemma Entered(pending: seq<Frame>, child: Type, longer: Path, path: Path)
    requires OnPath(pending, path) && pending != [] && OnPath(pending + [Frame(child, 0, false)], longer) && path == longer[..|pending| - 1]
    ensures Remaining(pending + [Frame(child, 0, false)], longer) == Annotated(child, longer) + Remaining(pending, path)
  {
    var after := pending + [Frame(child, 0, false)];
    assert after[..|pending|] == pending;
  }

  lemma PushRemains(before: seq<Frame>, path: Path, after: seq<Frame>, longer: Path, child: Type, i: nat)
    requires before != [] && OnPath(before, path) && before[|before| - 1].visited
    requires i == before[|before| - 1].nextChild < |Children(before[|before| - 1].node)|
    requires child == Children(before[|before| - 1].node)[i]
    requires after == before[|before| - 1 := before[|before| - 1].(nextChild := i + 1)] + [Frame(child, 0, false)]
    requires longer == path + [i]
    ensures OnPath(after, longer) && Remaining(after, longer) == Remaining(before, path)
    ensures TurnsLeft(after) < TurnsLeft(before)
  {
    var n := |before| - 1;
    var middle := before[n := before[n].(nextChild := i + 1)];
    var node, up := before[n].node, if n == 0 then [] else path[..n - 1];
    assert after[..n + 1] == middle && middle[..n] == before[..n];
    assert OnPath(middle, path);
    assert longer[..n] == path;
    BelowUnrolled(before, middle, path, n, up, child, i);
    Entered(middle, child, longer, path);
  }

  lemma BelowUnrolled(before: seq<Frame>, middle: seq<Frame>, path: Path, n: nat, up: Path, child: Type, i: nat)
    requires |before| == n + 1 && OnPath(before, path) && before[n].visited && up == if n == 0 then [] else path[..n - 1]
    requires i == before[n].nextChild < |Children(before[n].node)| && child == Children(before[n].node)[i]
    requires middle == before[n := before[n].(nextChild := i + 1)] && OnPath(middle, path)
    ensures Remaining(before, path) == Annotated(child, path + [i]) + Remaining(middle, path)
  {
    assert middle[..n] == before[..n];
    Unrolled(before, path, n, up);
    Unrolled(middle, path, n, up);
    Associate(Annotated(child, path + [i]), Below(before[n].node, path, i + 1), Remaining(before[..n], up));
  }

  lemma PopRemains(pending: seq<Frame>, path: Path)
    requires pending != [] && OnPath(pending, path)
    requires var n := |pending| - 1; pending[n].visited && pending[n].nextChild == |Children(pending[n].node)|
    ensures var n := |pending| - 1; var up := if n == 0 then [] else path[..n - 1];
            && OnPath(pending[..n], up) && Remaining(pending[..n], up) == Remaining(pending, path)
            && TurnsLeft(pending[..n]) < TurnsLeft(pending)
  {
  }
}
