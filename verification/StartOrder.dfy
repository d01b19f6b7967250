// The order in which tests start that may only run alone.
module StartOrder {
  import opened Sequences
  import opened Schedule
  import opened Dispatch

  lemma {:induction false} CarryingDiffer(keys: map<File, seq<Key>>, k: Key, s: seq<File>)
    requires Distinct(s)
    ensures Distinct(Carrying(keys, k, s)) && forall f :: f in Carrying(keys, k, s) ==> f in s
  {
    if s != [] {
      CarryingDiffer(keys, k, s[1..]);
      var rest := Carrying(keys, k, s[1..]);
      forall j | 0 <= j < |rest|
        ensures rest[j] in s && rest[j] != s[0]
      {
        assert rest[j] in s[1..];
      }
    }
  }

  // Tests that conflict with everything keep their order only where there is one
  // at most.
  lemma AllKeepOrder(keys: map<File, seq<Key>>, tests: seq<File>)
    requires Distinct(tests)
    ensures Reverse(Carrying(keys, All, tests)) == Carrying(keys, All, tests) <==> |Carrying(keys, All, tests)| <= 1
  {
    var all := Carrying(keys, All, tests);
    CarryingDiffer(keys, All, tests);
    if |all| > 0 {
      ReverseAt(all, 0);
    }
  }

  // Two such tests start in the opposite order.
  lemma TwoAlone(f: File, g: File)
    requires f != g
    ensures var keys := map[f := [All], g := [All]];
            && Carrying(keys, All, [f, g]) == [f, g]
            && Carrying(keys, All, Parallel(keys, [f, g]) + Reverse(Carrying(keys, All, [f, g]))) == [g, f]
  {
    var keys := map[f := [All], g := [All]];
    CarryingAll(keys, All, [f, g]);
    OrderOfTests(keys, [f, g]);
    ReverseAt([f, g], 0);
    ReverseAt([f, g], 1);
  }
}
