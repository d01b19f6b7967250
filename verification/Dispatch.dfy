// The parallel test runner: files move from the queue through waiting lists and
// batches to the finished list, driven by the messages of the workers.
module Dispatch {
  import opened Schedule
  import opened Sequences

  ghost predicate Carries(keys: map<File, seq<Key>>, k: Key, files: seq<File>)
  {
    forall f :: f in files ==> f in keys && k in keys[f]
  }

  // All keys of the files belong to w.
  ghost predicate Holds(keys: map<File, seq<Key>>, active: map<Key, Worker>, files: seq<File>, w: Worker)
  {
    forall f, k :: f in files && f in keys && k in keys[f] ==> k in active && active[k] == w
  }

  // The conflict keys of every file under way belong to its worker, and no key
  // is held without a worker at work.
  ghost predicate Held(keys: map<File, seq<Key>>, active: map<Key, Worker>, batches: map<Worker, seq<File>>)
  {
    && (forall w :: w in batches ==> Holds(keys, active, batches[w], w) && batches[w] != [])
    && (forall k :: k in active ==> active[k] in batches)
  }

  // A file waits for a key of its own that some worker holds.
  ghost predicate Waits(keys: map<File, seq<Key>>, active: map<Key, Worker>, waiting: map<Key, seq<File>>)
  {
    forall k :: k in waiting ==> k in active && Carries(keys, k, waiting[k])
  }

  // Files that share their only key are started in the given order; stack are the
  // files still to come, the last one first.
  ghost predicate Ordered(keys: map<File, seq<Key>>, order: seq<File>, started: seq<File>,
                          waiting: map<Key, seq<File>>, stack: seq<File>)
  {
    forall k | Sole(keys, k) :: OrderedFor(keys, order, started, waiting, stack, k)
  }

  ghost predicate OrderedFor(keys: map<File, seq<Key>>, order: seq<File>, started: seq<File>,
                             waiting: map<Key, seq<File>>, stack: seq<File>, k: Key)
  {
    Carrying(keys, k, started) + (Listed(waiting, k) + Carrying(keys, k, Reverse(stack))) == Carrying(keys, k, order)
  }

  ghost function Pool(queue: seq<File>, waiting: map<Key, seq<File>>, batches: map<Worker, seq<File>>): multiset<File>
  {
    multiset(queue) + Contents(waiting) + Contents(batches)
  }

  // Every file is in exactly one place.
  ghost predicate Partition(queue: seq<File>, waiting: map<Key, seq<File>>, batches: map<Worker, seq<File>>,
                            sequential: seq<File>, finished: seq<File>, tests: seq<File>)
  {
    Pool(queue, waiting, batches) + multiset(sequential) + multiset(finished) == multiset(tests)
  }

  // Files that conflict with everything leave their list when one worker is left.
  ghost predicate Apart(keys: map<File, seq<Key>>, queue: seq<File>, waiting: map<Key, seq<File>>,
                        batches: map<Worker, seq<File>>, procs: set<Worker>, sequential: seq<File>)
  {
    forall f :: f in Pool(queue, waiting, batches) && f in keys && All in keys[f] ==> |procs| <= 1 && sequential == []
  }

  // Every live worker is starting, at work or idle, and while files are left
  // some worker lives.
  ghost predicate Staffed(procs: set<Worker>, starting: set<Worker>, batches: map<Worker, seq<File>>,
                          idle: set<Worker>, inProgress: int, queue: seq<File>, sequential: seq<File>)
  {
    && procs == starting + batches.Keys + idle
    && starting !! batches.Keys && starting !! idle && batches.Keys !! idle
    && inProgress == |batches|
    && (procs == {} ==> queue == [] && sequential == [])
  }

  // Two workers never run files that share a key.
  lemma RunningFilesShareNoKey(keys: map<File, seq<Key>>, active: map<Key, Worker>, batches: map<Worker, seq<File>>,
                               v: Worker, w: Worker, f: File, g: File, k: Key)
    requires Held(keys, active, batches)
    requires v in batches && f in batches[v] && f in keys && k in keys[f]
    requires w in batches && g in batches[w] && g in keys && k in keys[g]
    ensures v == w
  {
    assert Holds(keys, active, batches[v], v) && Holds(keys, active, batches[w], w);
    assert active[k] == v;
  }

  // ---- What each move does to the order ----

  lemma RequeuedFor(keys: map<File, seq<Key>>, k: Key, j: Key, started: seq<File>, held: seq<File>, coming: seq<File>)
    requires Sole(keys, j) && Carries(keys, k, held)
    ensures started + ([] + Carrying(keys, j, held + coming)) ==
            started + ((if j == k then held else []) + Carrying(keys, j, coming))
    ensures j != k ==> Carrying(keys, j, held + coming) == Carrying(keys, j, coming)
  {
    CarryingAppend(keys, j, held, coming);
    if j == k {
      CarryingAll(keys, k, held);
    } else {
      CarryingNone(keys, j, held);
    }
    NothingAhead(Carrying(keys, j, held + coming));
    NothingAhead(Carrying(keys, j, coming));
  }

  lemma NothingAhead(s: seq<File>)
    ensures [] + s == s
  {
  }

  lemma RequeuedComes(queue: seq<File>, held: seq<File>)
    ensures Reverse(queue + Reverse(held)) == held + Reverse(queue)
  {
    ReverseAppend(queue, Reverse(held));
    ReverseTwice(held);
  }

  lemma OrderRequeued(keys: map<File, seq<Key>>, order: seq<File>, started: seq<File>,
                      waiting: map<Key, seq<File>>, queue: seq<File>, k: Key)
    requires Ordered(keys, order, started, waiting, queue)
    requires k in waiting && Carries(keys, k, waiting[k])
    ensures Ordered(keys, order, started, waiting - {k}, queue + Reverse(waiting[k]))
  {
    RequeuedComes(queue, waiting[k]);
    forall j | Sole(keys, j)
      ensures OrderedFor(keys, order, started, waiting - {k}, queue + Reverse(waiting[k]), j)
    {
      assert OrderedFor(keys, order, started, waiting, queue, j);
      RequeuedFor(keys, k, j, Carrying(keys, j, started), waiting[k], Reverse(queue));
    }
  }

  lemma CarryingHead(keys: map<File, seq<Key>>, j: Key, f: File, coming: seq<File>)
    requires f in keys
    ensures Carrying(keys, j, [f] + coming) == (if j in keys[f] then [f] else []) + Carrying(keys, j, coming)
  {
    assert ([f] + coming)[1..] == coming;
  }

  lemma HeldBackTogether(a: seq<File>, b: seq<File>, f: seq<File>, c: seq<File>)
    ensures a + (b + (f + c)) == a + ((b + f) + c)
  {
  }

  lemma OrderHeldBack(keys: map<File, seq<Key>>, order: seq<File>, started: seq<File>,
                      waiting: map<Key, seq<File>>, queue: seq<File>, f: File, k: Key)
    requires Ordered(keys, order, started, waiting, queue + [f])
    requires f in keys && k in keys[f]
    ensures Ordered(keys, order, started, waiting[k := Listed(waiting, k) + [f]], queue)
  {
    ReversePop(queue, f);
    forall j | Sole(keys, j)
      ensures OrderedFor(keys, order, started, waiting[k := Listed(waiting, k) + [f]], queue, j)
    {
      assert OrderedFor(keys, order, started, waiting, queue + [f], j);
      var coming := Reverse(queue);
      CarryingHead(keys, j, f, coming);
      if j in keys[f] {
        HeldBackTogether(Carrying(keys, j, started), Listed(waiting, j), [f], Carrying(keys, j, coming));
      } else {
        assert [] + Carrying(keys, j, coming) == Carrying(keys, j, coming);
      }
    }
  }

  lemma StartedFor(keys: map<File, seq<Key>>, j: Key, f: File, started: seq<File>, coming: seq<File>)
    requires f in keys
    ensures Carrying(keys, j, started) + ([] + Carrying(keys, j, [f] + coming))
            == Carrying(keys, j, started + [f]) + ([] + Carrying(keys, j, coming))
    ensures j !in keys[f] ==> Carrying(keys, j, started + [f]) == Carrying(keys, j, started)
    ensures j !in keys[f] ==> Carrying(keys, j, [f] + coming) == Carrying(keys, j, coming)
  {
    CarryingHead(keys, j, f, coming);
    CarryingAppend(keys, j, started, [f]);
    CarryingHead(keys, j, f, []);
    assert [f] + [] == [f];
    HeldBackTogether(Carrying(keys, j, started), [], if j in keys[f] then [f] else [], Carrying(keys, j, coming));
  }

  lemma OrderStarted(keys: map<File, seq<Key>>, order: seq<File>, started: seq<File>,
                     waiting: map<Key, seq<File>>, queue: seq<File>, f: File)
    requires Ordered(keys, order, started, waiting, queue + [f])
    requires f in keys && forall k :: k in keys[f] ==> k !in waiting
    ensures Ordered(keys, order, started + [f], waiting, queue)
  {
    ReversePop(queue, f);
    forall j | Sole(keys, j)
      ensures OrderedFor(keys, order, started + [f], waiting, queue, j)
    {
      assert OrderedFor(keys, order, started, waiting, queue + [f], j);
      StartedFor(keys, j, f, started, Reverse(queue));
    }
  }

  // Merging brings the sequential files to the top of the stack, where nothing
  // with their key is left.
  lemma OrderMerged(keys: map<File, seq<Key>>, order: seq<File>, started: seq<File>,
                    waiting: map<Key, seq<File>>, queue: seq<File>, sequential: seq<File>)
    requires Ordered(keys, order, started, waiting, sequential + queue)
    requires Carries(keys, All, sequential)
    requires sequential == [] || forall f :: f in queue && f in keys ==> All !in keys[f]
    ensures Ordered(keys, order, started, waiting, queue + sequential)
  {
    ReverseAppend(queue, sequential);
    ReverseAppend(sequential, queue);
    ReversedCarries(keys, All, sequential);
    ReversedFree(keys, All, queue, sequential == []);
    forall j | Sole(keys, j)
      ensures OrderedFor(keys, order, started, waiting, queue + sequential, j)
    {
      assert OrderedFor(keys, order, started, waiting, sequential + queue, j);
      MergedFor(keys, j, Reverse(sequential), Reverse(queue));
    }
  }

  lemma MergedFor(keys: map<File, seq<Key>>, j: Key, held: seq<File>, coming: seq<File>)
    requires Sole(keys, j) && Carries(keys, All, held)
    requires held == [] || forall f :: f in coming && f in keys ==> All !in keys[f]
    ensures Carrying(keys, j, held + coming) == Carrying(keys, j, coming + held)
  {
    CarryingAppend(keys, j, held, coming);
    CarryingAppend(keys, j, coming, held);
    if j != All {
      CarryingNone(keys, j, held);
    } else if held != [] {
      CarryingNone(keys, j, coming);
    }
  }

  lemma ReversedFree(keys: map<File, seq<Key>>, k: Key, s: seq<File>, trivial: bool)
    requires trivial || forall f :: f in s && f in keys ==> k !in keys[f]
    ensures trivial || forall f :: f in Reverse(s) && f in keys ==> k !in keys[f]
  {
    ReverseContents(s);
    forall f | f in Reverse(s)
      ensures f in s
    {
      assert f in multiset(Reverse(s));
    }
  }

  lemma ReversedCarries(keys: map<File, seq<Key>>, k: Key, s: seq<File>)
    requires Carries(keys, k, s)
    ensures Carries(keys, k, Reverse(s))
  {
    ReverseContents(s);
    forall f | f in Reverse(s)
      ensures f in s
    {
      assert f in multiset(Reverse(s));
    }
  }

  // ---- Setting up ----

  // The files that may run beside others.
  function Parallel(keys: map<File, seq<Key>>, s: seq<File>): seq<File>
  {
    if s == [] then []
    else (if s[0] in keys && All in keys[s[0]] then [] else [s[0]]) + Parallel(keys, s[1..])
  }

  lemma {:induction false} ParallelAppend(keys: map<File, seq<Key>>, s: seq<File>, f: File)
    ensures Parallel(keys, s + [f]) ==
            Parallel(keys, s) + (if f in keys && All in keys[f] then [] else [f])
  {
    if s == [] {
      assert [f][1..] == [];
    } else {
      ParallelAppend(keys, s[1..], f);
      assert (s + [f])[1..] == s[1..] + [f];
    }
  }

  // Setting the sequential files apart loses none.
  lemma {:induction false} SetApart(keys: map<File, seq<Key>>, s: seq<File>)
    ensures multiset(Parallel(keys, s)) + multiset(Carrying(keys, All, s)) == multiset(s)
  {
    if s != [] {
      var rest := s[1..];
      SetApart(keys, rest);
      assert s == [s[0]] + rest;
      assert multiset(s) == multiset([s[0]]) + multiset(rest);
    }
  }

  lemma {:induction false} ApartMeans(keys: map<File, seq<Key>>, s: seq<File>)
    ensures forall f :: f in Parallel(keys, s) && f in keys ==> All !in keys[f]
    ensures Carries(keys, All, Carrying(keys, All, s))
  {
    if s != [] {
      ApartMeans(keys, s[1..]);
    }
  }

  lemma {:induction false} ParallelKeepsOrder(keys: map<File, seq<Key>>, s: seq<File>, k: Key)
    requires Sole(keys, k) && k != All
    ensures Carrying(keys, k, Parallel(keys, s)) == Carrying(keys, k, s)
  {
    if s != [] {
      ParallelKeepsOrder(keys, s[1..], k);
      var head := if s[0] in keys && All in keys[s[0]] then [] else [s[0]];
      CarryingAppend(keys, k, head, Parallel(keys, s[1..]));
    }
  }

  method Split(keys: map<File, seq<Key>>, tests: seq<File>) returns (files: seq<File>, sequential: seq<File>)
    requires forall f :: f in tests ==> f in keys
    ensures files == Parallel(keys, tests)
    ensures sequential == Carrying(keys, All, tests)
  {
    files, sequential := [], [];
    for i := 0 to |tests|
      invariant files == Parallel(keys, tests[..i])
      invariant sequential == Carrying(keys, All, tests[..i])
    {
      var file := tests[i];
      assert tests[..i + 1] == tests[..i] + [file];
      ParallelAppend(keys, tests[..i], file);
      CarryingAppend(keys, All, tests[..i], [file]);
      if All in keys[file] {
        sequential := sequential + [file];
      } else {
        files := files + [file];
      }
    }
    assert tests[..|tests|] == tests;
  }

  method Spawn(workers: nat) returns (spawned: set<Worker>)
    ensures |spawned| == workers
  {
    spawned := {};
    for i := 1 to workers + 1
      invariant forall w :: w in spawned <==> 1 <= w < i
      invariant |spawned| == i - 1
    {
      spawned := spawned + {i};
    }
  }

  lemma NothingStarted(s: seq<File>)
    ensures [] + ([] + s) == s
  {
  }

  lemma Initially(keys: map<File, seq<Key>>, tests: seq<File>, queue: seq<File>, sequential: seq<File>)
    requires forall f :: f in tests ==> f in keys
    requires multiset(queue) == multiset(Parallel(keys, tests)) && sequential == Carrying(keys, All, tests)
    ensures Partition(queue, map[], map[], sequential, [], tests)
    ensures Carries(keys, All, sequential)
    ensures forall procs :: Apart(keys, queue, map[], map[], procs, sequential)
    ensures Ordered(keys, Reverse(sequential + queue), [], map[], sequential + queue)
  {
    SetApart(keys, tests);
    ApartMeans(keys, tests);
    assert Pool(queue, map[], map[]) == multiset(queue);
    forall f | f in multiset(queue) && f in keys
      ensures All !in keys[f]
    {
      assert f in multiset(Parallel(keys, tests));
    }
    forall k | Sole(keys, k)
      ensures OrderedFor(keys, Reverse(sequential + queue), [], map[], sequential + queue, k)
    {
      NothingStarted(Carrying(keys, k, Reverse(sequential + queue)));
    }
  }

  // Before the first message every worker is starting up.
  lemma AllStarting(keys: map<File, seq<Key>>, spawned: set<Worker>, queue: seq<File>, sequential: seq<File>)
    requires spawned != {}
    ensures Held(keys, map[], map[]) && Waits(keys, map[], map[])
    ensures Staffed(spawned, spawned, map[], {}, 0, queue, sequential)
  {
  }

  // mixed is what shuffling, if asked for, makes of the files.
  method Prepare(keys: map<File, seq<Key>>, tests: seq<File>, shuffle: bool, mixed: seq<File>, requested: nat)
    returns (queue: seq<File>, sequential: seq<File>, spawned: set<Worker>)
    requires forall f :: f in tests ==> f in keys
    requires shuffle ==> multiset(mixed) == multiset(Parallel(keys, tests))
    ensures Partition(queue, map[], map[], sequential, [], tests)
    ensures Carries(keys, All, sequential)
    ensures forall procs :: Apart(keys, queue, map[], map[], procs, sequential)
    ensures Ordered(keys, Reverse(sequential + queue), [], map[], sequential + queue)
    ensures !shuffle ==> Reverse(sequential + queue) == Parallel(keys, tests) + Reverse(Carrying(keys, All, tests))
    ensures |spawned| == 1 || |spawned| <= requested
    ensures spawned != {}
    ensures Held(keys, map[], map[]) && Waits(keys, map[], map[])
    ensures Staffed(spawned, spawned, map[], {}, 0, queue, sequential)
  {
    var files;
    files, sequential := Split(keys, tests);
    queue := if shuffle then mixed else Reverse(files);
    ReverseContents(files);
    ReverseTwice(files);
    ReverseAppend(sequential, queue);
    Initially(keys, tests, queue, sequential);
    var workers := if requested < |files| then requested else |files|;
    workers := if workers < 1 then 1 else workers;
    spawned := Spawn(workers);
    AllStarting(keys, spawned, queue, sequential);
  }

  lemma PoolRequeued(queue: seq<File>, waiting: map<Key, seq<File>>, k: Key)
    requires k in waiting
    ensures multiset(queue + Reverse(waiting[k])) + Contents(waiting - {k}) == multiset(queue) + Contents(waiting)
  {
    ContentsWithout(waiting, k);
    ReverseContents(waiting[k]);
  }

  lemma PoolHeldBack(queue: seq<File>, waiting: map<Key, seq<File>>, f: File, k: Key)
    ensures multiset(queue + [f]) + Contents(waiting) ==
            multiset(queue) + Contents(waiting[k := Listed(waiting, k) + [f]])
  {
    ContentsWith(waiting, k, [f]);
  }

  // left is active without the keys of w.
  ghost predicate Released(active: map<Key, Worker>, left: map<Key, Worker>, w: Worker)
  {
    && (forall k :: k in left <==> k in active && active[k] != w)
    && (forall k :: k in left ==> left[k] == active[k])
  }

  // A worker that reports back holds no key.
  lemma HeldReleased(keys: map<File, seq<Key>>, active: map<Key, Worker>, batches: map<Worker, seq<File>>,
                     left: map<Key, Worker>, w: Worker)
    requires Held(keys, active, batches)
    requires Released(active, left, w)
    ensures Held(keys, left, batches - {w})
  {
    forall v | v in batches - {w}
      ensures Holds(keys, left, batches[v], v)
    {
      assert Holds(keys, active, batches[v], v);
    }
  }

  // What is put in a batch was free of held keys.
  ghost predicate Free(keys: map<File, seq<Key>>, active: map<Key, Worker>, files: seq<File>)
  {
    forall f, k :: f in files && f in keys && k in keys[f] ==> k !in active
  }

  // now is active with the keys of the files given to w.
  ghost predicate Taken(keys: map<File, seq<Key>>, active: map<Key, Worker>, now: map<Key, Worker>,
                        files: seq<File>, w: Worker)
  {
    && (forall k :: k in active ==> k in now && (now[k] == active[k] || now[k] == w))
    && (forall k :: k in now && k !in active ==> now[k] == w && exists f :: f in files && f in keys && k in keys[f])
    && (forall f, k :: f in files && f in keys && k in keys[f] ==> k in now && now[k] == w)
    && (forall k :: k in active && now[k] != active[k] ==> exists f :: f in files && f in keys && k in keys[f])
  }

  lemma HoldsStill(keys: map<File, seq<Key>>, active: map<Key, Worker>, now: map<Key, Worker>,
                   files: seq<File>, w: Worker, others: seq<File>, v: Worker)
    requires Holds(keys, active, others, v) && Free(keys, active, files)
    requires Taken(keys, active, now, files, w)
    ensures Holds(keys, now, others, v)
  {
  }

  lemma HeldTaken(keys: map<File, seq<Key>>, active: map<Key, Worker>, batches: map<Worker, seq<File>>,
                  now: map<Key, Worker>, files: seq<File>, w: Worker)
    requires Held(keys, active, batches) && w !in batches
    requires Free(keys, active, files) && files != []
    requires Taken(keys, active, now, files, w)
    ensures Held(keys, now, batches[w := files])
  {
    var after := batches[w := files];
    forall v | v in after
      ensures Holds(keys, now, after[v], v)
    {
      if v != w {
        HoldsStill(keys, active, now, files, w, batches[v], v);
      }
    }
  }

  // Handing out a batch moves its files within the pool.
  lemma PoolBatched(queue: seq<File>, waiting: map<Key, seq<File>>, batches: map<Worker, seq<File>>,
                    files: seq<File>, w: Worker, before: multiset<File>)
    requires w !in batches
    requires multiset(queue) + Contents(waiting) + multiset(files) == before
    ensures Pool(queue, waiting, batches[w := files]) == before + Contents(batches)
  {
    ContentsAdd(batches, w, files);
  }

  // Everything queued, waiting or running is a test whose keys are known.
  lemma PoolKnown(keys: map<File, seq<Key>>, queue: seq<File>, waiting: map<Key, seq<File>>,
                  batches: map<Worker, seq<File>>, sequential: seq<File>, finished: seq<File>, tests: seq<File>)
    requires Partition(queue, waiting, batches, sequential, finished, tests)
    requires forall f :: f in tests ==> f in keys
    ensures forall f :: f in queue ==> f in keys
    ensures forall f :: f in queue ==> f in Pool(queue, waiting, batches)
  {
    forall f | f in queue
      ensures f in keys && f in Pool(queue, waiting, batches)
    {
      assert f in multiset(queue);
      assert f in multiset(tests);
    }
  }

  lemma SubsetOfOne(s: set<Worker>, w: Worker)
    requires |s| == 1 && w in s
    ensures s == {w}
  {
    assert |s - {w}| == 0;
  }

  datatype State = State(queue: seq<File>, sequential: seq<File>, inProgress: int, active: map<Key, Worker>,
                         waiting: map<Key, seq<File>>, procs: set<Worker>, starting: set<Worker>,
                         batches: map<Worker, seq<File>>, started: seq<File>, finished: seq<File>)

  // What every step of the dispatcher keeps; idle are the workers whose message is being handled.
  ghost predicate Sound(keys: map<File, seq<Key>>, tests: seq<File>, order: seq<File>, s: State, idle: set<Worker>)
  {
    && (forall f :: f in tests ==> f in keys)
    && Carries(keys, All, s.sequential)
    && Held(keys, s.active, s.batches)
    && Waits(keys, s.active, s.waiting)
    && Ordered(keys, order, s.started, s.waiting, s.sequential + s.queue)
    && Partition(s.queue, s.waiting, s.batches, s.sequential, s.finished, tests)
    && Apart(keys, s.queue, s.waiting, s.batches, s.procs, s.sequential)
    && Staffed(s.procs, s.starting, s.batches, idle, s.inProgress, s.queue, s.sequential)
  }

  // ---- Steps on the workers ----

  lemma StaffReady(s: State, w: Worker)
    requires Staffed(s.procs, s.starting, s.batches, {}, s.inProgress, s.queue, s.sequential) && w in s.starting
    ensures Staffed(s.procs, s.starting - {w}, s.batches, {w}, s.inProgress, s.queue, s.sequential)
  {
  }

  lemma StaffReported(s: State, w: Worker, queue: seq<File>)
    requires Staffed(s.procs, s.starting, s.batches, {}, s.inProgress, s.queue, s.sequential) && w in s.batches
    ensures Staffed(s.procs, s.starting, s.batches - {w}, {w}, s.inProgress - 1, queue, s.sequential)
  {
  }

  lemma StaffHanded(s: State, w: Worker, files: seq<File>, queue: seq<File>)
    requires Staffed(s.procs, s.starting, s.batches, {w}, s.inProgress, s.queue, s.sequential)
    ensures Staffed(s.procs, s.starting, s.batches[w := files], {}, s.inProgress + 1, queue, s.sequential)
  {
    assert w !in s.batches;
  }

  lemma StaffEnded(s: State, w: Worker)
    requires Staffed(s.procs, s.starting, s.batches, {w}, s.inProgress, s.queue, s.sequential)
    requires s.procs == {w} ==> s.sequential == []
    ensures Staffed(s.procs - {w}, s.starting, s.batches, {}, s.inProgress, [], s.sequential)
  {
  }

  // ---- Steps on the files ----

  lemma FilesReported(keys: map<File, seq<Key>>, tests: seq<File>, s: State, w: Worker,
                      queue: seq<File>, waiting: map<Key, seq<File>>)
    requires Partition(s.queue, s.waiting, s.batches, s.sequential, s.finished, tests) && w in s.batches
    requires Apart(keys, s.queue, s.waiting, s.batches, s.procs, s.sequential)
    requires multiset(queue) + Contents(waiting) == multiset(s.queue) + Contents(s.waiting)
    ensures Partition(queue, waiting, s.batches - {w}, s.sequential, s.finished + s.batches[w], tests)
    ensures Apart(keys, queue, waiting, s.batches - {w}, s.procs, s.sequential)
  {
    ContentsWithout(s.batches, w);
    assert Pool(s.queue, s.waiting, s.batches) == Pool(queue, waiting, s.batches - {w}) + multiset(s.batches[w]);
  }

  lemma FilesMoved(keys: map<File, seq<Key>>, tests: seq<File>, s: State, queue: seq<File>,
                   waiting: map<Key, seq<File>>, batches: map<Worker, seq<File>>)
    requires Partition(s.queue, s.waiting, s.batches, s.sequential, s.finished, tests)
    requires Apart(keys, s.queue, s.waiting, s.batches, s.procs, s.sequential)
    requires Pool(queue, waiting, batches) == Pool(s.queue, s.waiting, s.batches)
    ensures Partition(queue, waiting, batches, s.sequential, s.finished, tests)
    ensures forall procs :: |procs| <= |s.procs| ==> Apart(keys, queue, waiting, batches, procs, s.sequential)
  {
  }

  lemma FilesMerged(keys: map<File, seq<Key>>, tests: seq<File>, s: State)
    requires Partition(s.queue, s.waiting, s.batches, s.sequential, s.finished, tests) && |s.procs| == 1
    ensures Partition(s.queue + s.sequential, s.waiting, s.batches, [], s.finished, tests)
    ensures Apart(keys, s.queue + s.sequential, s.waiting, s.batches, s.procs, [])
  {
    assert Pool(s.queue + s.sequential, s.waiting, s.batches) ==
           Pool(s.queue, s.waiting, s.batches) + multiset(s.sequential);
  }

  // ---- Steps on the whole state ----

  lemma ReadySound(keys: map<File, seq<Key>>, tests: seq<File>, order: seq<File>, s: State, w: Worker, t: State)
    requires Sound(keys, tests, order, s, {}) && w in s.starting
    requires t == s.(starting := s.starting - {w})
    ensures Sound(keys, tests, order, t, {w})
  {
    StaffReady(s, w);
  }

  // Between s and u worker w gave its keys back.
  ghost predicate KeysReleased(keys: map<File, seq<Key>>, order: seq<File>, s: State, w: Worker, u: State)
  {
    && u == s.(queue := u.queue, waiting := u.waiting, active := u.active)
    && Released(s.active, u.active, w)
    && Waits(keys, u.active, u.waiting)
    && Ordered(keys, order, s.started, u.waiting, s.sequential + u.queue)
    && multiset(u.queue) + Contents(u.waiting) == multiset(s.queue) + Contents(s.waiting)
  }

  lemma ReportedSound(keys: map<File, seq<Key>>, tests: seq<File>, order: seq<File>, s: State, w: Worker,
                      u: State, t: State)
    requires Sound(keys, tests, order, s, {}) && w in s.batches
    requires KeysReleased(keys, order, s, w, u)
    requires t == u.(inProgress := u.inProgress - 1, finished := u.finished + u.batches[w], batches := u.batches - {w})
    ensures Sound(keys, tests, order, t, {w})
  {
    HeldReleased(keys, s.active, s.batches, u.active, w);
    StaffReported(s, w, u.queue);
    FilesReported(keys, tests, s, w, u.queue, u.waiting);
  }

  lemma MergedSound(keys: map<File, seq<Key>>, tests: seq<File>, order: seq<File>, s: State, w: Worker, t: State)
    requires Sound(keys, tests, order, s, {w}) && |s.procs| == 1
    requires t == s.(queue := s.queue + s.sequential, sequential := [])
    ensures Sound(keys, tests, order, t, {w})
  {
    PoolKnown(keys, s.queue, s.waiting, s.batches, s.sequential, s.finished, tests);
    OrderMerged(keys, order, s.started, s.waiting, s.queue, s.sequential);
    FilesMerged(keys, tests, s);
    assert t.sequential + t.queue == t.queue;
  }

  // Between s and u files were popped into a batch or put to wait.
  ghost predicate BatchTaken(keys: map<File, seq<Key>>, order: seq<File>, s: State, files: seq<File>, u: State)
  {
    && u == s.(queue := u.queue, waiting := u.waiting, started := s.started + files)
    && Waits(keys, s.active, u.waiting)
    && Ordered(keys, order, u.started, u.waiting, s.sequential + u.queue)
    && Free(keys, s.active, files)
    && multiset(u.queue) + Contents(u.waiting) + multiset(files) == multiset(s.queue) + Contents(s.waiting)
  }

  lemma HandedSound(keys: map<File, seq<Key>>, tests: seq<File>, order: seq<File>, s: State, w: Worker,
                    files: seq<File>, u: State, t: State)
    requires Sound(keys, tests, order, s, {w}) && files != []
    requires BatchTaken(keys, order, s, files, u)
    requires Taken(keys, u.active, t.active, files, w)
    requires t == u.(active := t.active, inProgress := u.inProgress + 1, batches := u.batches[w := files])
    ensures Sound(keys, tests, order, t, {})
  {
    HeldTaken(keys, s.active, s.batches, t.active, files, w);
    PoolBatched(u.queue, u.waiting, s.batches, files, w, multiset(s.queue) + Contents(s.waiting));
    FilesMoved(keys, tests, s, u.queue, u.waiting, s.batches[w := files]);
    StaffHanded(s, w, files, u.queue);
    WaitsStill(keys, s.active, t.active, u.waiting, files, w);
  }

  lemma WaitsStill(keys: map<File, seq<Key>>, active: map<Key, Worker>, now: map<Key, Worker>,
                   waiting: map<Key, seq<File>>, files: seq<File>, w: Worker)
    requires Waits(keys, active, waiting) && Taken(keys, active, now, files, w)
    ensures Waits(keys, now, waiting)
  {
  }

  lemma EndedSound(keys: map<File, seq<Key>>, tests: seq<File>, order: seq<File>, s: State, w: Worker,
                   u: State, t: State)
    requires Sound(keys, tests, order, s, {w}) && (s.procs == {w} ==> s.sequential == [])
    requires BatchTaken(keys, order, s, [], u) && u.queue == []
    requires t == u.(procs := u.procs - {w})
    ensures Sound(keys, tests, order, t, {})
  {
    assert Pool([], u.waiting, s.batches) == Pool(s.queue, s.waiting, s.batches);
    FilesMoved(keys, tests, s, [], u.waiting, s.batches);
    StaffEnded(s, w);
    assert |t.procs| <= |s.procs|;
    assert s.started + [] == s.started;
  }

  // What the message of w changed between s and t: w has a batch, just started,
  // or has been ended because no file is left to start.
  ghost predicate Scheduled(s: State, w: Worker, t: State)
  {
    && t.starting == s.starting && t.finished == s.finished
    && (if w in t.procs then
          && w in t.batches && t.procs == s.procs
          && t.batches == s.batches[w := t.batches[w]] && t.started == s.started + t.batches[w]
        else
          t.procs == s.procs - {w} && t.batches == s.batches && t.started == s.started && t.queue == [])
  }

  lemma HandedScheduled(keys: map<File, seq<Key>>, order: seq<File>, s: State, m: State, w: Worker,
                        files: seq<File>, u: State, t: State)
    requires w in s.procs && m == s.(queue := m.queue, sequential := m.sequential)
    requires BatchTaken(keys, order, m, files, u)
    requires t == u.(active := t.active, inProgress := t.inProgress, batches := u.batches[w := files])
    ensures Scheduled(s, w, t)
  {
  }

  lemma EndedScheduled(keys: map<File, seq<Key>>, order: seq<File>, s: State, m: State, w: Worker,
                       u: State, t: State)
    requires w in s.procs && m == s.(queue := m.queue, sequential := m.sequential)
    requires BatchTaken(keys, order, m, [], u) && u.queue == []
    requires t == u.(procs := u.procs - {w})
    ensures Scheduled(s, w, t)
  {
    assert s.started + [] == s.started;
  }

  // ---- What soundness gives ----

  // While anything is left to do, a worker will send a message.
  lemma SomeWorkerReports(keys: map<File, seq<Key>>, tests: seq<File>, order: seq<File>, s: State)
    requires Sound(keys, tests, order, s, {})
    requires s.queue != [] || s.sequential != [] || s.inProgress > 0
    ensures s.starting + s.batches.Keys != {}
  {
    if s.inProgress > 0 {
      assert s.batches != map[];
      var w :| w in s.batches;
      assert w in s.batches.Keys;
    }
  }

  // A test that conflicts with everything runs while no other worker does.
  lemma AllRunsAlone(keys: map<File, seq<Key>>, tests: seq<File>, order: seq<File>, s: State,
                     idle: set<Worker>, v: Worker, w: Worker, f: File)
    requires Sound(keys, tests, order, s, idle)
    requires v in s.batches && f in s.batches[v] && f in keys && All in keys[f]
    requires w in s.batches
    ensures v == w
  {
    ContentsHold(s.batches, v, f);
    assert f in Pool(s.queue, s.waiting, s.batches);
    assert v in s.procs && w in s.procs;
    if v != w {
      SubsetOfOne(s.procs, v);
    }
  }

  // When the loop ends nothing waits or runs, and the run started every file in its order.
  lemma DoneAtExit(keys: map<File, seq<Key>>, tests: seq<File>, order: seq<File>, s: State)
    requires Sound(keys, tests, order, s, {})
    requires s.queue == [] && s.sequential == [] && s.inProgress <= 0
    ensures s.batches == map[] && s.waiting == map[]
    ensures multiset(s.finished) == multiset(tests)
    ensures forall k :: Sole(keys, k) ==> Carrying(keys, k, s.started) == Carrying(keys, k, order)
  {
    assert s.batches == map[];
    assert forall k :: k !in s.active;
    assert forall k :: k !in s.waiting;
    assert s.waiting == map[];
    assert Pool([], map[], map[]) == multiset{};
    forall k | Sole(keys, k)
      ensures Carrying(keys, k, s.started) == Carrying(keys, k, order)
    {
      assert OrderedFor(keys, order, s.started, s.waiting, s.sequential + s.queue, k);
      assert s.sequential + s.queue == [];
      assert Carrying(keys, k, s.started) + ([] + []) == Carrying(keys, k, s.started);
    }
  }

  lemma FinishedFits(keys: map<File, seq<Key>>, tests: seq<File>, order: seq<File>, s: State, idle: set<Worker>)
    requires Sound(keys, tests, order, s, idle)
    ensures |s.finished| <= |tests|
  {
    assert |multiset(s.finished)| <= |multiset(tests)|;
  }

  class Dispatcher {
    // What each file conflicts with, and how many files one message may carry.
    const keys: map<File, seq<Key>>
    const maxBatchSize: nat
    const totalFileCount: nat

    var queue: seq<File>
    var sequential: seq<File>
    var inProgress: int
    var active: map<Key, Worker>
    var waiting: map<Key, seq<File>>
    var procs: set<Worker>

    // The other end of the sockets: workers that will still say they are ready,
    // and the batches being run.
    var starting: set<Worker>
    var batches: map<Worker, seq<File>>

    ghost const tests: seq<File>
    ghost const order: seq<File>
    var started: seq<File>
    var finished: seq<File>

    ghost function Now(): State
      reads this
    {
      State(queue, sequential, inProgress, active, waiting, procs, starting, batches, started, finished)
    }

    ghost predicate Valid(idle: set<Worker>)
      reads this
    {
      Sound(keys, tests, order, Now(), idle)
    }

    // mixed is what shuffling, if asked for, makes of the files.
    constructor (keys: map<File, seq<Key>>, tests: seq<File>, shuffle: bool, mixed: seq<File>,
                 requested: nat, maxBatchSize: nat)
      requires forall f :: f in tests ==> f in keys
      requires shuffle ==> multiset(mixed) == multiset(Parallel(keys, tests))
      ensures Valid({})
      ensures this.tests == tests && this.keys == keys && this.maxBatchSize == maxBatchSize
      ensures !shuffle ==> order == Parallel(keys, tests) + Reverse(Carrying(keys, All, tests))
      ensures started == [] && finished == [] && procs != {} && (|procs| <= requested || |procs| == 1)
    {
      var reversed, held, spawned := Prepare(keys, tests, shuffle, mixed, requested);
      this.keys, this.maxBatchSize, this.totalFileCount := keys, maxBatchSize, |reversed|;
      queue, sequential, inProgress, active, waiting := reversed, held, 0, map[], map[];
      procs, starting, batches := spawned, spawned, map[];
      this.tests, order, started, finished := tests, Reverse(held + reversed), [], [];
    }

    // The files waiting for a key go back to the queue.
    method Requeue(k: Key)
      requires k in waiting
      modifies `queue, `waiting
      ensures queue == old(queue) + Reverse(old(waiting)[k])
      ensures waiting == old(waiting) - {k}
    {
      while waiting[k] != []
        invariant k in waiting && waiting == old(waiting)[k := waiting[k]]
        invariant queue + Reverse(waiting[k]) == old(queue) + Reverse(old(waiting)[k])
        decreases |waiting[k]|
      {
        var list := waiting[k];
        var test := list[|list| - 1];
        assert list == list[..|list| - 1] + [test];
        ReversePop(list[..|list| - 1], test);
        Associate(queue, [test], Reverse(list[..|list| - 1]));
        waiting := waiting[k := list[..|list| - 1]];
        queue := queue + [test];
      }
      assert queue == queue + Reverse(waiting[k]);
      waiting := waiting - {k};
    }

    method ReleaseKey(key: Key)
      requires key in active
      requires Waits(keys, active, waiting)
      requires Ordered(keys, order, started, waiting, sequential + queue)
      modifies `queue, `waiting, `active
      ensures active == old(active) - {key}
      ensures Waits(keys, active, waiting)
      ensures Ordered(keys, order, started, waiting, sequential + queue)
      ensures multiset(queue) + Contents(waiting) == old(multiset(queue) + Contents(waiting))
    {
      if key in waiting {
        PoolRequeued(queue, waiting, key);
        ghost var stack := sequential + queue;
        ghost var requeued := Reverse(waiting[key]);
        OrderRequeued(keys, order, started, waiting, stack, key);
        assert stack + requeued == sequential + (queue + requeued);
        Requeue(key);
      }
      active := active - {key};
    }

    // A worker's keys are given back, and what waited for them is queued again.
    method Release(worker: Worker, ghost s: State)
      requires s == Now() && Waits(keys, active, waiting) && Ordered(keys, order, started, waiting, sequential + queue)
      modifies `queue, `waiting, `active
      ensures KeysReleased(keys, order, s, worker, Now())
    {
      var left := active.Keys;
      while left != {}
        invariant left <= active.Keys <= s.active.Keys
        invariant forall k :: k in active ==> active[k] == s.active[k]
        invariant forall k :: k in s.active && k !in active ==> s.active[k] == worker
        invariant forall k :: k in active && k !in left ==> active[k] != worker
        invariant Waits(keys, active, waiting)
        invariant Ordered(keys, order, started, waiting, sequential + queue)
        invariant multiset(queue) + Contents(waiting) == multiset(s.queue) + Contents(s.waiting)
        decreases |left|
      {
        var key :| key in left;
        left := left - {key};
        if active[key] == worker {
          ReleaseKey(key);
        }
      }
    }

    method FirstHeld(file: File) returns (found: bool, key: Key)
      requires file in keys
      ensures found ==> key in keys[file] && key in active
      ensures !found ==> forall k :: k in keys[file] ==> k !in active
    {
      found, key := false, All;
      for i := 0 to |keys[file]|
        invariant forall j :: 0 <= j < i ==> keys[file][j] !in active
      {
        if keys[file][i] in active {
          return true, keys[file][i];
        }
      }
    }

    // A file that conflicts waits for the first of its keys that is held.
    method HoldBack(file: File, key: Key)
      requires file in keys && key in keys[file] && key in active
      requires Waits(keys, active, waiting)
      requires Ordered(keys, order, started, waiting, (sequential + queue) + [file])
      modifies `waiting
      ensures waiting == old(waiting)[key := Listed(old(waiting), key) + [file]]
      ensures Waits(keys, active, waiting)
      ensures Ordered(keys, order, started, waiting, sequential + queue)
      ensures multiset(queue) + Contents(waiting) == multiset(queue + [file]) + Contents(old(waiting))
    {
      OrderHeldBack(keys, order, started, waiting, sequential + queue, file, key);
      PoolHeldBack(queue, waiting, file, key);
      waiting := waiting[key := Listed(waiting, key) + [file]];
    }

    // The next file joins the batch or waits for a key.
    method TakeNext() returns (files: seq<File>)
      requires queue != [] && forall f :: f in queue ==> f in keys
      requires Waits(keys, active, waiting)
      requires Ordered(keys, order, started, waiting, sequential + queue)
      modifies `queue, `waiting, `started
      ensures queue < old(queue)
      ensures Waits(keys, active, waiting)
      ensures Ordered(keys, order, started, waiting, sequential + queue)
      ensures |files| <= 1 && Free(keys, active, files) && forall f :: f in files ==> f in keys
      ensures started == old(started) + files
      ensures multiset(queue) + Contents(waiting) + multiset(files) == old(multiset(queue) + Contents(waiting))
    {
      var file := Pop();
      Associate(sequential, queue, [file]);
      var found, key := FirstHeld(file);
      if found {
        files := [];
        HoldBack(file, key);
      } else {
        OrderStarted(keys, order, started, waiting, sequential + queue, file);
        files := [file];
        started := started + files;
        assert multiset(queue + files) == multiset(queue) + multiset(files);
      }
    }

    // Files are popped until the batch is full; those that conflict go to wait.
    method TakeBatch(batchSize: nat, ghost s: State) returns (files: seq<File>)
      requires s == Now()
      requires forall f :: f in queue ==> f in keys
      requires Waits(keys, active, waiting)
      requires Ordered(keys, order, started, waiting, sequential + queue)
      modifies `queue, `waiting, `started
      ensures BatchTaken(keys, order, s, files, Now()) && forall f :: f in files ==> f in keys
      ensures |files| == batchSize + 1 || (|files| <= batchSize && queue == [])
    {
      files := [];
      while |files| <= batchSize && queue != []
        invariant |files| <= batchSize + 1
        invariant forall f :: f in queue ==> f in keys
        invariant Waits(keys, active, waiting)
        invariant Ordered(keys, order, started, waiting, sequential + queue)
        invariant Free(keys, active, files) && forall f :: f in files ==> f in keys
        invariant started == s.started + files
        invariant multiset(queue) + Contents(waiting) + multiset(files) == multiset(s.queue) + Contents(s.waiting)
        decreases |queue|
      {
        var next := TakeNext();
        files := files + next;
      }
    }

    method Pop() returns (file: File)
      requires queue != []
      modifies `queue
      ensures old(queue) == queue + [file]
    {
      file := queue[|queue| - 1];
      queue := queue[..|queue| - 1];
    }

    // The keys of a batch become its worker's.
    method Take(worker: Worker, files: seq<File>)
      requires forall f :: f in files ==> f in keys
      modifies `active
      ensures Taken(keys, old(active), active, files, worker)
    {
      for i := 0 to |files|
        invariant Taken(keys, old(active), active, files[..i], worker)
      {
        var held := keys[files[i]];
        for j := 0 to |held|
          invariant forall k :: k in old(active) ==> k in active && (active[k] == old(active)[k] || active[k] == worker)
          invariant forall k :: k in active && (k !in old(active) || active[k] != old(active)[k]) ==>
                      active[k] == worker && exists f :: f in files[..i + 1] && f in keys && k in keys[f]
          invariant forall f, k :: f in files[..i] && f in keys && k in keys[f] ==> k in active && active[k] == worker
          invariant forall k :: k in held[..j] ==> k in active && active[k] == worker
        {
          assert files[i] in files[..i + 1];
          active := active[held[j] := worker];
        }
        assert held[..|held|] == held;
        assert files[..i + 1] == files[..i] + [files[i]];
      }
      assert files[..|files|] == files;
    }

    // The last worker left is given the files that conflict with everything.
    method MergeSequential(worker: Worker, ghost s: State)
      requires s == Now() && Sound(keys, tests, order, s, {worker})
      modifies `queue, `sequential
      ensures Sound(keys, tests, order, Now(), {worker}) && forall f :: f in queue ==> f in keys
      ensures Now() == if |procs| == 1 then s.(queue := s.queue + s.sequential, sequential := []) else s
    {
      if |procs| == 1 {
        MergedSound(keys, tests, order, s, worker, s.(queue := s.queue + s.sequential, sequential := []));
      }
      if |procs| == 1 && sequential != [] {
        queue := queue + sequential;
        sequential := [];
      }
      assert Now() == if |procs| == 1 then s.(queue := s.queue + s.sequential, sequential := []) else s;
      PoolKnown(keys, queue, waiting, batches, sequential, finished, tests);
    }

    // The batch size shares the files out over the workers left.
    function BatchSize(): nat
      requires procs != {}
      reads `procs
    {
      var average := (totalFileCount + |procs| - 1) / |procs|;
      var shared := if average < 1 then 1 else average;
      if maxBatchSize < shared then maxBatchSize else shared
    }

    method HandOut(worker: Worker, files: seq<File>, ghost s: State, ghost u: State)
      requires Sound(keys, tests, order, s, {worker}) && BatchTaken(keys, order, s, files, u) && u == Now()
      requires files != [] && forall f :: f in files ==> f in keys
      modifies `active, `inProgress, `batches
      ensures Valid({})
      ensures Now() == u.(active := active, inProgress := u.inProgress + 1, batches := u.batches[worker := files])
    {
      Take(worker, files);
      batches := batches[worker := files];
      inProgress := inProgress + 1;
      HandedSound(keys, tests, order, s, worker, files, u, Now());
    }

    method End(worker: Worker, ghost s: State, ghost u: State)
      requires Sound(keys, tests, order, s, {worker}) && (s.procs == {worker} ==> s.sequential == [])
      requires BatchTaken(keys, order, s, [], u) && u == Now() && queue == []
      modifies `procs
      ensures Valid({}) && Now() == u.(procs := u.procs - {worker})
    {
      procs := procs - {worker};
      EndedSound(keys, tests, order, s, worker, u, Now());
    }

    // A worker that asks for work is given a batch or, when none is left, ended.
    method Schedule(worker: Worker, ghost s: State)
      requires s == Now() && Sound(keys, tests, order, s, {worker})
      modifies `queue, `sequential, `active, `waiting, `inProgress, `batches, `procs, `started
      ensures Valid({})
      ensures Scheduled(s, worker, Now())
    {
      MergeSequential(worker, s);
      ghost var merged := Now();
      var files := TakeBatch(BatchSize(), merged);
      ghost var taken := Now();
      if files != [] {
        HandOut(worker, files, merged, taken);
        HandedScheduled(keys, order, s, merged, worker, files, taken, Now());
      } else {
        End(worker, merged, taken);
        EndedScheduled(keys, order, s, merged, worker, taken, Now());
      }
    }

    // A worker has started up.
    method Ready(worker: Worker)
      requires Valid({}) && worker in starting
      modifies this
      ensures Valid({})
      ensures Scheduled(old(Now()).(starting := old(starting) - {worker}), worker, Now())
    {
      ghost var before := Now();
      starting := starting - {worker};
      ReadySound(keys, tests, order, before, worker, Now());
      Schedule(worker, Now());
    }

    // A worker has run its batch.
    method TestsFinished(worker: Worker)
      requires Valid({}) && worker in batches
      modifies this
      ensures Valid({})
      ensures Scheduled(old(Now()).(finished := old(finished) + old(batches)[worker],
                                    batches := old(batches) - {worker}), worker, Now())
    {
      ghost var before := Now();
      Release(worker, before);
      ghost var released := Now();
      inProgress := inProgress - 1;
      finished := finished + batches[worker];
      batches := batches - {worker};
      ghost var reported := Now();
      ReportedSound(keys, tests, order, before, worker, released, reported);
      Schedule(worker, reported);
    }

    // The dispatch loop: any worker may be the next to send its message.
    method Run()
      requires Valid({})
      modifies this
      ensures Valid({})
      ensures multiset(finished) == multiset(tests)
      ensures batches == map[] && waiting == map[] && queue == [] && sequential == [] && inProgress == 0
      ensures forall k :: Sole(keys, k) ==> Carrying(keys, k, started) == Carrying(keys, k, order)
    {
      FinishedFits(keys, tests, order, Now(), {});
      while queue != [] || sequential != [] || inProgress > 0
        invariant Valid({}) && |finished| <= |tests|
        decreases |tests| - |finished|, |starting|
      {
        SomeWorkerReports(keys, tests, order, Now());
        var worker :| worker in starting + batches.Keys;
        if worker in starting {
          Ready(worker);
        } else {
          assert batches[worker] != [];
          TestsFinished(worker);
        }
        FinishedFits(keys, tests, order, Now(), {});
      }
      DoneAtExit(keys, tests, order, Now());
    }
  }

  // Every run ends with every test run once. Tests that share their only key are
  // started in the given order, but those that conflict with everything, which
  // are merged to be popped from the end, in the opposite order.
  method RunAllTestsParallel(keys: map<File, seq<Key>>, tests: seq<File>, shuffle: bool, mixed: seq<File>,
                             workers: nat, maxBatchSize: nat)
    returns (finished: seq<File>, started: seq<File>)
    requires forall f :: f in tests ==> f in keys
    requires shuffle ==> multiset(mixed) == multiset(Parallel(keys, tests))
    ensures multiset(finished) == multiset(tests)
    ensures !shuffle ==> forall k :: Sole(keys, k) && k != All ==> Carrying(keys, k, started) == Carrying(keys, k, tests)
    ensures !shuffle && Sole(keys, All) ==> Carrying(keys, All, started) == Reverse(Carrying(keys, All, tests))
  {
    var dispatcher := new Dispatcher(keys, tests, shuffle, mixed, workers, maxBatchSize);
    dispatcher.Run();
    finished, started := dispatcher.finished, dispatcher.started;
    if !shuffle {
      OrderOfTests(keys, tests);
    }
  }

  lemma OrderOfTests(keys: map<File, seq<Key>>, tests: seq<File>)
    requires forall f :: f in tests ==> f in keys
    ensures forall k :: Sole(keys, k) && k != All ==>
              Carrying(keys, k, Parallel(keys, tests) + Reverse(Carrying(keys, All, tests))) == Carrying(keys, k, tests)
    ensures Carrying(keys, All, Parallel(keys, tests) + Reverse(Carrying(keys, All, tests)))
            == Reverse(Carrying(keys, All, tests))
  {
    var last := Reverse(Carrying(keys, All, tests));
    ApartMeans(keys, tests);
    ReversedCarries(keys, All, Carrying(keys, All, tests));
    forall k | Sole(keys, k) && k != All
      ensures Carrying(keys, k, Parallel(keys, tests) + last) == Carrying(keys, k, tests)
    {
      CarryingAppend(keys, k, Parallel(keys, tests), last);
      CarryingNone(keys, k, last);
      ParallelKeepsOrder(keys, tests, k);
    }
    CarryingAppend(keys, All, Parallel(keys, tests), last);
    CarryingNone(keys, All, Parallel(keys, tests));
    CarryingAll(keys, All, last);
  }
}
