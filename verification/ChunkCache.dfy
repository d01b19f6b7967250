// Result cursors and the thread's cache of the vectors of one chunk, with chunk
// addresses reused once a chunk is destroyed.
module ChunkCache {
  // 0 is the null address.
  type Address = nat

  // What DuckDB answers for a column of a chunk.
  datatype Column = Column(vector: nat, data: nat, validity: nat)

  datatype Chunk = Chunk(columns: seq<Column>, size: nat)

  // A row of a result: which chunk, and which row of it.
  datatype Place = Place(chunk: nat, row: nat)

  function Rows(chunk: nat, n: nat): seq<Place>
  {
    if n == 0 then [] else Rows(chunk, n - 1) + [Place(chunk, n - 1)]
  }

  // All rows of the first k chunks of a result, in order.
  function AllRows(stream: seq<Chunk>, k: nat): seq<Place>
    requires k <= |stream|
  {
    if k == 0 then [] else AllRows(stream, k - 1) + Rows(k - 1, stream[k - 1].size)
  }

  predicate Earlier(p: Place, q: Place) { p.chunk < q.chunk || (p.chunk == q.chunk && p.row < q.row) }

  // Places rise, so none comes twice.
  predicate Rising(s: seq<Place>)
  {
    forall i, j :: 0 <= i < j < |s| ==> Earlier(s[i], s[j])
  }

  lemma {:induction false} RowsAre(chunk: nat, n: nat)
    ensures |Rows(chunk, n)| == n && forall i :: 0 <= i < n ==> Rows(chunk, n)[i] == Place(chunk, i)
  {
    if n > 0 {
      RowsAre(chunk, n - 1);
    }
  }

  // The rows of a result are all rows of its chunks, each once and in order.
  lemma {:induction false} AllRowsAre(stream: seq<Chunk>, k: nat)
    requires k <= |stream|
    ensures Rising(AllRows(stream, k))
    ensures forall p :: p in AllRows(stream, k) <==> p.chunk < k && p.row < stream[p.chunk].size
  {
    if k > 0 {
      AllRowsAre(stream, k - 1);
      RowsAre(k - 1, stream[k - 1].size);
      var before, rows := AllRows(stream, k - 1), Rows(k - 1, stream[k - 1].size);
      var all := before + rows;
      assert AllRows(stream, k) == all;
      forall i, j | 0 <= i < j < |all|
        ensures Earlier(all[i], all[j])
      {
        if i < |before| <= j {
          assert all[i] in before;
        }
      }
      forall p: Place | p.chunk == k - 1 && p.row < stream[k - 1].size
        ensures p in all
      {
        assert rows[p.row] == p && p in rows;
      }
    }
  }

  // Where DuckDB puts the next chunk: anywhere that is free.
  type Allocator = (nat, set<Address>) -> Address

  ghost predicate Sane(place: Allocator)
  {
    forall k: nat, used: set<Address> :: place(k, used) != 0 && place(k, used) !in used
  }

  class Statement {
    const colCount: nat
    var chunk: Address
    var chunkSize: nat
    var cur: nat
    var hasResult: bool
    var started: bool
    var done: bool

    // The result's chunks, how many were pulled, and the rows fetch has stood on.
    const stream: seq<Chunk>
    var pulled: nat
    ghost var served: seq<Place>

    constructor (colCount: nat, stream: seq<Chunk>)
      ensures this.colCount == colCount && this.stream == stream && chunk == 0 && hasResult && !started && !done
      ensures pulled == 0 && served == []
    {
      this.colCount, this.stream := colCount, stream;
      chunk, chunkSize, cur, hasResult, started, done, pulled, served := 0, 0, 0, true, false, false, 0, [];
    }

    // Where the cursor stands: the rows served are those up to cur.
    ghost predicate Placed()
      reads this
    {
      && pulled <= |stream|
      && (!hasResult ==> chunk == 0 && !started)
      && (hasResult && !started ==> chunk == 0 && served == [] && pulled == 0)
      && (chunk != 0 ==> started && 0 < pulled && chunkSize == stream[pulled - 1].size && cur < chunkSize)
      && (chunk != 0 ==> served == AllRows(stream, pulled - 1) + Rows(pulled - 1, cur + 1))
      && (hasResult && done ==> started && chunk == 0)
      && (hasResult && started && chunk == 0 ==> done && pulled == |stream| && served == AllRows(stream, pulled))
    }
  }

  class Thread {
    // The chunks DuckDB has alive.
    var live: map<Address, Chunk>

    // The cache: an empty one has key 0.
    var key: Address
    var ncols: nat
    var cap: nat
    var vectors: seq<nat>
    var datas: seq<nat>
    var validities: seq<nat>

    ghost var statements: set<Statement>

    constructor ()
      ensures Valid() && statements == {}
    {
      live, key, ncols, cap, vectors, datas, validities, statements := map[], 0, 0, 0, [], [], [], {};
    }

    ghost predicate Valid()
      reads this, statements
    {
      && 0 !in live
      && Cached()
      && (forall s :: s in statements ==> Holds(s))
      && (forall s, t :: s in statements && t in statements && s != t && s.chunk != 0 ==> s.chunk != t.chunk)
    }

    ghost predicate Holds(s: Statement)
      reads `live, s
    {
      s.Placed() && (s.chunk != 0 ==> s.chunk in live && s.pulled > 0 && live[s.chunk] == s.stream[s.pulled - 1])
    }

    // The cache holds what direct reads of its chunk would give.
    ghost predicate Cached()
      reads `live, `key, `ncols, `cap, `vectors, `datas, `validities
    {
      && |vectors| == |datas| == |validities| == cap
      && (key != 0 ==> key in live && Mirrors(live[key].columns))
    }

    ghost predicate Mirrors(columns: seq<Column>)
      reads `ncols, `vectors, `datas, `validities
    {
      && ncols == |columns| <= |vectors| && |vectors| == |datas| == |validities|
      && forall i :: 0 <= i < ncols ==> Column(vectors[i], datas[i], validities[i]) == columns[i]
    }

    // A statement was executed; its chunks are still to come.
    method Execute(colCount: nat, stream: seq<Chunk>) returns (s: Statement)
      requires Valid()
      modifies `statements
      ensures Valid() && fresh(s) && statements == old(statements) + {s}
      ensures s.stream == stream && s.colCount == colCount && s.served == [] && s.hasResult
    {
      s := new Statement(colCount, stream);
      statements := statements + {s};
      forall t | t in statements
        ensures Holds(t)
      {
        if t != s {
          assert old(Holds(t));
        }
      }
    }

    method Invalidate(chunk: Address)
      requires Cached()
      modifies `key
      ensures Cached() && (chunk != 0 ==> key != chunk)
    {
      if chunk != 0 && key == chunk {
        key := 0;
      }
    }

    // memory says whether a larger buffer can be had.
    method Load(chunk: Address, memory: bool) returns (loaded: bool)
      requires Cached() && 0 !in live && (chunk != 0 ==> chunk in live)
      modifies `key, `ncols, `cap, `vectors, `datas, `validities
      ensures Cached() && key == if loaded then chunk else 0
      ensures loaded <==> chunk != 0 && (memory || |live[chunk].columns| <= old(cap))
    {
      key, ncols := 0, 0;
      if chunk == 0 {
        return false;
      }
      var columns := live[chunk].columns;
      var n := |columns|;
      if n > cap {
        if !memory {
          return false;
        }
        vectors, datas, validities := Enlarged(vectors, n), Enlarged(datas, n), Enlarged(validities, n);
        cap := n;
      }
      for i := 0 to n
        invariant |vectors| == |datas| == |validities| == cap && n <= cap
        invariant forall j :: 0 <= j < i ==> Column(vectors[j], datas[j], validities[j]) == columns[j]
      {
        var c := columns[i];
        vectors := vectors[i := c.vector];
        datas := datas[i := c.data];
        validities := validities[i := c.validity];
      }
      ncols := n;
      key := chunk;
      return true;
    }

    // A column of the current row: what a direct read of the chunk gives, whatever
    // the cache held.
    method GetCol(s: Statement, colno: nat, memory: bool) returns (found: bool, column: Column)
      requires Valid() && s in statements
      modifies `key, `ncols, `cap, `vectors, `datas, `validities
      ensures Valid()
      ensures found <==> s.chunk != 0 && s.cur < s.chunkSize && colno < s.colCount && colno < |live[s.chunk].columns|
      ensures found ==> column == live[s.chunk].columns[colno]
    {
      found, column := false, Column(0, 0, 0);
      assert Holds(s);
      if s.chunk == 0 || s.cur >= s.chunkSize || colno >= s.colCount {
        return;
      }
      if key != s.chunk {
        var loaded := Load(s.chunk, memory);
      }
      if key == s.chunk {
        if colno >= ncols {
          return;
        }
        return true, Column(vectors[colno], datas[colno], validities[colno]);
      }
      if colno >= |live[s.chunk].columns| {
        return;
      }
      return true, live[s.chunk].columns[colno];
    }

    // All is well but for the cursor of s, which is being moved.
    ghost predicate Apart(s: Statement)
      reads this, statements, s
    {
      && 0 !in live && Cached() && s.pulled <= |s.stream|
      && (s.chunk != 0 ==> s.chunk in live)
      && (forall t :: t in statements && t != s ==> Holds(t))
      && (forall t, u :: t in statements && u in statements && t != u && t.chunk != 0 ==> t.chunk != u.chunk)
    }

    // Destroying a chunk frees its address, so the cache must forget it first.
    method DestroyChunk(s: Statement)
      requires s in statements && Apart(s)
      modifies `key, `live, s`chunk
      ensures s.chunk == 0 && Apart(s)
    {
      if s.chunk != 0 {
        Invalidate(s.chunk);
        live := live - {s.chunk};
        forall t | t in statements && t != s
          ensures Holds(t)
        {
          assert old(Holds(t)) && t.chunk != s.chunk;
        }
        s.chunk := 0;
      }
    }

    // Drops the result, as closeCursor and errors do.
    method Reset(s: Statement)
      requires s in statements && Apart(s)
      modifies `key, `live, s
      ensures Valid() && !s.hasResult && s.served == old(s.served)
    {
      DestroyChunk(s);
      s.hasResult := false;
      s.chunkSize, s.cur, s.started, s.done := 0, 0, false, false;
      forall t | t in statements
        ensures Holds(t)
      {
      }
    }

    // closeCursor, and the end of a statement.
    method CloseCursor(s: Statement)
      requires Valid() && s in statements
      modifies `key, `live, s
      ensures Valid() && !s.hasResult && s.served == old(s.served)
    {
      assert Holds(s);
      Reset(s);
    }

    // Moves to the next row of the loaded chunk, if there is one.
    method Advance(s: Statement) returns (row: bool)
      requires Valid() && s in statements && s.hasResult && !s.done
      modifies s`started, s`cur, s`served
      ensures Apart(s) && s.started && (row <==> old(s.chunk != 0 && s.cur + 1 < s.chunkSize))
      ensures row ==> Valid() && s.chunk != 0 && s.pulled > 0 && s.served == old(s.served) + [Place(s.pulled - 1, s.cur)]
      ensures !row ==> s.served == old(s.served) && s.served == AllRows(s.stream, s.pulled)
    {
      assert Holds(s);
      if !s.started {
        s.started := true;
        row := false;
      } else {
        s.cur := s.cur + 1;
        row := s.cur < s.chunkSize;
        if row {
          s.served := s.served + [Place(s.pulled - 1, s.cur)];
        }
      }
      forall t | t in statements && t != s
        ensures Holds(t)
      {
        assert old(Holds(t));
      }
    }

    // DuckDB hands over the result's next chunk, at some free address.
    method Pull(s: Statement, address: Address, memory: bool)
      requires s in statements && Apart(s) && s.hasResult && s.started && s.chunk == 0 && s.pulled < |s.stream|
      requires address != 0 && address !in live
      modifies this`live, this`key, this`ncols, this`cap, this`vectors, this`datas, this`validities
      modifies s`chunk, s`pulled, s`chunkSize, s`cur
      ensures s.pulled == old(s.pulled) + 1
      ensures Apart(s) && s.chunk != 0 && live[s.chunk] == s.stream[s.pulled - 1]
      ensures s.cur == 0 && s.chunkSize == s.stream[s.pulled - 1].size
    {
      live := live[address := s.stream[s.pulled]];
      s.chunk := address;
      s.pulled := s.pulled + 1;
      forall t | t in statements && t != s
        ensures Holds(t) && t.chunk != address
      {
        assert old(Holds(t));
      }
      var loaded := Load(s.chunk, memory);
      s.chunkSize := live[s.chunk].size;
      s.cur := 0;
    }

    // Stands on the next row: each row of each chunk once, in order.
    method Fetch(s: Statement, allowed: nat -> bool, fails: nat -> bool, place: Allocator, memory: bool) returns (row: bool)
      requires Valid() && s in statements && Sane(place)
      modifies this`live, this`key, this`ncols, this`cap, this`vectors, this`datas, this`validities, s
      ensures Valid()
      ensures row ==> s.chunk != 0 && s.pulled > 0 && s.served == old(s.served) + [Place(s.pulled - 1, s.cur)]
      ensures !row ==> s.served == old(s.served)
      ensures !row && s.hasResult ==> s.served == AllRows(s.stream, |s.stream|)
      ensures !old(s.hasResult) || old(s.done) ==> !row
      ensures old(s.hasResult && !s.done) ==>
                Found(s, old(s.chunk != 0 && s.cur + 1 < s.chunkSize), old(s.pulled), allowed, fails, row)
    {
      assert Holds(s);
      if !s.hasResult || s.done {
        return false;
      }
      row := Advance(s);
      if row {
        return;
      }
      row := Search(s, allowed, fails, place, memory);
    }

    // Pulls chunks up to the next one that has a row.
    method Search(s: Statement, allowed: nat -> bool, fails: nat -> bool, place: Allocator, memory: bool) returns (row: bool)
      requires s in statements && Searching(s) && Sane(place)
      modifies this`live, this`key, this`ncols, this`cap, this`vectors, this`datas, this`validities, s
      ensures Ended(s, row, old(s.served)) && Found(s, false, old(s.pulled), allowed, fails, row)
    {
      var turn: nat, again := 0, true;
      row := false;
      while again
        invariant again ==> Searching(s) && !row && s.served == old(s.served) && s.pulled == old(s.pulled) + turn
        invariant again ==> Empty(s, old(s.pulled), turn) && Clear(allowed, fails, turn)
        invariant !again ==> Ended(s, row, old(s.served)) && Found(s, false, old(s.pulled), allowed, fails, row)
        decreases if again then |s.stream| - s.pulled + 1 else 0
      {
        again, row := Turn(s, allowed(turn), fails(turn), place, turn, memory);
        turn := turn + 1;
      }
    }

    // The n chunks from the k-th on have no rows.
    ghost predicate Empty(s: Statement, k: nat, n: nat)
    {
      k + n <= |s.stream| && forall u :: k <= u < k + n ==> s.stream[u].size == 0
    }

    // Nothing goes wrong in the first n turns.
    ghost predicate Clear(allowed: nat -> bool, fails: nat -> bool, n: nat)
    {
      forall t :: 0 <= t < n ==> allowed(t) && !fails(t)
    }

    // How a fetch ends: with the next row, if there is one in the chunk it stands in or
    // in a later one; at the end of the result; or at the first turn that is not
    // allowed or fails.
    ghost predicate Found(s: Statement, more: bool, pulled: nat, allowed: nat -> bool, fails: nat -> bool, row: bool)
      reads s
    {
      if more then row && s.pulled == pulled
      else if row then
        && pulled < s.pulled <= |s.stream| && Empty(s, pulled, s.pulled - 1 - pulled) && s.cur == 0
        && Clear(allowed, fails, s.pulled - pulled)
      else if s.hasResult then
        pulled <= |s.stream| && Empty(s, pulled, |s.stream| - pulled) && Clear(allowed, fails, |s.stream| - pulled + 1)
      else exists t: nat :: Empty(s, pulled, t) && Clear(allowed, fails, t) && (!allowed(t) || fails(t))
    }

    // Between chunks: every row of those pulled so far has been served.
    ghost predicate Searching(s: Statement)
      reads this, statements, s
    {
      Apart(s) && s.hasResult && s.started && !s.done && s.served == AllRows(s.stream, s.pulled)
    }

    // How a fetch ends, given what had been served before it.
    ghost predicate Ended(s: Statement, row: bool, served: seq<Place>)
      reads this, statements, s
    {
      && Valid()
      && (row ==> s.chunk != 0 && s.pulled > 0 && s.served == served + [Place(s.pulled - 1, s.cur)])
      && (!row ==> s.served == served)
      && (!row && s.hasResult ==> s.served == AllRows(s.stream, |s.stream|))
    }

    // One turn of the fetch loop.
    method Turn(s: Statement, allowed: bool, fails: bool, place: Allocator, turn: nat, memory: bool)
      returns (again: bool, row: bool)
      requires s in statements && Searching(s) && Sane(place)
      modifies this`live, this`key, this`ncols, this`cap, this`vectors, this`datas, this`validities, s
      ensures again ==> Searching(s) && !row && s.served == old(s.served) && s.pulled == old(s.pulled) + 1 <= |s.stream|
      ensures again ==> allowed && !fails && s.stream[s.pulled - 1].size == 0
      ensures !again ==> Ended(s, row, old(s.served))
      ensures row ==> allowed && !fails && s.pulled == old(s.pulled) + 1 <= |s.stream| && s.cur == 0
      ensures !again && !row ==> if s.hasResult then allowed && !fails && old(s.pulled) == |s.stream| else !allowed || fails
    {
      again, row := false, false;
      if !allowed {
        Fail(s);
        return;
      }
      DestroyChunk(s);
      if fails {
        Fail(s);
        return;
      }
      if s.pulled == |s.stream| {
        Finish(s);
        return;
      }
      Pull(s, place(turn, live.Keys), memory);
      if s.chunkSize > 0 {
        Stand(s);
        row := true;
      } else {
        again := true;
      }
    }

    method Fail(s: Statement)
      requires s in statements && Apart(s)
      modifies `key, `live, s
      ensures Valid() && !s.hasResult && s.done && s.served == old(s.served)
    {
      Reset(s);
      assert Holds(s);
      s.done := true;
      forall t | t in statements
        ensures Holds(t)
      {
      }
    }

    method Finish(s: Statement)
      requires s in statements && Apart(s) && s.hasResult && s.started && s.chunk == 0 && s.pulled == |s.stream|
      requires s.served == AllRows(s.stream, s.pulled)
      modifies s`done
      ensures Valid() && s.done
    {
      s.done := true;
      forall t | t in statements
        ensures Holds(t)
      {
        if t != s {
          assert old(Holds(t));
        }
      }
    }

    // The first row of a chunk just loaded.
    method Stand(s: Statement)
      requires s in statements && Apart(s) && s.hasResult && s.started && !s.done && s.chunk != 0
      requires s.pulled > 0 && live[s.chunk] == s.stream[s.pulled - 1]
      requires s.cur == 0 && s.chunkSize == s.stream[s.pulled - 1].size > 0
      requires s.served == AllRows(s.stream, s.pulled - 1)
      modifies s`served
      ensures Valid() && s.served == old(s.served) + [Place(s.pulled - 1, 0)]
    {
      s.served := s.served + [Place(s.pulled - 1, s.cur)];
      assert Rows(s.pulled - 1, 1) == Rows(s.pulled - 1, 0) + [Place(s.pulled - 1, 0)];
      assert Rows(s.pulled - 1, 0) == [];
      forall t | t in statements
        ensures Holds(t)
      {
        if t != s {
          assert old(Holds(t));
        }
      }
    }
  }

  // ---- Every run ----

  // What the program does next; results are counted from the first one executed.
  datatype Step =
    | Executing(colCount: nat, stream: seq<Chunk>)
    | Fetching(k: nat, allowed: nat -> bool, fails: nat -> bool, place: Allocator, memory: bool)
    | Reading(k: nat, colno: nat, memory: bool)
    | Closing(k: nat)

  // A column that was read, and the row it was read from.
  datatype Read = Read(k: nat, place: Place, colno: nat, column: Column)

  lemma {:induction false} RowsBegin(chunk: nat, n: nat, m: nat)
    requires n <= m
    ensures Rows(chunk, n) <= Rows(chunk, m)
  {
    if n < m {
      RowsBegin(chunk, n, m - 1);
    }
  }

  lemma {:induction false} AllRowsBegin(stream: seq<Chunk>, k: nat, l: nat)
    requires k <= l <= |stream|
    ensures AllRows(stream, k) <= AllRows(stream, l)
  {
    if k < l {
      AllRowsBegin(stream, k, l - 1);
    }
  }

  // Served so far: the first rows of the result.
  ghost predicate Begun(s: Statement)
    reads s
  {
    s.served <= AllRows(s.stream, |s.stream|)
  }

  lemma RowServed(s: Statement)
    requires s.Placed() && s.chunk != 0
    ensures Begun(s) && s.served != [] && s.served[|s.served| - 1] == Place(s.pulled - 1, s.cur)
  {
    RowsBegin(s.pulled - 1, s.cur + 1, s.chunkSize);
    AllRowsBegin(s.stream, s.pulled, |s.stream|);
    assert Rows(s.pulled - 1, s.cur + 1) == Rows(s.pulled - 1, s.cur) + [Place(s.pulled - 1, s.cur)];
    assert s.served <= AllRows(s.stream, s.pulled);
  }

  // What was read belongs to a row that was served, and is DuckDB's answer for it.
  ghost predicate Genuine(r: Read, made: seq<Statement>)
    reads made
  {
    && r.k < |made| && r.place in made[r.k].served && r.place.chunk < |made[r.k].stream|
    && r.colno < |made[r.k].stream[r.place.chunk].columns|
    && r.column == made[r.k].stream[r.place.chunk].columns[r.colno]
  }

  ghost predicate History(made: seq<Statement>, taken: seq<Read>)
    reads made
  {
    (forall k :: 0 <= k < |made| ==> Begun(made[k])) && (forall r :: r in taken ==> Genuine(r, made))
  }

  ghost predicate Known(thread: Thread, made: seq<Statement>)
    reads thread`statements
  {
    && (forall k :: 0 <= k < |made| ==> made[k] in thread.statements)
    && (forall k, l :: 0 <= k < l < |made| ==> made[k] != made[l])
  }

  method FetchOne(thread: Thread, made: seq<Statement>, ghost taken: seq<Read>, k: nat, allowed: nat -> bool,
                  fails: nat -> bool, place: Allocator, memory: bool)
    requires thread.Valid() && Known(thread, made) && History(made, taken) && k < |made| && Sane(place)
    modifies thread`live, thread`key, thread`ncols, thread`cap, thread`vectors, thread`datas, thread`validities, made[k]
    ensures thread.Valid() && History(made, taken)
  {
    ghost var served := made[k].served;
    var row := thread.Fetch(made[k], allowed, fails, place, memory);
    assert thread.Holds(made[k]);
    if row {
      RowServed(made[k]);
    }
    forall r | r in taken
      ensures Genuine(r, made)
    {
      assert old(Genuine(r, made));
    }
  }

  method ReadOne(thread: Thread, made: seq<Statement>, ghost taken: seq<Read>, k: nat, colno: nat, memory: bool)
      returns (ghost more: seq<Read>)
    requires thread.Valid() && Known(thread, made) && History(made, taken) && k < |made|
    modifies thread`key, thread`ncols, thread`cap, thread`vectors, thread`datas, thread`validities
    ensures thread.Valid() && History(made, more)
  {
    var s := made[k];
    var found, column := thread.GetCol(s, colno, memory);
    more := taken;
    if found {
      assert thread.Holds(s);
      RowServed(s);
      ghost var r := Read(k, Place(s.pulled - 1, s.cur), colno, column);
      assert Genuine(r, made);
      more := taken + [r];
    }
  }

  // The results that are executed.
  function Executed(steps: seq<Step>): seq<seq<Chunk>>
  {
    if steps == [] then []
    else
      var last := steps[|steps| - 1];
      Executed(steps[..|steps| - 1]) + if last.Executing? then [last.stream] else []
  }

  // Many results on one thread, fetched from, read and closed in any order, with
  // chunk addresses used again: each serves its rows from the first on, once and in
  // order, and whatever is read is what DuckDB answers for the row it is read from.
  method Run(thread: Thread, steps: seq<Step>) returns (made: seq<Statement>, ghost taken: seq<Read>)
    requires thread.Valid() && thread.statements == {}
    requires forall n :: 0 <= n < |steps| && steps[n].Fetching? ==> Sane(steps[n].place)
    modifies thread
    ensures thread.Valid() && Known(thread, made) && History(made, taken)
    ensures |made| == |Executed(steps)| && forall k :: 0 <= k < |made| ==> made[k].stream == Executed(steps)[k]
    ensures forall k :: 0 <= k < |made| && made[k].hasResult && made[k].done ==>
              made[k].served == AllRows(made[k].stream, |made[k].stream|)
  {
    made, taken := [], [];
    for n := 0 to |steps|
      invariant thread.Valid() && Known(thread, made) && History(made, taken) && fresh(made)
      invariant |made| == |Executed(steps[..n])| && forall k :: 0 <= k < |made| ==> made[k].stream == Executed(steps[..n])[k]
    {
      assert steps[..n + 1][..n] == steps[..n];
      made, taken := Take(thread, steps[n], made, taken);
    }
    assert steps[..|steps|] == steps;
    forall k | 0 <= k < |made|
      ensures made[k].hasResult && made[k].done ==> made[k].served == AllRows(made[k].stream, |made[k].stream|)
    {
      assert thread.Holds(made[k]);
    }
  }

  method Take(thread: Thread, step: Step, made: seq<Statement>, ghost taken: seq<Read>)
      returns (more: seq<Statement>, ghost later: seq<Read>)
    requires thread.Valid() && Known(thread, made) && History(made, taken) && (step.Fetching? ==> Sane(step.place))
    modifies thread, made
    ensures thread.Valid() && Known(thread, more) && History(more, later)
    ensures if step.Executing? then |more| == |made| + 1 && more[..|made|] == made && more[|made|].stream == step.stream
                                    && fresh(more[|made|])
            else more == made
  {
    more, later := made, taken;
    match step
    case Executing(colCount, stream) =>
      more := ExecuteOne(thread, made, taken, colCount, stream);
    case Fetching(k, allowed, fails, place, memory) =>
      if k < |made| {
        FetchOne(thread, made, taken, k, allowed, fails, place, memory);
      }
    case Reading(k, colno, memory) =>
      if k < |made| {
        later := ReadOne(thread, made, taken, k, colno, memory);
      }
    case Closing(k) =>
      if k < |made| {
        CloseOne(thread, made, taken, k);
      }
  }

  method ExecuteOne(thread: Thread, made: seq<Statement>, ghost taken: seq<Read>, colCount: nat, stream: seq<Chunk>)
      returns (more: seq<Statement>)
    requires thread.Valid() && Known(thread, made) && History(made, taken)
    modifies thread`statements
    ensures thread.Valid() && Known(thread, more) && History(more, taken)
    ensures |more| == |made| + 1 && more[..|made|] == made && more[|made|].stream == stream && fresh(more[|made|])
  {
    var s := thread.Execute(colCount, stream);
    more := made + [s];
    forall r | r in taken
      ensures Genuine(r, more)
    {
      assert Genuine(r, made);
    }
  }

  method CloseOne(thread: Thread, made: seq<Statement>, ghost taken: seq<Read>, k: nat)
    requires thread.Valid() && Known(thread, made) && History(made, taken) && k < |made|
    modifies thread`key, thread`live, made[k]
    ensures thread.Valid() && History(made, taken)
  {
    thread.CloseCursor(made[k]);
    forall r | r in taken
      ensures Genuine(r, made)
    {
      assert old(Genuine(r, made));
    }
  }

  function Enlarged(s: seq<nat>, n: nat): (r: seq<nat>)
    requires |s| <= n
    ensures |r| == n
  {
    s + seq(n - |s|, i => 0)
  }
}
