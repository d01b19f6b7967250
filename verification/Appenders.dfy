// Appender objects: whole rows or none, and a list of the live ones that both
// the objects and their connection take apart.
module Appenders {
  import opened Options
  import opened Sequences

  // A value handed to appendRow; nested ones are built before anything is appended.
  type Cell = string
  type Row = seq<Cell>

  // DuckDB's appender: rows not yet flushed and the row being appended.
  datatype Native = Native(buffered: seq<Row>, partial: Row)

  // Rows appendRow has accepted, rows in the table and rows given up; how often the
  // native appender was destroyed; whether a call failed, and the rows in the table
  // at that moment.
  datatype Ledger = Ledger(appended: seq<Row>, written: seq<Row>, discarded: seq<Row>, destroyed: nat,
                           failed: bool, settled: seq<Row>)

  // DuckDB's answers to the calls an operation makes.
  type Answers = nat -> bool

  datatype Outcome = Done | Refused | Poisoned

  // The connection handle of a PDO object, with its live appenders.
  class Handle {
    var appenders: Appender?
    var connected: bool
    ghost var list: seq<Appender>
    ghost var freed: seq<Appender>

    ghost predicate Valid()
      reads this, list, freed
    {
      Chained() && Living() && Settled()
    }

    ghost predicate Chained()
      reads `appenders, `list, `connected, list`handle, list`prev, list`next
    {
      && (appenders == if list == [] then null else list[0])
      && (forall i, j :: 0 <= i < j < |list| ==> list[i] != list[j])
      && (forall i :: 0 <= i < |list| ==> Linked(i))
      && (list != [] ==> connected)
    }

    ghost predicate Living()
      reads `list, list`native, list`closed, list`ledger
    {
      forall i :: 0 <= i < |list| ==> Alive(list[i])
    }

    ghost predicate Settled()
      reads `freed, freed`handle, freed`native, freed`closed, freed`ledger
    {
      forall i :: 0 <= i < |freed| ==> Gone(freed[i])
    }

    // Entry i is this handle's and knows its neighbours.
    ghost predicate Linked(i: nat)
      requires i < |list|
      reads `list, list`handle, list`prev, list`next
    {
      && list[i].handle == this
      && list[i].prev == (if i == 0 then null else list[i - 1])
      && list[i].next == (if i + 1 == |list| then null else list[i + 1])
    }

    static ghost predicate Alive(a: Appender)
      reads a`native, a`closed, a`ledger
    {
      a.native.Some? && a.Sound()
    }

    // A freed appender has left the list and its native appender was destroyed once.
    static ghost predicate Gone(a: Appender)
      reads a`handle, a`native, a`closed, a`ledger
    {
      a.handle == null && a.native.None? && a.ledger.destroyed == 1 && a.Sound()
    }

    constructor ()
      ensures Valid() && list == [] && freed == [] && connected
    {
      appenders, connected, list, freed := null, true, [], [];
    }
  }

  class Appender {
    const ncols: nat
    var native: Option<Native>
    var closed: bool
    var handle: Handle?
    var prev: Appender?
    var next: Appender?

    ghost var ledger: Ledger

    // Every accepted row is in one place; a failure writes no more rows, ever.
    ghost predicate Sound()
      reads `native, `closed, `ledger
    {
      && (ledger.failed ==> closed && ledger.written == ledger.settled)
      && multiset(ledger.appended) == multiset(ledger.written) + multiset(Buffered()) + multiset(ledger.discarded)
      && (native.Some? && !closed ==> native.value.partial == [])
      && ledger.destroyed == (if native.Some? then 0 else 1)
      && (native.None? ==> closed)
    }

    function Buffered(): seq<Row>
      reads `native
    {
      if native.Some? then native.value.buffered else []
    }

    constructor (ncols: nat)
      ensures Sound() && native.Some? && !closed && handle == null && this.ncols == ncols
      ensures ledger == Ledger([], [], [], 0, false, [])
    {
      this.ncols := ncols;
      native, closed, handle, prev, next := Some(Native([], [])), false, null, null, null;
      ledger := Ledger([], [], [], 0, false, []);
    }

    method Poison()
      requires !closed
      modifies `closed, `ledger
      ensures closed && ledger == old(ledger).(failed := true, settled := old(ledger).written)
    {
      closed := true;
      ledger := ledger.(failed := true, settled := ledger.written);
    }

    // One value of the row; DuckDB refuses further calls after a failure.
    method AppendCell(cell: Cell, answer: bool)
      requires native.Some?
      modifies `native
      ensures native == if answer then Some(old(native).value.(partial := old(native).value.partial + [cell])) else old(native)
    {
      if answer {
        native := Some(native.value.(partial := native.value.partial + [cell]));
      }
    }

    // Every check of the row comes before the first append, so a row that is
    // turned down leaves no trace. A row that fails later poisons the appender.
    method AppendRow(args: Row, refuses: (nat, Cell) -> bool, allowed: bool, answers: Answers) returns (outcome: Outcome)
      requires Sound()
      modifies `native, `closed, `ledger
      ensures Sound()
      ensures outcome == Refused <==>
                old(native.None? || closed) || |args| != ncols || !allowed || exists i :: 0 <= i < |args| && refuses(i, args[i])
      ensures outcome != Refused ==> (outcome == Done <==> forall i :: 0 <= i <= |args| ==> answers(i))
      ensures outcome == Refused ==> native == old(native) && closed == old(closed) && ledger == old(ledger)
      ensures outcome == Done ==>
                && !closed && native == Some(Native(old(native).value.buffered + [args], []))
                && ledger == old(ledger).(appended := old(ledger).appended + [args])
      ensures outcome == Poisoned ==>
                && closed && native.Some? && Buffered() == old(Buffered())
                && ledger == old(ledger).(failed := true, settled := old(ledger).written)
    {
      if native.None? || closed || |args| != ncols {
        return Refused;
      }
      var refused := Refuses(args, refuses);
      if refused || !allowed {
        return Refused;
      }
      var ended := AppendCells(args, answers);
      if !ended {
        Poison();
        return Poisoned;
      }
      native := Some(Native(native.value.buffered + [args], []));
      ledger := ledger.(appended := ledger.appended + [args]);
      return Done;
    }

    method Refuses(args: Row, refuses: (nat, Cell) -> bool) returns (refused: bool)
      ensures refused <==> exists i :: 0 <= i < |args| && refuses(i, args[i])
    {
      for i := 0 to |args|
        invariant forall j :: 0 <= j < i ==> !refuses(j, args[j])
      {
        if refuses(i, args[i]) {
          return true;
        }
      }
      return false;
    }

    // The values of a row, and the end of the row.
    method AppendCells(args: Row, answers: Answers) returns (ended: bool)
      requires native.Some? && native.value.partial == []
      modifies `native
      ensures native.Some? && native.value.buffered == old(native).value.buffered
      ensures ended <==> forall i :: 0 <= i <= |args| ==> answers(i)
      ensures ended ==> native.value.partial == args
    {
      for i := 0 to |args|
        invariant native == Some(Native(old(native).value.buffered, args[..i]))
        invariant forall j :: 0 <= j < i ==> answers(j)
      {
        AppendCell(args[i], answers(i));
        if !answers(i) {
          return false;
        }
        assert args[..i + 1] == args[..i] + [args[i]];
      }
      assert args[..|args|] == args;
      return answers(|args|);
    }

    // What DuckDB does with the buffered rows when a flush, or a close, succeeds.
    method Write()
      requires Sound() && native.Some? && (ledger.failed ==> native.value.buffered == [])
      modifies `native, `ledger
      ensures Sound() && native == Some(old(native).value.(buffered := []))
      ensures ledger == old(ledger).(written := old(ledger).written + old(Buffered()))
    {
      ledger := ledger.(written := ledger.written + native.value.buffered);
      native := Some(native.value.(buffered := []));
    }

    method Clear()
      requires Sound() && native.Some?
      modifies `native, `ledger
      ensures Sound() && native == Some(Native([], []))
      ensures ledger == old(ledger).(discarded := old(ledger).discarded + old(Buffered()))
    {
      ledger := ledger.(discarded := ledger.discarded + native.value.buffered);
      native := Some(Native([], []));
    }

    method Flush(allowed: bool, answer: bool) returns (outcome: Outcome)
      requires Sound()
      modifies `native, `closed, `ledger
      ensures Sound()
      ensures outcome == Refused <==> old(native.None? || closed) || !allowed
      ensures outcome == Refused ==> native == old(native) && closed == old(closed) && ledger == old(ledger)
      ensures outcome == Done ==>
                && answer && !closed && Buffered() == []
                && ledger == old(ledger).(written := old(ledger).written + old(Buffered()))
      ensures outcome == Poisoned ==>
                && !answer && closed && native == old(native)
                && ledger == old(ledger).(failed := true, settled := old(ledger).written)
    {
      if native.None? || closed || !allowed {
        return Refused;
      }
      if !answer {
        Poison();
        return Poisoned;
      }
      Write();
      return Done;
    }

    method Close(allowed: bool, answer: bool) returns (outcome: Outcome)
      requires Sound()
      modifies `native, `closed, `ledger
      ensures Sound()
      ensures outcome == Refused <==> old(native.None? || closed) || !allowed
      ensures outcome == Refused ==> native == old(native) && closed == old(closed) && ledger == old(ledger)
      ensures outcome == Done ==>
                && answer && closed && Buffered() == []
                && ledger == old(ledger).(written := old(ledger).written + old(Buffered()))
      ensures outcome == Poisoned ==>
                && !answer && closed && native == old(native)
                && ledger == old(ledger).(failed := true, settled := old(ledger).written)
    {
      if native.None? || closed || !allowed {
        return Refused;
      }
      if answer {
        Write();
        closed := true;
        return Done;
      }
      Poison();
      return Poisoned;
    }

    // Destroying an appender closes it again, which would write what is left.
    method DestroyNative(answer: bool)
      requires Sound() && native.Some? && closed && (ledger.failed ==> native.value.buffered == [])
      modifies `native, `ledger
      ensures Sound() && native.None?
      ensures ledger.destroyed == old(ledger).destroyed + 1 && SameHistory(old(ledger), ledger)
      ensures old(Buffered()) == [] ==> ledger == old(ledger).(destroyed := 1)
    {
      if answer {
        Write();
      } else {
        Clear();
      }
      assert Buffered() == [];
      native := None;
      ledger := ledger.(destroyed := ledger.destroyed + 1);
    }

    // Closes, discards what a close did not write, and destroys. Rows of a closed
    // appender are never written.
    method DestroyClearing(allowed: bool, answer: bool)
      requires Sound() && native.Some?
      modifies `native, `closed, `ledger
      ensures Sound() && native.None? && closed && ledger.destroyed == old(ledger).destroyed + 1
      ensures SameHistory(old(ledger), ledger)
      ensures ledger.written == old(ledger).written + (if !old(closed) && allowed && answer then old(Buffered()) else [])
    {
      var wasClosed := closed;
      closed := true;
      if !wasClosed && allowed && answer {
        Write();
      }
      Clear();
      DestroyNative(answer);
    }
  }

  // ---- The list of live appenders ----

  // a is created on a connection: its native appender exists and it is linked.
  method Link(a: Appender, h: Handle)
    requires h.Chained() && h.connected
    requires a.handle == null && a !in h.list
    modifies h`appenders, h`list, a`prev, a`next, a`handle, h.list`prev
    ensures h.Chained() && h.list == [a] + old(h.list)
  {
    a.handle := h;
    a.prev := null;
    a.next := h.appenders;
    if h.appenders != null {
      h.appenders.prev := a;
    }
    h.appenders := a;
    h.list := [a] + h.list;
    forall i | 0 <= i < |h.list|
      ensures h.Linked(i)
    {
      if i > 0 {
        assert old(h.Linked(i - 1));
      }
    }
  }

  // The list without entry k.
  function Without(list: seq<Appender>, k: nat): seq<Appender>
    requires k < |list|
  {
    list[..k] + list[k + 1..]
  }

  method Unlink(a: Appender, h: Handle, ghost k: nat)
    requires h.Chained() && k < |h.list| && h.list[k] == a
    modifies h`appenders, h`list, a`prev, a`next, a`handle, h.list`prev, h.list`next
    ensures h.Chained() && h.list == Without(old(h.list), k)
    ensures a.handle == null && a.prev == null && a.next == null
  {
    assert h.Linked(k);
    assert k > 0 ==> h.Linked(k - 1);
    assert k + 1 < |h.list| ==> h.Linked(k + 1);
    if a.prev != null {
      a.prev.next := a.next;
    } else {
      h.appenders := a.next;
    }
    if a.next != null {
      a.next.prev := a.prev;
    }
    a.prev := null;
    a.next := null;
    a.handle := null;
    h.list := Without(h.list, k);
    forall i | 0 <= i < |h.list|
      ensures h.Linked(i)
    {
      assert old(h.Linked(if i < k then i else i + 1));
    }
  }

  // The rows in the table once a has been freed: the buffered ones are added if a
  // is live and DuckDB may and does close it.
  ghost function Final(a: Appender, allowed: bool, answer: bool): seq<Row>
    reads a`native, a`closed, a`ledger
  {
    a.ledger.written + (if !a.closed && allowed && answer then a.Buffered() else [])
  }

  // Neither rows accepted nor a failure were added or forgotten.
  predicate SameHistory(x: Ledger, y: Ledger)
  {
    y.appended == x.appended && y.failed == x.failed && y.settled == x.settled
  }

  // Destroying an unlinked appender leaves the others alone.
  method DestroyUnlinked(a: Appender, ghost h: Handle, allowed: bool, answer: bool)
    requires h.Valid() && a !in h.list && a !in h.freed && Handle.Alive(a) && a.handle == null
    modifies a`native, a`closed, a`ledger, h`freed
    ensures h.Valid() && h.freed == old(h.freed) + [a]
    ensures a.ledger.written == old(Final(a, allowed, answer)) && SameHistory(old(a.ledger), a.ledger)
  {
    DestroyApart(a, h, allowed, answer);
    AllGone(h.freed, a);
    h.freed := h.freed + [a];
  }

  method DestroyApart(a: Appender, ghost h: Handle, allowed: bool, answer: bool)
    requires h.Valid() && a !in h.list && a !in h.freed && Handle.Alive(a) && a.handle == null
    modifies a`native, a`closed, a`ledger
    ensures h.Valid() && Handle.Gone(a)
    ensures a.ledger.written == old(Final(a, allowed, answer)) && SameHistory(old(a.ledger), a.ledger)
  {
    assert forall i :: 0 <= i < |h.list| ==> h.list[i] != a;
    assert forall i :: 0 <= i < |h.freed| ==> h.freed[i] != a;
    a.DestroyClearing(allowed, answer);
    Kept(set b | (b in h.list || b in h.freed) && b != a);
  }

  // Appenders that are left alone stay what they were.
  twostate lemma Kept(others: set<Appender>)
    requires unchanged(others`native, others`closed, others`ledger, others`handle)
    ensures forall b :: b in others && old(Handle.Alive(b)) ==> Handle.Alive(b)
    ensures forall b :: b in others && old(Handle.Gone(b)) ==> Handle.Gone(b)
  {
  }

  method UnlinkLive(a: Appender, h: Handle, ghost k: nat)
    requires h.Valid() && k < |h.list| && h.list[k] == a
    modifies h`appenders, h`list, a`prev, a`next, a`handle, h.list`prev, h.list`next
    ensures h.Valid() && h.list == Without(old(h.list), k) && Handle.Alive(a) && a.handle == null
    ensures a !in h.list && a !in h.freed
  {
    assert h.Linked(k) && Handle.Alive(h.list[k]);
    assert forall i :: 0 <= i < |h.freed| ==> h.freed[i] != a;
    ghost var list := h.list;
    Unlink(a, h, k);
    forall i | 0 <= i < |h.list|
      ensures Handle.Alive(h.list[i])
    {
      assert h.list[i] == list[if i < k then i else i + 1];
    }
  }

  lemma AllGone(freed: seq<Appender>, a: Appender)
    requires Handle.Gone(a) && forall i :: 0 <= i < |freed| ==> Handle.Gone(freed[i])
    ensures forall i :: 0 <= i < |freed + [a]| ==> Handle.Gone((freed + [a])[i])
  {
  }

  method ReleaseLinked(a: Appender, h: Handle, ghost k: nat, allowed: bool, answer: bool)
    requires h.Valid() && k < |h.list| && h.list[k] == a
    modifies h`appenders, h`list, h`freed, a, h.list`prev, h.list`next
    ensures h.Valid() && h.list == Without(old(h.list), k) && h.freed == old(h.freed) + [a]
    ensures a.ledger.written == old(Final(a, allowed, answer)) && SameHistory(old(a.ledger), a.ledger)
  {
    UnlinkLive(a, h, k);
    DestroyUnlinked(a, h, allowed, answer);
  }

  // Frees the native state of an appender, from its object or from the handle's
  // closer. An unlinked appender has none left.
  method ReleaseNative(a: Appender, ghost h: Handle, ghost k: nat, allowed: bool, answer: bool)
    requires h.Valid()
    requires if a.handle == null then a in h.freed else a.handle == h && k < |h.list| && h.list[k] == a
    modifies h`appenders, h`list, h`freed, a, h.list`prev, h.list`next
    ensures h.Valid()
    ensures old(a.handle) == null ==> h.list == old(h.list) && h.freed == old(h.freed) && a.ledger == old(a.ledger)
    ensures old(a.handle) != null ==>
              && h.list == Without(old(h.list), k) && h.freed == old(h.freed) + [a]
              && a.ledger.written == old(Final(a, allowed, answer))
    ensures SameHistory(old(a.ledger), a.ledger)
  {
    if a.handle != null {
      ReleaseLinked(a, a.handle, k, allowed, answer);
    }
  }

  // The closer takes the head of the list until none is left.
  method AppendersRelease(h: Handle, allowed: bool, answers: Answers)
    requires h.Valid()
    modifies h`appenders, h`list, h`freed, h.list
    ensures h.Valid() && h.list == [] && h.freed == old(h.freed) + old(h.list)
    ensures forall a :: a in old(h.list) ==> SameHistory(old(a.ledger), a.ledger)
  {
    ghost var all, before := h.list, h.freed;
    ghost var ledgers := seq(|all|, i requires 0 <= i < |all| reads all => all[i].ledger);
    var turn := 0;
    while h.appenders != null
      invariant h.Valid()
      invariant turn <= |all| && h.list == all[turn..] && h.freed == before + all[..turn]
      invariant SameHistories(all, ledgers)
      decreases |h.list|
    {
      ReleaseHead(h, all, before, ledgers, turn, allowed, answers(turn));
      turn := turn + 1;
    }
    assert all[..turn] == all;
  }

  method ReleaseHead(h: Handle, ghost all: seq<Appender>, ghost before: seq<Appender>, ghost ledgers: seq<Ledger>,
                     ghost turn: nat, allowed: bool, answer: bool)
    requires h.Valid() && h.appenders != null && SameHistories(all, ledgers)
    requires turn <= |all| && h.list == all[turn..] && h.freed == before + all[..turn]
    modifies h`appenders, h`list, h`freed, h.appenders, h.list`prev, h.list`next
    ensures h.Valid() && turn < |all| && h.list == all[turn + 1..] && h.freed == before + all[..turn + 1]
    ensures SameHistories(all, ledgers)
  {
    assert h.Linked(0) && h.list[0] == all[turn];
    WithoutHead(all, before, turn);
    ReleaseNative(h.appenders, h, 0, allowed, answer);
  }

  ghost predicate SameHistories(list: seq<Appender>, ledgers: seq<Ledger>)
    reads list`ledger
  {
    |ledgers| == |list| && forall i :: 0 <= i < |list| ==> SameHistory(ledgers[i], list[i].ledger)
  }

  lemma WithoutHead(all: seq<Appender>, before: seq<Appender>, turn: nat)
    requires turn < |all|
    ensures Without(all[turn..], 0) == all[turn + 1..]
    ensures before + all[..turn] + [all[turn]] == before + all[..turn + 1]
  {
  }

  // The connection is closed only after the appenders.
  method CloseHandle(h: Handle, allowed: bool, answers: Answers)
    requires h.Valid()
    modifies h`appenders, h`list, h`freed, h`connected, h.list
    ensures h.Valid() && h.list == [] && !h.connected && h.freed == old(h.freed) + old(h.list)
    ensures forall a :: a in old(h.list) ==> SameHistory(old(a.ledger), a.ledger)
  {
    AppendersRelease(h, allowed, answers);
    h.connected := false;
  }

  // Every appender of the handle is linked or freed, and not both.
  ghost predicate Members(h: Handle, all: seq<Appender>)
    reads h
  {
    multiset(h.list) + multiset(h.freed) == multiset(all)
  }

  lemma InAll(h: Handle, all: seq<Appender>)
    requires Members(h, all)
    ensures forall i :: 0 <= i < |h.list| ==> h.list[i] in all
    ensures forall a :: a in all ==> a in h.list || a in h.freed
  {
    forall i | 0 <= i < |h.list|
      ensures h.list[i] in all
    {
      assert h.list[i] in multiset(h.list);
      assert h.list[i] in multiset(all);
    }
    forall a | a in all
      ensures a in h.list || a in h.freed
    {
      assert a in multiset(all);
    }
  }

  lemma Moved(list: seq<Appender>, k: nat, freed: seq<Appender>)
    requires k < |list|
    ensures multiset(Without(list, k)) + multiset(freed + [list[k]]) == multiset(list) + multiset(freed)
  {
    assert list == list[..k] + [list[k]] + list[k + 1..];
  }

  // Whichever comes first, freeing the objects or closing the handle: in the end
  // the native appender of each was destroyed once.
  method ShutDown(h: Handle, first: seq<Appender>, last: seq<Appender>, ghost all: seq<Appender>, allowed: bool, answers: Answers)
    requires h.Valid() && Members(h, all)
    requires forall a :: a in first || a in last ==> a in all
    modifies h, all
    ensures h.Valid() && Members(h, all) && h.list == [] && !h.connected
    ensures forall a :: a in all ==> Handle.Gone(a)
  {
    FreeAll(h, first, all, allowed, answers);
    InAll(h, all);
    CloseAll(h, all, allowed, answers);
    FreeAll(h, last, all, allowed, answers);
    InAll(h, all);
    forall a | a in all
      ensures Handle.Gone(a)
    {
      assert a in h.freed;
    }
  }

  method CloseAll(h: Handle, ghost all: seq<Appender>, allowed: bool, answers: Answers)
    requires h.Valid() && Members(h, all)
    modifies h, all
    ensures h.Valid() && Members(h, all) && h.list == [] && !h.connected
    ensures forall i :: 0 <= i < |all| ==> SameHistory(old(all[i].ledger), all[i].ledger)
  {
    InAll(h, all);
    ghost var list := h.list;
    CloseHandle(h, allowed, answers);
    forall i | 0 <= i < |all|
      ensures SameHistory(old(all[i].ledger), all[i].ledger)
    {
      if all[i] in list {
        var j :| 0 <= j < |list| && list[j] == all[i];
      }
    }
  }

  // An object is freed at its own time.
  method FreeOne(h: Handle, a: Appender, ghost all: seq<Appender>, allowed: bool, answer: bool)
    requires h.Valid() && Members(h, all) && a in all
    modifies h`appenders, h`list, h`freed, all
    ensures h.Valid() && Members(h, all) && a in h.freed
    ensures old(h.list) == [] ==> h.list == []
    ensures forall i :: 0 <= i < |all| ==> SameHistory(old(all[i].ledger), all[i].ledger)
    ensures forall i :: 0 <= i < |all| && all[i] != a ==> all[i].native == old(all[i].native) && all[i].closed == old(all[i].closed)
  {
    InAll(h, all);
    ghost var k := Place(h, a);
    if a.handle != null {
      Moved(h.list, k, h.freed);
    }
    ReleaseNative(a, h, k, allowed, answer);
  }

  lemma Place(h: Handle, a: Appender) returns (k: nat)
    requires h.Valid() && (a in h.list || a in h.freed)
    ensures if a.handle == null then a in h.freed else a.handle == h && k < |h.list| && h.list[k] == a
  {
    k := 0;
    if a in h.list {
      k :| 0 <= k < |h.list| && h.list[k] == a;
      assert h.Linked(k);
    } else {
      assert Handle.Gone(a);
    }
  }

  method FreeAll(h: Handle, objects: seq<Appender>, ghost all: seq<Appender>, allowed: bool, answers: Answers)
    requires h.Valid() && Members(h, all) && forall a :: a in objects ==> a in all
    modifies h`appenders, h`list, h`freed, all
    ensures h.Valid() && Members(h, all)
    ensures old(h.list) == [] ==> h.list == []
  {
    for i := 0 to |objects|
      invariant h.Valid() && Members(h, all)
      invariant old(h.list) == [] ==> h.list == []
    {
      FreeOne(h, objects[i], all, allowed, answers(i));
    }
  }

  method ClearAt(h: Handle, a: Appender, ghost k: nat)
    requires h.Valid() && k < |h.list| && h.list[k] == a
    modifies a`native, a`ledger
    ensures h.Valid() && a.native == Some(Native([], [])) && a.ledger == old(a.ledger).(discarded := old(a.ledger).discarded + old(a.Buffered()))
  {
    assert Handle.Alive(h.list[k]) && h.Linked(k);
    a.Clear();
    forall i | 0 <= i < |h.list|
      ensures Handle.Alive(h.list[i])
    {
      assert old(Handle.Alive(h.list[i]));
    }
    assert forall i :: 0 <= i < |h.freed| ==> h.freed[i] != a;
  }

  // Whether a's rows belong to the transaction being rolled back.
  ghost predicate Dropped(a: Appender, abandoned: Appender -> bool)
    reads a`closed
  {
    abandoned(a) && !a.closed
  }

  // What a's native appender becomes.
  ghost function AfterDiscard(native: Option<Native>, dropped: bool): Option<Native>
  {
    if dropped && native.Some? then Some(Native([], [])) else native
  }

  // PDO frees an open transaction's appenders' rows before it rolls back. The walk
  // follows the links from the head.
  method DiscardForRollback(h: Handle, abandoned: Appender -> bool, ghost natives: seq<Option<Native>>,
                            ghost ledgers: seq<Ledger>)
    requires h.Valid() && Holding(h.list, natives, 0, abandoned) && SameHistories(h.list, ledgers)
    modifies h.list`native, h.list`ledger
    ensures h.Valid() && Holding(h.list, natives, |h.list|, abandoned) && SameHistories(h.list, ledgers)
  {
    var a := h.appenders;
    ghost var k := 0;
    while a != null
      invariant k <= |h.list| && a == if k < |h.list| then h.list[k] else null
      invariant h.Valid() && Holding(h.list, natives, k, abandoned) && SameHistories(h.list, ledgers)
      decreases |h.list| - k
    {
      a := DiscardOne(h, a, k, abandoned, natives, ledgers);
      k := k + 1;
    }
  }

  // The first k appenders have dropped what they had to; natives are the states at first.
  ghost predicate Holding(list: seq<Appender>, natives: seq<Option<Native>>, k: nat, abandoned: Appender -> bool)
    reads list`native, list`closed
  {
    |natives| == |list|
    && forall i :: 0 <= i < |list| ==> HoldingAt(list[i], natives[i], i < k, abandoned)
  }

  ghost predicate HoldingAt(a: Appender, native: Option<Native>, visited: bool, abandoned: Appender -> bool)
    reads a`native, a`closed
  {
    a.native == AfterDiscard(native, visited && Dropped(a, abandoned))
  }

  method DiscardOne(h: Handle, a: Appender, ghost k: nat, abandoned: Appender -> bool, ghost natives: seq<Option<Native>>,
                    ghost ledgers: seq<Ledger>) returns (next: Appender?)
    requires h.Valid() && k < |h.list| && h.list[k] == a
    requires Holding(h.list, natives, k, abandoned) && SameHistories(h.list, ledgers)
    modifies a`native, a`ledger
    ensures h.Valid() && Holding(h.list, natives, k + 1, abandoned) && SameHistories(h.list, ledgers)
    ensures next == if k + 1 < |h.list| then h.list[k + 1] else null
  {
    assert h.Linked(k);
    next := a.next;
    if a.native.Some? && !a.closed && abandoned(a) {
      ClearAt(h, a, k);
    }
    forall i | 0 <= i < |h.list|
      ensures HoldingAt(h.list[i], natives[i], i < k + 1, abandoned)
    {
      assert old(HoldingAt(h.list[i], natives[i], i < k, abandoned));
      assert i != k ==> h.list[i] != a;
    }
  }

  // ---- Every run ----

  // A call on one appender object.
  datatype Call =
    | Append(row: Row, refuses: (nat, Cell) -> bool, answers: Answers)
    | Flush(answer: bool)
    | Close(answer: bool)

  // What the program does next; appenders are counted from the first created.
  datatype Step =
    | Creating(ncols: nat)
    | Calling(k: nat, call: Call, allowed: bool)
    | Freeing(k: nat, allowed: bool, answer: bool)
    | Discarding(abandoned: Appender -> bool)
    | Disconnecting(allowed: bool, answers: Answers)

  // Of an appender: how many columns it has, whether it can be used, the rows it has
  // accepted, and those in the table when a call on it failed.
  datatype Past = Past(ncols: nat, open: bool, accepted: seq<Row>, failure: Option<seq<Row>>)

  ghost predicate Remembered(a: Appender, p: Past)
    reads a`native, a`closed, a`ledger
  {
    && p.ncols == a.ncols && p.open == Usable(a)
    && Recorded(a.ledger, p)
  }

  ghost predicate Usable(a: Appender)
    reads a`native, a`closed
  {
    a.native.Some? && !a.closed
  }

  predicate Recorded(l: Ledger, p: Past)
  {
    l.appended == p.accepted && l.failed == p.failure.Some? && (l.failed ==> l.settled == p.failure.value)
  }

  ghost predicate AllRemembered(made: seq<Appender>, past: seq<Past>)
    reads made`native, made`closed, made`ledger
  {
    |past| == |made| && forall k :: 0 <= k < |made| ==> Remembered(made[k], past[k])
  }

  // Where a run stands.
  ghost predicate Going(h: Handle, made: seq<Appender>, past: seq<Past>)
    reads h, h.list, h.freed, made`native, made`closed, made`ledger
  {
    h.Valid() && Members(h, made) && AllDiffer(made) && AllRemembered(made, past)
  }

  predicate AllDiffer(made: seq<Appender>) { forall i, j :: 0 <= i < j < |made| ==> made[i] != made[j] }

  // How a call ends: a row is accepted when it fits an appender in use, none of its
  // values is refused and DuckDB takes all of them and the end of the row.
  ghost function Expected(open: bool, ncols: nat, call: Call, allowed: bool): Outcome
  {
    if !open || !allowed then Refused
    else
      match call
      case Append(row, refuses, answers) =>
        if |row| != ncols || exists i :: 0 <= i < |row| && refuses(i, row[i]) then Refused
        else if forall i :: 0 <= i <= |row| ==> answers(i) then Done
        else Poisoned
      case Flush(answer) => if answer then Done else Poisoned
      case Close(answer) => if answer then Done else Poisoned
  }

  // What a call has led to, given how a was before it.
  ghost predicate Performed(a: Appender, open: bool, was: Ledger, call: Call, allowed: bool, outcome: Outcome)
    reads a`native, a`closed, a`ledger
  {
    && outcome == Expected(open, a.ncols, call, allowed) && Usable(a) == StillOpen(open, call, outcome)
    && After(was, call, outcome, a.ledger)
  }

  method Perform(a: Appender, call: Call, allowed: bool) returns (outcome: Outcome)
    requires a.Sound()
    modifies a`native, a`closed, a`ledger
    ensures a.Sound() && a.native.Some? == old(a.native.Some?)
    ensures Performed(a, old(Usable(a)), old(a.ledger), call, allowed, outcome)
  {
    match call
    case Append(row, refuses, answers) =>
      outcome := PerformAppend(a, row, refuses, answers, allowed);
    case Flush(answer) =>
      outcome := a.Flush(allowed, answer);
    case Close(answer) =>
      outcome := a.Close(allowed, answer);
  }

  method PerformAppend(a: Appender, row: Row, refuses: (nat, Cell) -> bool, answers: Answers, allowed: bool)
      returns (outcome: Outcome)
    requires a.Sound()
    modifies a`native, a`closed, a`ledger
    ensures a.Sound() && a.native.Some? == old(a.native.Some?)
    ensures Performed(a, old(Usable(a)), old(a.ledger), Append(row, refuses, answers), allowed, outcome)
  {
    outcome := a.AppendRow(row, refuses, allowed, answers);
  }

  predicate StillOpen(open: bool, call: Call, outcome: Outcome)
  {
    open && outcome != Poisoned && !(outcome == Done && call.Close?)
  }

  // What a call makes of an appender's ledger.
  predicate After(x: Ledger, call: Call, outcome: Outcome, y: Ledger)
  {
    match outcome
    case Refused => y == x
    case Done => y.appended == x.appended + (if call.Append? then [call.row] else []) && !y.failed && !x.failed
    case Poisoned => !x.failed && y == x.(failed := true, settled := x.written)
  }

  // A freed appender has no handle, one on the list has.
  lemma OnList(h: Handle, k: nat)
    requires h.Valid() && k < |h.list|
    ensures Handle.Alive(h.list[k]) && h.list[k] !in h.freed
  {
    assert h.Linked(k);
  }

  // The rest of the handle's appenders do not notice.
  method PerformOn(h: Handle, a: Appender, call: Call, allowed: bool) returns (outcome: Outcome)
    requires h.Living() && h.Settled() && Handle.Alive(a) && a !in h.freed
    modifies a`native, a`closed, a`ledger
    ensures h.Living() && h.Settled() && Performed(a, old(Usable(a)), old(a.ledger), call, allowed, outcome)
  {
    outcome := Perform(a, call, allowed);
    Kept(set b | (b in h.list || b in h.freed) && b != a);
  }

  function PastOf(p: Past, call: Call, outcome: Outcome, written: seq<Row>): Past
  {
    match outcome
    case Refused => p
    case Done => p.(open := p.open && !call.Close?, accepted := p.accepted + if call.Append? then [call.row] else [])
    case Poisoned => p.(open := false, failure := Some(written))
  }

  // What happened, step by step; written is what was in the table before a call.
  datatype Event =
    | Created(ncols: nat)
    | Called(k: nat, call: Call, allowed: bool, outcome: Outcome, written: seq<Row>)
    | Freed(k: nat)
    | Discarded
    | Disconnected
    | Nothing

  function Tell(past: seq<Past>, e: Event): seq<Past>
  {
    match e
    case Created(ncols) => past + [Past(ncols, true, [], None)]
    case Called(k, call, _, outcome, written) =>
      if k < |past| then past[k := PastOf(past[k], call, outcome, written)] else past
    case Freed(k) => if k < |past| then past[k := past[k].(open := false)] else past
    case Disconnected => seq(|past|, i requires 0 <= i < |past| => past[i].(open := false))
    case _ => past
  }

  function Told(events: seq<Event>): seq<Past>
  {
    if events == [] then [] else Tell(Told(Init(events)), Last(events))
  }

  predicate Connected(events: seq<Event>) { forall i :: 0 <= i < |events| ==> !events[i].Disconnected? }

  // e is what a step leads to, where past is what happened before it: a call ends as
  // DuckDB's answers to it say.
  ghost predicate LeadsTo(step: Step, past: seq<Past>, connected: bool, e: Event)
  {
    match step
    case Creating(ncols) => e == if connected then Created(ncols) else Nothing
    case Calling(k, call, allowed) =>
      if k >= |past| then e == Nothing
      else
        && e.Called? && e.k == k && e.call == call && e.allowed == allowed
        && e.outcome == Expected(past[k].open, past[k].ncols, call, allowed)
    case Freeing(k, _, _) => e == if k < |past| then Freed(k) else Nothing
    case Discarding(_) => e == Discarded
    case Disconnecting(_, _) => e == Disconnected
  }

  // The events that the steps lead to, one for each.
  ghost predicate AllLeadTo(steps: seq<Step>, connected: bool, events: seq<Event>)
  {
    if steps == [] then events == []
    else
      && events != [] && AllLeadTo(Init(steps), connected, Init(events))
      && LeadsTo(Last(steps), Told(Init(events)), connected && Connected(Init(events)), Last(events))
  }

  method CallOne(h: Handle, a: Appender, ghost made: seq<Appender>, ghost past: seq<Past>, ghost k: nat, call: Call,
                 allowed: bool) returns (outcome: Outcome)
    requires Going(h, made, past) && k < |made| && made[k] == a
    modifies a`native, a`closed, a`ledger
    ensures outcome == Expected(past[k].open, past[k].ncols, call, allowed)
    ensures Going(h, made, past[k := PastOf(past[k], call, outcome, old(a.ledger.written))])
  {
    ghost var open, was := Usable(a), a.ledger;
    assert Remembered(a, past[k]);
    outcome := CallKept(h, a, made, call, allowed);
    ghost var now := PastOf(past[k], call, outcome, was.written);
    assert Remembered(a, now);
    forall i | 0 <= i < |made|
      ensures Remembered(made[i], past[k := now][i])
    {
      assert i != k ==> made[i] != a && old(Remembered(made[i], past[i]));
    }
  }

  // A call on a linked appender, or on one that was freed.
  method CallKept(h: Handle, a: Appender, ghost made: seq<Appender>, call: Call, allowed: bool) returns (outcome: Outcome)
    requires h.Valid() && Members(h, made) && a in made
    modifies a`native, a`closed, a`ledger
    ensures h.Valid() && Performed(a, old(Usable(a)), old(a.ledger), call, allowed, outcome)
  {
    outcome := Refused;
    if a.native.Some? {
      InAll(h, made);
      ghost var p := Place(h, a);
      OnList(h, p);
      outcome := PerformOn(h, a, call, allowed);
    }
  }

  method FreeMore(h: Handle, a: Appender, ghost made: seq<Appender>, ghost past: seq<Past>, ghost k: nat, allowed: bool,
                  answer: bool)
    requires Going(h, made, past) && k < |made| && made[k] == a
    modifies h`appenders, h`list, h`freed, made
    ensures Going(h, made, past[k := past[k].(open := false)]) && h.connected == old(h.connected)
  {
    FreeOne(h, a, made, allowed, answer);
    ghost var j :| 0 <= j < |h.freed| && h.freed[j] == a;
    assert Handle.Gone(h.freed[j]);
    forall i | 0 <= i < |made|
      ensures Remembered(made[i], past[k := past[k].(open := false)][i])
    {
      assert old(Remembered(made[i], past[i]));
      assert i != k ==> made[i] != made[k];
    }
  }

  method Disconnect(h: Handle, ghost made: seq<Appender>, ghost past: seq<Past>, allowed: bool, answers: Answers)
    requires Going(h, made, past)
    modifies h, made
    ensures Going(h, made, Tell(past, Disconnected)) && !h.connected
  {
    CloseAll(h, made, allowed, answers);
    InAll(h, made);
    forall i | 0 <= i < |made|
      ensures Remembered(made[i], Tell(past, Disconnected)[i])
    {
      assert old(Remembered(made[i], past[i]));
      assert made[i] in made && made[i] in h.freed;
      var j :| 0 <= j < |h.freed| && h.freed[j] == made[i];
      assert Handle.Gone(h.freed[j]);
    }
  }

  method Create(h: Handle, made: seq<Appender>, ghost past: seq<Past>, ncols: nat) returns (more: seq<Appender>)
    requires Going(h, made, past) && h.connected
    modifies h`appenders, h`list, h.list`prev
    ensures made <= more && fresh(more[|made|..])
    ensures Going(h, more, Tell(past, Created(ncols)))
  {
    var a := NewLinked(h, ncols);
    more := made + [a];
    ghost var now := Tell(past, Created(ncols));
    forall i | 0 <= i < |more|
      ensures Remembered(more[i], now[i])
    {
      assert i < |made| ==> old(Remembered(made[i], past[i]));
    }
  }

  method NewLinked(h: Handle, ncols: nat) returns (a: Appender)
    requires h.Valid() && h.connected
    modifies h`appenders, h`list, h.list`prev
    ensures fresh(a) && h.Valid() && h.list == [a] + old(h.list) && a.ledger == Ledger([], [], [], 0, false, [])
    ensures Usable(a) && a.ncols == ncols
  {
    a := new Appender(ncols);
    Link(a, h);
    forall i | 0 <= i < |h.list|
      ensures Handle.Alive(h.list[i])
    {
      assert i > 0 ==> h.list[i] == old(h.list)[i - 1] && old(Handle.Alive(h.list[i - 1]));
    }
    forall i | 0 <= i < |h.freed|
      ensures Handle.Gone(h.freed[i])
    {
      assert old(Handle.Gone(h.freed[i]));
    }
  }

  ghost function Natives(list: seq<Appender>): (natives: seq<Option<Native>>)
    reads list`native
    ensures |natives| == |list| && forall i :: 0 <= i < |list| ==> natives[i] == list[i].native
  {
    if list == [] then [] else [list[0].native] + Natives(list[1..])
  }

  ghost function Ledgers(list: seq<Appender>): (ledgers: seq<Ledger>)
    reads list`ledger
    ensures |ledgers| == |list| && forall i :: 0 <= i < |list| ==> ledgers[i] == list[i].ledger
  {
    if list == [] then [] else [list[0].ledger] + Ledgers(list[1..])
  }

  method Discard(h: Handle, ghost made: seq<Appender>, ghost past: seq<Past>, abandoned: Appender -> bool)
    requires Going(h, made, past)
    modifies made`native, made`ledger
    ensures Going(h, made, past)
  {
    InAll(h, made);
    ghost var natives := Natives(h.list);
    DiscardForRollback(h, abandoned, natives, Ledgers(h.list));
    forall i | 0 <= i < |made|
      ensures Usable(made[i]) == old(Usable(made[i])) && SameHistory(old(made[i].ledger), made[i].ledger)
    {
      if made[i] in h.list {
        var j :| 0 <= j < |h.list| && h.list[j] == made[i];
        assert HoldingAt(h.list[j], natives[j], true, abandoned);
      }
    }
    forall i | 0 <= i < |made|
      ensures Remembered(made[i], past[i])
    {
      assert old(Remembered(made[i], past[i]));
    }
  }

  // Where a run stands after a step.
  ghost predicate Advanced(h: Handle, step: Step, past: seq<Past>, connected: bool, more: seq<Appender>, e: Event)
    reads h, h.list, h.freed, more`native, more`closed, more`ledger
  {
    && Going(h, more, Tell(past, e)) && LeadsTo(step, past, connected, e)
    && h.connected == (connected && !e.Disconnected?)
  }

  method TakeCreation(h: Handle, made: seq<Appender>, ghost past: seq<Past>, ncols: nat)
      returns (more: seq<Appender>, ghost e: Event)
    requires Going(h, made, past) && h.connected
    modifies h`appenders, h`list, h.list`prev
    ensures Advanced(h, Creating(ncols), past, old(h.connected), more, e)
    ensures made <= more && fresh(more[|made|..])
  {
    more := Create(h, made, past, ncols);
    e := Created(ncols);
  }

  // A step that does nothing.
  lemma Idle(h: Handle, step: Step, made: seq<Appender>, past: seq<Past>)
    requires Going(h, made, past) && LeadsTo(step, past, h.connected, Nothing)
    ensures Advanced(h, step, past, h.connected, made, Nothing)
  {
  }

  method TakeCall(h: Handle, made: seq<Appender>, ghost past: seq<Past>, k: nat, call: Call, allowed: bool)
      returns (ghost e: Event)
    requires Going(h, made, past)
    modifies made`native, made`closed, made`ledger
    ensures Advanced(h, Calling(k, call, allowed), past, old(h.connected), made, e)
  {
    e := Nothing;
    if k < |made| {
      ghost var written := made[k].ledger.written;
      var outcome := CallOne(h, made[k], made, past, k, call, allowed);
      e := Called(k, call, allowed, outcome, written);
    }
  }

  method TakeFree(h: Handle, made: seq<Appender>, ghost past: seq<Past>, k: nat, allowed: bool, answer: bool)
      returns (ghost e: Event)
    requires Going(h, made, past)
    modifies h`appenders, h`list, h`freed, made
    ensures Advanced(h, Freeing(k, allowed, answer), past, old(h.connected), made, e)
  {
    e := Nothing;
    if k < |made| {
      FreeMore(h, made[k], made, past, k, allowed, answer);
      e := Freed(k);
    }
  }

  method TakeDiscard(h: Handle, made: seq<Appender>, ghost past: seq<Past>, abandoned: Appender -> bool)
      returns (ghost e: Event)
    requires Going(h, made, past)
    modifies made`native, made`ledger
    ensures Advanced(h, Discarding(abandoned), past, old(h.connected), made, e)
  {
    Discard(h, made, past, abandoned);
    e := Discarded;
  }

  method TakeDisconnect(h: Handle, made: seq<Appender>, ghost past: seq<Past>, allowed: bool, answers: Answers)
      returns (ghost e: Event)
    requires Going(h, made, past)
    modifies h, made
    ensures Advanced(h, Disconnecting(allowed, answers), past, old(h.connected), made, e)
  {
    Disconnect(h, made, past, allowed, answers);
    e := Disconnected;
  }

  method Take(h: Handle, step: Step, made: seq<Appender>, ghost past: seq<Past>)
      returns (more: seq<Appender>, ghost e: Event)
    requires Going(h, made, past)
    modifies h, made
    ensures Advanced(h, step, past, old(h.connected), more, e) && made <= more && fresh(more[|made|..])
  {
    more := made;
    InAll(h, made);
    match step
    case Creating(ncols) =>
      if h.connected {
        more, e := TakeCreation(h, made, past, ncols);
      } else {
        Idle(h, step, made, past);
        e := Nothing;
      }
    case Calling(k, call, allowed) =>
      e := TakeCall(h, made, past, k, call, allowed);
    case Freeing(k, allowed, answer) =>
      e := TakeFree(h, made, past, k, allowed, answer);
    case Discarding(abandoned) =>
      e := TakeDiscard(h, made, past, abandoned);
    case Disconnecting(allowed, answers) =>
      e := TakeDisconnect(h, made, past, allowed, answers);
  }

  // Any number of appenders on one connection, used, freed and closed in any order:
  // each call ends as DuckDB's answers to it say, so that a row that DuckDB takes is
  // accepted; each row accepted is in the table, buffered or given up; where a call
  // failed, no row has been written since; and closing the connection has destroyed
  // each native appender once.
  method Run(h: Handle, steps: seq<Step>) returns (made: seq<Appender>, ghost events: seq<Event>)
    requires h.Valid() && h.list == [] && h.freed == []
    modifies h
    ensures h.Valid() && |Told(events)| == |made| && AllLeadTo(steps, old(h.connected), events)
    ensures forall k :: 0 <= k < |made| ==>
              multiset(Told(events)[k].accepted) == multiset(made[k].ledger.written) + multiset(made[k].Buffered())
                                                    + multiset(made[k].ledger.discarded)
    ensures forall k :: 0 <= k < |made| && Told(events)[k].failure.Some? ==>
              made[k].ledger.written == Told(events)[k].failure.value
    ensures !h.connected ==> forall k :: 0 <= k < |made| ==> Handle.Gone(made[k])
  {
    made, events := TakeAll(h, steps);
    HistoryHolds(h, made, Told(events));
  }

  lemma OneMoreEvent(steps: seq<Step>, step: Step, connected: bool, events: seq<Event>, e: Event)
    requires AllLeadTo(steps, connected, events) && LeadsTo(step, Told(events), connected && Connected(events), e)
    ensures AllLeadTo(steps + [step], connected, events + [e]) && Told(events + [e]) == Tell(Told(events), e)
    ensures Connected(events + [e]) <==> Connected(events) && !e.Disconnected?
  {
    assert Init(events + [e]) == events && Last(events + [e]) == e;
    assert Init(steps + [step]) == steps && Last(steps + [step]) == step;
  }

  method TakeAll(h: Handle, steps: seq<Step>) returns (made: seq<Appender>, ghost events: seq<Event>)
    requires h.Valid() && h.list == [] && h.freed == []
    modifies h
    ensures Underway(h, made, steps, old(h.connected), events) && fresh(made)
    decreases |steps|
  {
    made, events := [], [];
    if steps != [] {
      made, events := TakeAll(h, Init(steps));
      InitLast(steps);
      var more, later := TakeNext(h, Init(steps), Last(steps), made, old(h.connected), events);
      BeginsWith(made, more);
      made, events := more, later;
    }
  }

  lemma InitLast(steps: seq<Step>)
    requires steps != []
    ensures Init(steps) + [Last(steps)] == steps
  {
  }

  lemma BeginsWith(made: seq<Appender>, more: seq<Appender>)
    requires made <= more
    ensures more == made + more[|made|..]
  {
  }

  ghost predicate Underway(h: Handle, made: seq<Appender>, steps: seq<Step>, connected: bool, events: seq<Event>)
    reads h, h.list, h.freed, made`native, made`closed, made`ledger
  {
    && Going(h, made, Told(events)) && AllLeadTo(steps, connected, events)
    && h.connected == (connected && Connected(events))
  }

  method TakeNext(h: Handle, ghost steps: seq<Step>, step: Step, made: seq<Appender>, ghost connected: bool,
                  ghost events: seq<Event>) returns (more: seq<Appender>, ghost later: seq<Event>)
    requires Underway(h, made, steps, connected, events)
    modifies h, made
    ensures Underway(h, more, steps + [step], connected, later) && made <= more && fresh(more[|made|..])
  {
    ghost var e;
    more, e := Take(h, step, made, Told(events));
    OneMoreEvent(steps, step, connected, events, e);
    later := events + [e];
  }

  // An accepted row stays accepted.
  lemma {:induction false} AcceptedStays(events: seq<Event>, n: nat)
    requires n < |events| && events[n].Called? && events[n].outcome == Done && events[n].call.Append?
    requires events[n].k < |Told(events[..n])|
    ensures events[n].k < |Told(events)| && events[n].call.row in Told(events)[events[n].k].accepted
    decreases |events|
  {
    var before, e := Init(events), Last(events);
    if n == |events| - 1 {
      assert events[..n] == before;
    } else {
      assert before[..n] == events[..n];
      AcceptedStays(before, n);
    }
  }

  lemma HistoryHolds(h: Handle, made: seq<Appender>, past: seq<Past>)
    requires h.Valid() && Members(h, made) && AllRemembered(made, past)
    ensures forall k :: 0 <= k < |made| ==>
              multiset(past[k].accepted) == multiset(made[k].ledger.written) + multiset(made[k].Buffered())
                                            + multiset(made[k].ledger.discarded)
    ensures forall k :: 0 <= k < |made| && past[k].failure.Some? ==> made[k].ledger.written == past[k].failure.value
    ensures !h.connected ==> forall k :: 0 <= k < |made| ==> Handle.Gone(made[k])
  {
    InAll(h, made);
    forall k | 0 <= k < |made|
      ensures made[k].Sound() && (!h.connected ==> Handle.Gone(made[k]))
    {
      if made[k] in h.list {
        var j :| 0 <= j < |h.list| && h.list[j] == made[k];
        assert Handle.Alive(h.list[j]);
      } else {
        assert Handle.Gone(made[k]);
      }
    }
    forall k | 0 <= k < |made|
      ensures multiset(past[k].accepted) == multiset(made[k].ledger.written) + multiset(made[k].Buffered())
                                            + multiset(made[k].ledger.discarded)
      ensures past[k].failure.Some? ==> made[k].ledger.written == past[k].failure.value
    {
      assert Remembered(made[k], past[k]) && made[k].Sound();
    }
  }
}
