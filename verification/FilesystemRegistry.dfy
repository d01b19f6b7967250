// The registry's operations, with any answers from the filesystem and any of
// them failing part-way.
module FilesystemRegistry {
  import opened Filesystem

  datatype Outcome = Canonical(path: Path) | Fault

  ghost predicate SampledKind(world: World, since: nat, now: nat, path: Path, kind: FileKind)
  {
    exists id: Identity :: id.kind == kind && Sampled(world, since, now, path, Seen(id))
  }

  // Pending references of f's file became owners if the file was seen.
  ghost predicate CapturedIfSeen(world: World, since: nat, now: nat, e: Entry, f: Entry)
  {
    f == e || (e.identity.kind == Missing && CapturedFrom(e, f) && Sampled(world, since, now, e.path, Seen(f.identity)))
  }

  ghost predicate Captures(world: World, since: nat, now: nat, before: seq<Entry>, after: seq<Entry>)
  {
    |before| == |after|
    && forall i :: 0 <= i < |before| ==> CapturedIfSeen(world, since, now, before[i], after[i])
  }

  // Capturing keeps the registry sound and changes nobody's references.
  lemma CapturesKeep(world: World, since: nat, now: nat, before: seq<Entry>, after: seq<Entry>)
    requires EntriesValid(before) && Captures(world, since, now, before, after)
    ensures EntriesValid(after)
    ensures forall p, o :: Held(after, p, o) <==> Held(before, p, o)
  {
    forall i | 0 <= i < |before|
      ensures EntryValid(after[i]) && after[i].path == before[i].path
      ensures forall o :: after[i].RefersTo(o) <==> before[i].RefersTo(o)
    {
      assert CapturedIfSeen(world, since, now, before[i], after[i]);
      if after[i] != before[i] {
        CapturedValid(before[i], after[i]);
      }
    }
    forall p, o
      ensures Held(after, p, o) <==> Held(before, p, o)
    {
      if i :| 0 <= i < |before| && before[i].path == p && before[i].RefersTo(o) {
        assert after[i].path == p && after[i].RefersTo(o);
      }
      if i :| 0 <= i < |after| && after[i].path == p && after[i].RefersTo(o) {
        assert before[i].path == p && before[i].RefersTo(o);
      }
    }
  }

  // A look taken in a part of a stretch of time is taken in the stretch.
  lemma SampledLonger(world: World, since: nat, now: nat, from: nat, until: nat, e: Entry, f: Entry)
    requires from <= since && now <= until
    requires CapturedIfSeen(world, since, now, e, f)
    ensures CapturedIfSeen(world, from, until, e, f)
  {
    if f != e {
      var t :| since <= t < now && world(t, e.path) == Seen(f.identity);
      assert from <= t < until;
    }
  }

  // An entry replaced by one at the same path.
  lemma ReplacedKeeps(entries: seq<Entry>, i: nat, f: Entry, owner: Owner)
    requires EntriesValid(entries) && i < |entries|
    requires EntryValid(f) && f.path == entries[i].path
    requires forall o :: f.RefersTo(o) <==> entries[i].RefersTo(o) || o == owner
    ensures EntriesValid(entries[i := f])
    ensures forall p, o :: Held(entries[i := f], p, o) <==> Held(entries, p, o) || (o == owner && p == f.path)
  {
    var after := entries[i := f];
    forall p, o
      ensures Held(after, p, o) <==> Held(entries, p, o) || (o == owner && p == f.path)
    {
      if j :| 0 <= j < |entries| && entries[j].path == p && entries[j].RefersTo(o) {
        assert after[j].path == p && after[j].RefersTo(o);
      }
      if j :| 0 <= j < |after| && after[j].path == p && after[j].RefersTo(o) {
        assert entries[j].path == p && (entries[j].RefersTo(o) || o == owner);
      }
      if o == owner && p == f.path {
        assert after[i].path == p && after[i].RefersTo(o);
      }
    }
  }

  lemma AddedKeeps(entries: seq<Entry>, f: Entry, owner: Owner)
    requires EntriesValid(entries)
    requires forall i :: 0 <= i < |entries| ==> entries[i].path != f.path
    requires EntryValid(f) && forall o :: f.RefersTo(o) <==> o == owner
    ensures EntriesValid(entries + [f])
    ensures forall p, o :: Held(entries + [f], p, o) <==> Held(entries, p, o) || (o == owner && p == f.path)
  {
    var after := entries + [f];
    forall p, o
      ensures Held(after, p, o) <==> Held(entries, p, o) || (o == owner && p == f.path)
    {
      if j :| 0 <= j < |entries| && entries[j].path == p && entries[j].RefersTo(o) {
        assert after[j].path == p && after[j].RefersTo(o);
      }
      if j :| 0 <= j < |after| && after[j].path == p && after[j].RefersTo(o) {
        assert j < |entries| ==> entries[j].path == p && entries[j].RefersTo(o);
      }
      if o == owner && p == f.path {
        assert after[|entries|].path == p && after[|entries|].RefersTo(o);
      }
    }
  }

  // ---- Completed queries ----

  // What completing a query does to an entry.
  ghost predicate CompletedFrom(world: World, since: nat, now: nat, owner: Owner, query: Query, failed: bool,
                                e: Entry, f: Entry)
  {
    if !e.HasPending(owner, query) then f == e
    else
      || (CapturedFrom(e, f) && Sampled(world, since, now, e.path, Seen(f.identity)))
      || (failed && SampledKind(world, since, now, e.path, Missing)
          && f == e.(pending := WithoutPending(e.pending, owner, false, query)))
      || (f == e && (|| Sampled(world, since, now, e.path, Unreadable)
                     || SampledKind(world, since, now, e.path, Other)
                     || (!failed && SampledKind(world, since, now, e.path, Missing))))
  }

  lemma Longer(world: World, since: nat, now: nat, from: nat, until: nat, path: Path)
    requires from <= since && now <= until
    ensures forall s :: Sampled(world, since, now, path, s) ==> Sampled(world, from, until, path, s)
  {
    forall s | Sampled(world, since, now, path, s)
      ensures Sampled(world, from, until, path, s)
    {
      var t :| since <= t < now && world(t, path) == s;
      assert from <= t < until;
    }
  }

  lemma CompletedLonger(world: World, since: nat, now: nat, from: nat, until: nat,
                        owner: Owner, query: Query, failed: bool, e: Entry, f: Entry)
    requires from <= since && now <= until
    requires CompletedFrom(world, since, now, owner, query, failed, e, f)
    ensures CompletedFrom(world, from, until, owner, query, failed, e, f)
  {
    Longer(world, since, now, from, until, e.path);
  }

  ghost predicate Completes(world: World, since: nat, now: nat, owner: Owner, query: Query, failed: bool,
                            before: seq<Entry>, after: seq<Entry>)
  {
    |before| == |after|
    && forall i :: 0 <= i < |before| ==> CompletedFrom(world, since, now, owner, query, failed, before[i], after[i])
  }

  lemma CompletedEntry(world: World, since: nat, now: nat, owner: Owner, query: Query, failed: bool, e: Entry, f: Entry)
    requires EntryValid(e) && CompletedFrom(world, since, now, owner, query, failed, e, f)
    ensures f.path == e.path && (f.Unused() || EntryValid(f))
    ensures forall o :: f.RefersTo(o) ==> e.RefersTo(o)
    ensures forall o :: e.RefersTo(o) && !f.RefersTo(o) ==>
              o == owner && failed && SampledKind(world, since, now, e.path, Missing)
  {
    if e.HasPending(owner, query) {
      if CapturedFrom(e, f) {
        CapturedValid(e, f);
      } else if f != e {
        WithoutPendingDistinct(e.pending, owner, false, query);
        forall o | e.RefersTo(o) && o != owner
          ensures f.RefersTo(o)
        {
          if p :| p in e.pending && p.owner == o {
            assert p in f.pending;
          }
        }
      }
    }
  }

  // A completed query loses only its own references, only when it failed and
  // only to files still missing.
  lemma CompletesKeep(world: World, since: nat, now: nat, owner: Owner, query: Query, failed: bool,
                      before: seq<Entry>, after: seq<Entry>)
    requires EntriesValid(before) && Completes(world, since, now, owner, query, failed, before, after)
    ensures EntriesValid(Used(after))
    ensures forall p, o :: Held(Used(after), p, o) ==> Held(before, p, o)
    ensures forall p, o :: Held(before, p, o) && !Held(Used(after), p, o) ==>
              o == owner && failed && SampledKind(world, since, now, p, Missing)
  {
    forall i | 0 <= i < |before|
      ensures after[i].path == before[i].path && (after[i].Unused() || EntryValid(after[i]))
    {
      CompletedEntry(world, since, now, owner, query, failed, before[i], after[i]);
    }
    UsedValid(after);
    forall p, o
      ensures Held(Used(after), p, o) ==> Held(before, p, o)
      ensures Held(before, p, o) && !Held(Used(after), p, o) ==>
                o == owner && failed && SampledKind(world, since, now, p, Missing)
    {
      UsedHolds(after, p, o);
      if j :| 0 <= j < |after| && after[j].path == p && after[j].RefersTo(o) {
        CompletedEntry(world, since, now, owner, query, failed, before[j], after[j]);
        assert before[j].path == p && before[j].RefersTo(o);
      }
      if j :| 0 <= j < |before| && before[j].path == p && before[j].RefersTo(o) {
        CompletedEntry(world, since, now, owner, query, failed, before[j], after[j]);
        assert after[j].path == p;
      }
    }
  }

  // The owner holds path, or one of its queries waits for it.
  ghost predicate Awaits(entries: seq<Entry>, p: Path, o: Owner, q: Query)
  {
    exists i :: 0 <= i < |entries| && entries[i].path == p && (o in entries[i].owners || entries[i].HasPending(o, q))
  }

  // References of other queries, even of the same owner, are kept.
  lemma CompletesKeepOthers(world: World, since: nat, now: nat, owner: Owner, query: Query, failed: bool,
                            before: seq<Entry>, after: seq<Entry>)
    requires Completes(world, since, now, owner, query, failed, before, after)
    ensures forall p, o, q :: Awaits(before, p, o, q) && Pending(o, q) != Pending(owner, query) ==>
              Awaits(Used(after), p, o, q)
  {
    forall p, o, q | Awaits(before, p, o, q) && Pending(o, q) != Pending(owner, query)
      ensures Awaits(Used(after), p, o, q)
    {
      var i :| 0 <= i < |before| && before[i].path == p && (o in before[i].owners || before[i].HasPending(o, q));
      var e, f := before[i], after[i];
      assert CompletedFrom(world, since, now, owner, query, failed, e, f);
      assert f.path == p && (o in f.owners || f.HasPending(o, q)) by {
        if CapturedFrom(e, f) && e.HasPending(o, q) {
          assert Pending(o, q) in e.pending;
          assert e.RefersTo(o);
        }
      }
      assert f in Used(after);
      var j :| 0 <= j < |Used(after)| && Used(after)[j] == f;
    }
  }

  // A query of the owner waits for path.
  ghost predicate WaitsFor(entries: seq<Entry>, p: Path, o: Owner, q: Query)
  {
    exists i :: 0 <= i < |entries| && entries[i].path == p && entries[i].HasPending(o, q)
  }

  ghost predicate Owns(entries: seq<Entry>, p: Path, o: Owner)
  {
    exists i :: 0 <= i < |entries| && entries[i].path == p && entries[i].identity.kind == Regular && o in entries[i].owners
  }

  // What one look at a path that a completed query waited for has led to: the file is
  // the owner's, or the reference is gone with the query, or it still waits.
  ghost predicate SettledBy(after: seq<Entry>, p: Path, owner: Owner, query: Query, failed: bool, s: Sample)
  {
    if s.Seen? && s.identity.kind == Regular then Owns(after, p, owner) && !WaitsFor(after, p, owner, query)
    else if s.Seen? && s.identity.kind == Missing && failed then !WaitsFor(after, p, owner, query)
    else WaitsFor(after, p, owner, query)
  }

  ghost predicate Settles(world: World, since: nat, now: nat, before: seq<Entry>, after: seq<Entry>, owner: Owner,
                          query: Query, failed: bool)
  {
    forall p :: WaitsFor(before, p, owner, query) ==>
      exists s: Sample :: Sampled(world, since, now, p, s) && SettledBy(after, p, owner, query, failed, s)
  }

  // Every path the query waited for has been looked at, and settled accordingly.
  lemma CompletesSettle(world: World, since: nat, now: nat, owner: Owner, query: Query, failed: bool,
                        before: seq<Entry>, after: seq<Entry>)
    requires EntriesValid(before) && Completes(world, since, now, owner, query, failed, before, after)
    ensures Settles(world, since, now, before, Used(after), owner, query, failed)
  {
    forall p | WaitsFor(before, p, owner, query)
      ensures exists s: Sample :: Sampled(world, since, now, p, s) && SettledBy(Used(after), p, owner, query, failed, s)
    {
      var i :| 0 <= i < |before| && before[i].path == p && before[i].HasPending(owner, query);
      forall k | 0 <= k < |after| && after[k].path == p
        ensures k == i
      {
        assert CompletedFrom(world, since, now, owner, query, failed, before[k], after[k]);
      }
      var s := EntrySettled(world, since, now, owner, query, failed, before[i], after[i]);
      UsedSettled(after, i, owner, query, failed, s);
    }
  }

  lemma EntrySettled(world: World, since: nat, now: nat, owner: Owner, query: Query, failed: bool, e: Entry, f: Entry)
      returns (s: Sample)
    requires EntryValid(e) && e.HasPending(owner, query) && CompletedFrom(world, since, now, owner, query, failed, e, f)
    ensures Sampled(world, since, now, e.path, s) && f.path == e.path && SettledAt(f, owner, query, failed, s)
  {
    if CapturedFrom(e, f) && Sampled(world, since, now, e.path, Seen(f.identity)) {
      s := Seen(f.identity);
      assert e.RefersTo(owner);
    } else if failed && SampledKind(world, since, now, e.path, Missing)
              && f == e.(pending := WithoutPending(e.pending, owner, false, query)) {
      var id: Identity :| id.kind == Missing && Sampled(world, since, now, e.path, Seen(id));
      s := Seen(id);
    } else if Sampled(world, since, now, e.path, Unreadable) {
      s := Unreadable;
    } else {
      var id: Identity :| id.kind in {Other, Missing} && (id.kind == Missing ==> !failed)
                          && Sampled(world, since, now, e.path, Seen(id));
      s := Seen(id);
    }
  }

  predicate SettledAt(f: Entry, owner: Owner, query: Query, failed: bool, s: Sample)
  {
    if s.Seen? && s.identity.kind == Regular then
      f.identity.kind == Regular && owner in f.owners && !f.HasPending(owner, query)
    else if s.Seen? && s.identity.kind == Missing && failed then !f.HasPending(owner, query)
    else f.HasPending(owner, query)
  }

  lemma UsedSettled(after: seq<Entry>, i: nat, owner: Owner, query: Query, failed: bool, s: Sample)
    requires i < |after| && SettledAt(after[i], owner, query, failed, s)
    requires forall k :: 0 <= k < |after| && after[k].path == after[i].path ==> k == i
    ensures SettledBy(Used(after), after[i].path, owner, query, failed, s)
  {
    var f, used := after[i], Used(after);
    if !f.Unused() {
      assert f in used;
      var j :| 0 <= j < |used| && used[j] == f;
    }
    forall j | 0 <= j < |used| && used[j].path == f.path
      ensures used[j] == f
    {
      assert used[j] in used;
    }
  }

  lemma UsedValid(entries: seq<Entry>)
    requires DistinctPaths(entries) && forall i :: 0 <= i < |entries| ==> entries[i].Unused() || EntryValid(entries[i])
    ensures EntriesValid(Used(entries))
  {
    UsedDistinct(entries);
    forall i | 0 <= i < |Used(entries)|
      ensures EntryValid(Used(entries)[i])
    {
      assert Used(entries)[i] in Used(entries);
    }
  }

  lemma UsedHolds(entries: seq<Entry>, p: Path, o: Owner)
    ensures Held(Used(entries), p, o) <==> Held(entries, p, o)
  {
    if i :| 0 <= i < |entries| && entries[i].path == p && entries[i].RefersTo(o) {
      assert entries[i] in Used(entries);
      var j :| 0 <= j < |Used(entries)| && Used(entries)[j] == entries[i];
    }
    if i :| 0 <= i < |Used(entries)| && Used(entries)[i].path == p && Used(entries)[i].RefersTo(o) {
      assert Used(entries)[i] in entries;
      var j :| 0 <= j < |entries| && entries[j] == Used(entries)[i];
    }
  }

  // ---- Dead owners ----

  ghost predicate Removes(owner: Owner, before: seq<Entry>, after: seq<Entry>)
  {
    |before| == |after|
    && forall i :: 0 <= i < |before| ==> after[i] == RemovedFrom(before[i], owner)
  }

  function RemovedFrom(e: Entry, owner: Owner): Entry
  {
    e.(owners := WithoutOwner(e.owners, owner), pending := WithoutPending(e.pending, owner, true, NoQuery))
  }

  lemma RemovedEntry(e: Entry, owner: Owner)
    requires EntryValid(e)
    ensures var f := RemovedFrom(e, owner); f.Unused() || EntryValid(f)
    ensures forall o :: RemovedFrom(e, owner).RefersTo(o) <==> e.RefersTo(o) && o != owner
  {
    WithoutOwnerDistinct(e.owners, owner);
    WithoutPendingDistinct(e.pending, owner, true, NoQuery);
    forall o
      ensures RemovedFrom(e, owner).RefersTo(o) <==> e.RefersTo(o) && o != owner
    {
      if p :| p in e.pending && p.owner == o {
        assert o != owner ==> p in RemovedFrom(e, owner).pending;
      }
    }
  }

  // A dead owner is forgotten everywhere, and nobody else is.
  lemma RemovesKeep(owner: Owner, before: seq<Entry>, after: seq<Entry>)
    requires EntriesValid(before) && Removes(owner, before, after)
    ensures EntriesValid(Used(after))
    ensures forall p, o :: Held(Used(after), p, o) <==> Held(before, p, o) && o != owner
  {
    forall i | 0 <= i < |before|
      ensures after[i].path == before[i].path && (after[i].Unused() || EntryValid(after[i]))
      ensures forall o :: after[i].RefersTo(o) <==> before[i].RefersTo(o) && o != owner
    {
      RemovedEntry(before[i], owner);
    }
    UsedValid(after);
    forall p, o
      ensures Held(Used(after), p, o) <==> Held(before, p, o) && o != owner
    {
      UsedHolds(after, p, o);
      if j :| 0 <= j < |after| && after[j].path == p && after[j].RefersTo(o) {
        assert before[j].path == p && before[j].RefersTo(o);
      }
      if j :| 0 <= j < |before| && before[j].path == p && before[j].RefersTo(o) {
        assert after[j].path == p && (o != owner ==> after[j].RefersTo(o));
      }
    }
  }

  // ---- The registry ----

  // A REGULAR entry that is validated names the file it recorded.
  ghost predicate Confirmed(world: World, since: nat, now: nat, e: Entry)
  {
    e.identity.kind == Regular
    ==> exists id: Identity :: e.identity.Matches(id) && Sampled(world, since, now, e.path, Seen(id))
  }

  // The sample shows that e's path does not, or not visibly, name the recorded file.
  ghost predicate Refuted(world: World, since: nat, now: nat, e: Entry)
  {
    && e.identity.kind == Regular
    && exists s: Sample :: Sampled(world, since, now, e.path, s) && !(s.Seen? && e.identity.Matches(s.identity))
  }

  // The first entry for path, or for the file seen there.
  predicate Stands(entries: seq<Entry>, i: nat, path: Path, seen: Identity)
  {
    && i < |entries| && (entries[i].path == path || entries[i].identity.Matches(seen))
    && forall j :: 0 <= j < i ==> entries[j].path != path && !entries[j].identity.Matches(seen)
  }

  // What opening path for owner gives: the path of the first entry for path or for the
  // file seen there, which still has the file recorded; a new entry records what was seen.
  ghost predicate Resolved(world: World, since: nat, now: nat, before: seq<Entry>, after: seq<Entry>,
                           owner: Owner, path: Path, query: Query, result: Path)
  {
    exists seen: Identity | Sampled(world, since, now, path, Seen(seen)) ::
      if seen.kind == Other && (forall i :: 0 <= i < |after| ==> after[i].path != path) then
        result == path && Captures(world, since, now, before, after)
      else
        && (forall p, o :: Held(after, p, o) <==> Held(before, p, o) || (o == owner && p == result))
        && (exists i: nat :: Stands(after, i, path, seen) && after[i].path == result
                        && OthersCaptured(world, since, now, before, after, i)
                        && (if after[i].identity.kind == Regular then owner in after[i].owners
                            else after[i].HasPending(owner, query))
                        && Confirmed(world, since, now, after[i])
                        && (i >= |before| ==> after[i].identity == seen))
  }

  // Every entry but the one at i, which may be new, is as it was or captured.
  ghost predicate OthersCaptured(world: World, since: nat, now: nat, before: seq<Entry>, after: seq<Entry>, i: nat)
  {
    && |after| == (if i < |before| then |before| else |before| + 1) && i < |after|
    && forall j :: 0 <= j < |before| && j != i ==> CapturedIfSeen(world, since, now, before[j], after[j])
  }

  // Why a path is not resolved: a missing file, or the path, could not be looked at, or
  // the file recorded for it is not there any more.
  ghost predicate Hindered(world: World, since: nat, now: nat, entries: seq<Entry>, path: Path)
  {
    || CannotLook(world, since, now, entries, true, 0)
    || Sampled(world, since, now, path, Unreadable)
    || exists i, seen: Identity :: 0 <= i < |entries| && Sampled(world, since, now, path, Seen(seen))
         && (entries[i].path == path || entries[i].identity.Matches(seen)) && Refuted(world, since, now, entries[i])
  }

  // A missing file that somebody, or the owner, waits for could not be looked at.
  ghost predicate CannotLook(world: World, since: nat, now: nat, entries: seq<Entry>, every: bool, owner: Owner)
  {
    exists i :: 0 <= i < |entries| && entries[i].identity.kind == Missing && (every || entries[i].RefersTo(owner))
                && Sampled(world, since, now, entries[i].path, Unreadable)
  }

  // The entry found gets the reference and stands for path.
  lemma ResolvedFound(world: World, since: nat, now: nat, before: seq<Entry>, captured: seq<Entry>, i: nat, f: Entry,
                      owner: Owner, path: Path, query: Query, seen: Identity)
    requires EntriesValid(captured) && i < |captured| && Sampled(world, since, now, path, Seen(seen))
    requires Captures(world, since, now, before, captured)
    requires forall p, o :: Held(captured, p, o) <==> Held(before, p, o)
    requires Stands(captured, i, path, seen)
    requires Confirmed(world, since, now, captured[i])
    requires Referenced(captured[i], owner, query, f)
    ensures EntriesValid(captured[i := f])
    ensures Resolved(world, since, now, before, captured[i := f], owner, path, query, f.path)
  {
    ReferencedValid(captured[i], owner, query, f);
    ReplacedKeeps(captured, i, f, owner);
    var after := captured[i := f];
    assert Stands(after, i, path, seen) && after[i].path == f.path;
    assert Confirmed(world, since, now, after[i]);
    assert seen.kind == Other ==> after[i].path == path;
  }

  class Registry {
    const world: World
    var entries: seq<Entry>
    var clock: nat

    ghost predicate Valid()
      reads this
    {
      EntriesValid(entries)
    }

    constructor (world: World)
      ensures this.world == world && Valid() && entries == []
    {
      this.world := world;
      entries, clock := [], 0;
    }

    method Identify(path: Path) returns (sample: Sample)
      modifies `clock
      ensures clock == old(clock) + 1
      ensures sample == world(old(clock), path) && Sampled(world, old(clock), clock, path, sample)
    {
      sample := world(clock, path);
      clock := clock + 1;
      assert world(clock - 1, path) == sample;
    }

    method ValidateEntry(entry: Entry) returns (ok: bool)
      modifies `clock
      ensures old(clock) <= clock
      ensures ok ==> Confirmed(world, old(clock), clock, entry)
      ensures !ok ==> Refuted(world, old(clock), clock, entry)
    {
      if entry.identity.kind == Regular {
        var sample := Identify(entry.path);
        return sample.Seen? && entry.identity.Matches(sample.identity);
      }
      return true;
    }

    method Validate(path: Path) returns (ok: bool)
      modifies `clock
      ensures old(clock) <= clock
      ensures ok ==> forall i :: 0 <= i < |entries| && entries[i].path == path ==>
                       Confirmed(world, old(clock), clock, entries[i])
      ensures !ok ==> exists i :: 0 <= i < |entries| && entries[i].path == path
                                  && Refuted(world, old(clock), clock, entries[i])
    {
      for i := 0 to |entries|
        invariant old(clock) <= clock
        invariant forall j :: 0 <= j < i && entries[j].path == path ==>
                    Confirmed(world, old(clock), clock, entries[j])
      {
        if entries[i].path == path {
          ghost var from := clock;
          var valid := ValidateEntry(entries[i]);
          Longer(world, from, clock, old(clock), clock, path);
          if !valid {
            assert Refuted(world, old(clock), clock, entries[i]);
            return false;
          }
        }
      }
      return true;
    }

    // Looks at every missing file, or at those one owner waits for.
    method CapturePending(every: bool, owner: Owner) returns (ok: bool)
      requires Valid()
      modifies `entries, `clock
      ensures Valid() && old(clock) <= clock
      ensures Captures(world, old(clock), clock, old(entries), entries)
      ensures forall p, o :: Held(entries, p, o) <==> Held(old(entries), p, o)
      ensures ok ==> forall i :: 0 <= i < |entries| && entries[i].identity.kind == Missing && (every || entries[i].RefersTo(owner))
                       ==> exists id: Identity :: id.kind != Regular && Sampled(world, old(clock), clock, entries[i].path, Seen(id))
      ensures !ok ==> CannotLook(world, old(clock), clock, entries, every, owner)
    {
      ghost var before, since := entries, clock;
      for i := 0 to |entries|
        invariant |entries| == |before| && since <= clock
        invariant Captures(world, since, clock, before, entries)
        invariant forall j :: i <= j < |entries| ==> entries[j] == before[j]
        invariant forall j :: 0 <= j < i && entries[j].identity.kind == Missing && (every || entries[j].RefersTo(owner))
                    ==> exists id: Identity :: id.kind != Regular && Sampled(world, since, clock, entries[j].path, Seen(id))
      {
        var entry := entries[i];
        if entry.identity.kind == Missing && (every || exists p :: p in entry.pending && p.owner == owner) {
          var sample := Identify(entry.path);
          if sample.Unreadable? {
            CapturesKeep(world, since, clock, before, entries);
            assert Sampled(world, since, clock, entries[i].path, Unreadable) && (every || entries[i].RefersTo(owner));
            return false;
          }
          if sample.identity.kind == Regular {
            var captured := Capture(entry, sample.identity);
            entries := entries[i := captured];
          }
        }
      }
      CapturesKeep(world, since, clock, before, entries);
      return true;
    }

    // The first entry that stands for path, or for the file found there.
    method Find(path: Path, identity: Identity) returns (i: nat)
      ensures i <= |entries|
      ensures i < |entries| ==> Stands(entries, i, path, identity)
      ensures forall j :: 0 <= j < i ==> entries[j].path != path && !entries[j].identity.Matches(identity)
    {
      i := 0;
      while i < |entries| && entries[i].path != path && !entries[i].identity.Matches(identity)
        invariant i <= |entries|
        invariant forall j :: 0 <= j < i ==> entries[j].path != path && !entries[j].identity.Matches(identity)
      {
        i := i + 1;
      }
    }

    method Canonicalize(owner: Owner, path: Path, query: Query) returns (outcome: Outcome)
      requires Valid()
      modifies `entries, `clock
      ensures Valid() && old(clock) <= clock
      ensures outcome.Fault? ==>
                Captures(world, old(clock), clock, old(entries), entries) && Hindered(world, old(clock), clock, entries, path)
      ensures outcome.Canonical? ==>
                Resolved(world, old(clock), clock, old(entries), entries, owner, path, query, outcome.path)
    {
      ghost var since := clock;
      var captured := CapturePending(true, owner);
      if !captured {
        return Fault;
      }
      ghost var before, from := entries, clock;
      var sample := Identify(path);
      Longer(world, from, clock, since, clock, path);
      if sample.Unreadable? {
        CapturesLonger(world, since, from, clock, old(entries), entries);
        return Fault;
      }
      var identity := sample.identity;
      var i := Find(path, identity);
      if i < |entries| {
        ghost var looked := clock;
        var valid := ValidateEntry(entries[i]);
        Longer(world, looked, clock, since, clock, entries[i].path);
        Longer(world, from, looked, since, clock, path);
        CapturesLonger(world, since, from, clock, old(entries), entries);
        if !valid {
          assert Refuted(world, since, clock, entries[i]) && Sampled(world, since, clock, path, Seen(identity));
          return Fault;
        }
        var entry := AddReference(entries[i], owner, query);
        ResolvedFound(world, since, clock, old(entries), entries, i, entry, owner, path, query, identity);
        entries := entries[i := entry];
        return Canonical(entry.path);
      }
      CapturesLonger(world, since, from, clock, old(entries), entries);
      if identity.kind == Other {
        return Canonical(path);
      }
      var entry := AddReference(Entry(path, identity, [], []), owner, query);
      ReferencedValid(Entry(path, identity, [], []), owner, query, entry);
      AddedKeeps(entries, entry, owner);
      assert (entries + [entry])[|entries|] == entry && Stands(entries + [entry], |entries|, path, identity);
      entries := entries + [entry];
      return Canonical(path);
    }

    method Refresh(owner: Owner) returns (ok: bool)
      requires Valid()
      modifies `entries, `clock
      ensures Valid() && old(clock) <= clock
      ensures Captures(world, old(clock), clock, old(entries), entries)
      ensures ok ==> forall i :: 0 <= i < |entries| && entries[i].identity.kind == Missing && entries[i].RefersTo(owner)
                       ==> exists id: Identity :: id.kind != Regular && Sampled(world, old(clock), clock, entries[i].path, Seen(id))
      ensures !ok ==> CannotLook(world, old(clock), clock, entries, false, owner)
    {
      ok := CapturePending(false, owner);
    }

    method RemoveUnused()
      modifies `entries
      ensures entries == Used(old(entries))
    {
      entries := Used(entries);
    }

    // An owner has died.
    method Remove(owner: Owner)
      requires Valid()
      modifies `entries
      ensures Valid()
      ensures forall p, o :: Held(entries, p, o) <==> Held(old(entries), p, o) && o != owner
    {
      ghost var before := entries;
      for i := 0 to |entries|
        invariant |entries| == |before|
        invariant forall j :: 0 <= j < i ==> entries[j] == RemovedFrom(before[j], owner)
        invariant forall j :: i <= j < |entries| ==> entries[j] == before[j]
      {
        entries := entries[i := RemovedFrom(entries[i], owner)];
      }
      RemovesKeep(owner, before, entries);
      RemoveUnused();
    }

    // One entry of a query that ended.
    method CompleteEntry(entry: Entry, owner: Owner, query: Query, failed: bool) returns (done: Entry)
      requires EntryValid(entry)
      modifies `clock
      ensures old(clock) <= clock
      ensures CompletedFrom(world, old(clock), clock, owner, query, failed, entry, done)
    {
      done := entry;
      if entry.HasPending(owner, query) {
        var sample := Identify(entry.path);
        if sample.Seen? {
          if sample.identity.kind == Regular {
            done := Capture(entry, sample.identity);
          } else if sample.identity.kind == Missing && failed {
            done := entry.(pending := WithoutPending(entry.pending, owner, false, query));
          }
        }
      }
    }

    // A query has ended: files it created are captured; where it failed, its
    // references to files still missing are dropped.
    method Complete(owner: Owner, query: Query, failed: bool)
      requires Valid()
      modifies `entries, `clock
      ensures Valid() && old(clock) <= clock
      ensures forall p, o :: Held(entries, p, o) ==> Held(old(entries), p, o)
      ensures forall p, o :: Held(old(entries), p, o) && !Held(entries, p, o) ==>
                o == owner && failed && SampledKind(world, old(clock), clock, p, Missing)
      ensures forall p, o, q :: Awaits(old(entries), p, o, q) && Pending(o, q) != Pending(owner, query) ==>
                Awaits(entries, p, o, q)
      ensures Settles(world, old(clock), clock, old(entries), entries, owner, query, failed)
    {
      ghost var before, since := entries, clock;
      for i := 0 to |entries|
        invariant |entries| == |before| && since <= clock
        invariant forall j :: 0 <= j < i ==> CompletedFrom(world, since, clock, owner, query, failed, before[j], entries[j])
        invariant forall j :: i <= j < |entries| ==> entries[j] == before[j]
      {
        ghost var from := clock;
        var done := CompleteEntry(entries[i], owner, query, failed);
        forall j | 0 <= j < i
          ensures CompletedFrom(world, since, clock, owner, query, failed, before[j], entries[j])
        {
          CompletedLonger(world, since, from, since, clock, owner, query, failed, before[j], entries[j]);
        }
        CompletedLonger(world, from, clock, since, clock, owner, query, failed, before[i], done);
        entries := entries[i := done];
      }
      CompletesKeep(world, since, clock, owner, query, failed, before, entries);
      CompletesKeepOthers(world, since, clock, owner, query, failed, before, entries);
      CompletesSettle(world, since, clock, owner, query, failed, before, entries);
      RemoveUnused();
    }
  }

  datatype Call =
    | Validating(path: Path)
    | Opening(owner: Owner, path: Path, query: Query)
    | Refreshing(owner: Owner)
    | Ending(owner: Owner)
    | Completing(owner: Owner, query: Query, failed: bool)

  // The call may cost owner o a reference.
  predicate Drops(c: Call, o: Owner)
  {
    c == Ending(o) || (c.Completing? && c.owner == o && c.failed)
  }

  method Serve(registry: Registry, call: Call)
    requires registry.Valid()
    modifies registry
    ensures registry.Valid()
    ensures forall p, o :: Held(old(registry.entries), p, o) && !Drops(call, o) ==> Held(registry.entries, p, o)
    ensures forall p, o :: Held(registry.entries, p, o) ==>
              Held(old(registry.entries), p, o) || (call.Opening? && call.owner == o)
    ensures call.Ending? ==> forall p :: !Held(registry.entries, p, call.owner)
  {
    ghost var before, since := registry.entries, registry.clock;
    match call
    case Validating(path) =>
      var valid := registry.Validate(path);
    case Opening(owner, path, query) =>
      var outcome := registry.Canonicalize(owner, path, query);
      if outcome.Fault? {
        CapturesKeep(registry.world, since, registry.clock, before, registry.entries);
      }
    case Refreshing(owner) =>
      var refreshed := registry.Refresh(owner);
      CapturesKeep(registry.world, since, registry.clock, before, registry.entries);
    case Ending(owner) =>
      registry.Remove(owner);
    case Completing(owner, query, failed) =>
      registry.Complete(owner, query, failed);
  }

  // Every interleaving of calls keeps the registry sound, and an owner keeps what
  // it holds until its own query fails or it dies.
  method ServeAll(registry: Registry, calls: seq<Call>)
    requires registry.Valid()
    modifies registry
    ensures registry.Valid()
    ensures forall p, o :: Held(old(registry.entries), p, o) && (forall c :: c in calls ==> !Drops(c, o)) ==>
              Held(registry.entries, p, o)
    ensures forall p, o :: Held(registry.entries, p, o) ==>
              Held(old(registry.entries), p, o) || exists c :: c in calls && c.Opening? && c.owner == o
    ensures forall p, o :: GoneAfter(calls, o) ==> !Held(registry.entries, p, o)
  {
    for i := 0 to |calls|
      invariant registry.Valid()
      invariant forall p, o :: GoneAfter(calls[..i], o) ==> !Held(registry.entries, p, o)
      invariant forall p, o :: Held(old(registry.entries), p, o) && (forall c :: c in calls ==> !Drops(c, o)) ==>
                  Held(registry.entries, p, o)
      invariant forall p, o :: Held(registry.entries, p, o) ==>
                  Held(old(registry.entries), p, o) || exists c :: c in calls && c.Opening? && c.owner == o
    {
      assert calls[i] in calls;
      assert calls[..i + 1][..i] == calls[..i];
      Serve(registry, calls[i]);
    }
    assert calls[..|calls|] == calls;
  }

  // The owner has died and opened nothing since.
  predicate GoneAfter(calls: seq<Call>, o: Owner)
  {
    if calls == [] then false
    else
      var last := calls[|calls| - 1];
      last == Ending(o) || (!(last.Opening? && last.owner == o) && GoneAfter(calls[..|calls| - 1], o))
  }

  // The query whose files a connection is creating. A token is alive while a
  // reference carries it, so a new one differs from all before it; issued counts them.
  class QuerySpan {
    var active: bool
    var query: Query
    var issued: nat

    ghost predicate Valid()
      reads this
    {
      (query.Token? ==> active && query.id < issued)
    }

    constructor (issued: nat)
      ensures Valid() && !active && this.issued == issued
    {
      active, query, this.issued := false, NoQuery, issued;
    }

    method QueryBegin()
      requires Valid()
      modifies this
      ensures Valid() && active && query == NoQuery && issued == old(issued)
    {
      active, query := true, NoQuery;
    }

    // One token for all files of a query, none outside queries.
    method ActiveQuery() returns (token: Query)
      requires Valid()
      modifies `query, `issued
      ensures Valid() && token == query && (token.Token? <==> active)
      ensures old(query).Token? ==> token == old(query) && issued == old(issued)
      ensures !old(query).Token? && active ==> token == Token(old(issued)) && issued == old(issued) + 1
    {
      if active && query == NoQuery {
        query, issued := Token(issued), issued + 1;
      }
      token := query;
    }

    // The owner may be dead by then. No other query of any owner loses a reference.
    method QueryEnd(registry: Registry, alive: bool, owner: Owner, failed: bool)
      requires Valid() && registry.Valid()
      modifies this, registry
      ensures Valid() && !active && query == NoQuery && issued == old(issued)
      ensures registry.Valid()
      ensures forall p, o :: Held(old(registry.entries), p, o) && !Held(registry.entries, p, o) ==>
                alive && failed && o == owner && old(query).Token?
                && SampledKind(registry.world, old(registry.clock), registry.clock, p, Missing)
      ensures alive && old(query).Token? ==>
                Settles(registry.world, old(registry.clock), registry.clock, old(registry.entries), registry.entries, owner,
                        old(query), failed)
    {
      var completed := query;
      active, query := false, NoQuery;
      if completed != NoQuery && alive {
        registry.Complete(owner, completed, failed);
      }
    }
  }

  lemma CapturesLonger(world: World, since: nat, now: nat, until: nat, before: seq<Entry>, after: seq<Entry>)
    requires now <= until && Captures(world, since, now, before, after)
    ensures Captures(world, since, until, before, after)
  {
    forall i | 0 <= i < |before|
      ensures CapturedIfSeen(world, since, until, before[i], after[i])
    {
      SampledLonger(world, since, now, since, until, before[i], after[i]);
    }
  }
}
