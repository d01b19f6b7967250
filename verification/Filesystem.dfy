// Which owners hold which database files: entries of the identity registry.
module Filesystem {
  import opened Sequences

  type Path = string
  type Owner = nat

  datatype FileKind = Missing | Regular | Other

  datatype Identity = Identity(kind: FileKind, device: nat, file: nat) {
    predicate Matches(other: Identity)
    {
      kind == Regular && other.kind == Regular && device == other.device && file == other.file
    }
  }

  // What one look at a path gives.
  datatype Sample = Seen(identity: Identity) | Unreadable

  // The filesystem as the registry sees it: any answer to each look, one after another.
  type World = (nat, Path) -> Sample

  // The running query on whose behalf a path is opened, if any.
  datatype Query = NoQuery | Token(id: nat)

  datatype Pending = Pending(owner: Owner, query: Query)

  datatype Entry = Entry(path: Path, identity: Identity, owners: seq<Owner>, pending: seq<Pending>) {
    predicate HasPending(owner: Owner, query: Query)
    {
      Pending(owner, query) in pending
    }

    // The owner has a reference, settled or pending.
    predicate RefersTo(owner: Owner)
    {
      owner in owners || exists p :: p in pending && p.owner == owner
    }

    predicate Unused()
    {
      owners == [] && pending == []
    }
  }

  // Owners only of regular files, pending references only to missing ones, none
  // twice and never neither.
  predicate EntryValid(e: Entry)
  {
    && e.identity.kind != Other
    && (e.identity.kind == Regular ==> e.pending == [])
    && (e.identity.kind == Missing ==> e.owners == [])
    && Distinct(e.owners) && Distinct(e.pending)
    && !e.Unused()
  }

  predicate DistinctPaths(entries: seq<Entry>)
  {
    forall i, j :: 0 <= i < j < |entries| ==> entries[i].path != entries[j].path
  }

  predicate EntriesValid(entries: seq<Entry>)
  {
    DistinctPaths(entries) && forall i :: 0 <= i < |entries| ==> EntryValid(entries[i])
  }

  // A look taken at path between two moments.
  ghost predicate Sampled(world: World, since: nat, now: nat, path: Path, sample: Sample)
  {
    exists t :: since <= t < now && world(t, path) == sample
  }

  // ---- Entries ----

  // Some owner is referred to by one of the entries at path.
  predicate Held(entries: seq<Entry>, path: Path, owner: Owner)
  {
    exists i :: 0 <= i < |entries| && entries[i].path == path && entries[i].RefersTo(owner)
  }

  // f is e once its file was seen: every pending reference has become an owner.
  ghost predicate CapturedFrom(e: Entry, f: Entry)
  {
    && f.path == e.path
    && f.identity.kind == Regular
    && f.pending == []
    && Distinct(f.owners)
    && e.owners <= f.owners
    && forall o :: o in f.owners <==> e.RefersTo(o)
  }

  method AddOwner(e: Entry, owner: Owner) returns (f: Entry)
    requires Distinct(e.owners)
    ensures f == e.(owners := if owner in e.owners then e.owners else e.owners + [owner])
    ensures Distinct(f.owners)
  {
    f := if owner in e.owners then e else e.(owners := e.owners + [owner]);
  }

  method Capture(e: Entry, observed: Identity) returns (f: Entry)
    requires observed.kind == Regular && Distinct(e.owners)
    ensures f.identity == observed && CapturedFrom(e, f)
  {
    f := e;
    for i := 0 to |e.pending|
      invariant f == e.(owners := f.owners) && Distinct(f.owners) && e.owners <= f.owners
      invariant forall o :: o in f.owners <==> o in e.owners || exists j :: 0 <= j < i && e.pending[j].owner == o
    {
      f := AddOwner(f, e.pending[i].owner);
    }
    f := f.(identity := observed, pending := []);
    forall o
      ensures o in f.owners <==> e.RefersTo(o)
    {
      if o !in e.owners && e.RefersTo(o) {
        var p :| p in e.pending && p.owner == o;
        var j :| 0 <= j < |e.pending| && e.pending[j] == p;
      }
    }
  }

  // The reference an owner gets to an entry.
  ghost predicate Referenced(e: Entry, owner: Owner, query: Query, f: Entry)
  {
    if e.identity.kind == Regular then
      f == e.(owners := if owner in e.owners then e.owners else e.owners + [owner])
    else
      f == e.(pending := if e.HasPending(owner, query) then e.pending else e.pending + [Pending(owner, query)])
  }

  method AddReference(e: Entry, owner: Owner, query: Query) returns (f: Entry)
    requires Distinct(e.owners)
    ensures Referenced(e, owner, query, f)
  {
    if e.identity.kind == Regular {
      f := AddOwner(e, owner);
    } else if !e.HasPending(owner, query) {
      f := e.(pending := e.pending + [Pending(owner, query)]);
    } else {
      f := e;
    }
  }

  // A reference is added to a sound entry or to a new one.
  lemma ReferencedValid(e: Entry, owner: Owner, query: Query, f: Entry)
    requires Referenced(e, owner, query, f)
    requires EntryValid(e) || (e.identity.kind != Other && e.Unused())
    ensures EntryValid(f) && f.path == e.path && f.identity == e.identity
    ensures forall o :: f.RefersTo(o) <==> e.RefersTo(o) || o == owner
  {
    if e.identity.kind == Missing {
      var p := Pending(owner, query);
      assert p in f.pending;
      forall o
        ensures f.RefersTo(o) <==> e.RefersTo(o) || o == owner
      {
        if e.RefersTo(o) && o !in e.owners {
          var q :| q in e.pending && q.owner == o;
          assert q in f.pending;
        }
      }
    }
  }

  lemma CapturedValid(e: Entry, f: Entry)
    requires EntryValid(e) && CapturedFrom(e, f)
    ensures EntryValid(f)
    ensures forall o :: f.RefersTo(o) <==> e.RefersTo(o)
  {
    if e.owners == [] {
      var p := e.pending[0];
      assert e.RefersTo(p.owner);
      assert p.owner in f.owners;
    }
  }

  // ---- Leaving out ----

  function WithoutOwner(owners: seq<Owner>, owner: Owner): (r: seq<Owner>)
    ensures forall o :: o in r <==> o in owners && o != owner
  {
    if owners == [] then []
    else
      var rest := WithoutOwner(owners[1..], owner);
      if owners[0] == owner then rest else [owners[0]] + rest
  }

  lemma {:induction false} WithoutOwnerDistinct(owners: seq<Owner>, owner: Owner)
    requires Distinct(owners)
    ensures Distinct(WithoutOwner(owners, owner))
  {
    if owners != [] {
      var rest := owners[1..];
      WithoutOwnerDistinct(rest, owner);
      var kept := WithoutOwner(rest, owner);
      forall i | 0 <= i < |kept|
        ensures kept[i] != owners[0]
      {
        assert kept[i] in rest;
        var j :| 0 <= j < |rest| && rest[j] == kept[i];
        assert owners[j + 1] == kept[i];
      }
    }
  }

  // Drops the references of an owner: all of them, or those of one query.
  function WithoutPending(pending: seq<Pending>, owner: Owner, every: bool, query: Query): (r: seq<Pending>)
    ensures forall p :: p in r <==> p in pending && !(p.owner == owner && (every || p.query == query))
  {
    if pending == [] then []
    else
      var rest := WithoutPending(pending[1..], owner, every, query);
      if pending[0].owner == owner && (every || pending[0].query == query) then rest else [pending[0]] + rest
  }

  lemma {:induction false} WithoutPendingDistinct(pending: seq<Pending>, owner: Owner, every: bool, query: Query)
    requires Distinct(pending)
    ensures Distinct(WithoutPending(pending, owner, every, query))
  {
    if pending != [] {
      var rest := pending[1..];
      WithoutPendingDistinct(rest, owner, every, query);
      assert forall p :: p in WithoutPending(rest, owner, every, query) ==> p in rest && p != pending[0];
    }
  }

  function Used(entries: seq<Entry>): (r: seq<Entry>)
    ensures forall e :: e in r <==> e in entries && !e.Unused()
  {
    if entries == [] then []
    else
      var rest := Used(entries[1..]);
      if entries[0].Unused() then rest else [entries[0]] + rest
  }

  lemma {:induction false} UsedDistinct(entries: seq<Entry>)
    requires DistinctPaths(entries)
    ensures DistinctPaths(Used(entries))
  {
    if entries != [] {
      var rest := entries[1..];
      UsedDistinct(rest);
      var kept := Used(rest);
      assert forall i :: 0 <= i < |kept| ==> kept[i] in rest && kept[i].path != entries[0].path;
    }
  }
}
