// The databases that connections share: which are open, who uses them, and the
// sandbox that is put on one under open_basedir and never taken off.
module Instances {
  import opened Options
  import opened Sequences

  type Path = string

  datatype File = File(device: nat, number: nat)

  function Without<T(==)>(s: seq<T>, x: T): seq<T>
  {
    if s == [] then [] else if s[0] == x then s[1..] else [s[0]] + Without(s[1..], x)
  }

  lemma {:induction false} WithoutMeans<T>(s: seq<T>, x: T)
    requires Distinct(s)
    ensures Distinct(Without(s, x))
    ensures forall k :: 0 <= k < |Without(s, x)| ==> Without(s, x)[k] in s && Without(s, x)[k] != x
    ensures forall y :: y in s && y != x ==> y in Without(s, x)
    ensures |Without(s, x)| == if x in s then |s| - 1 else |s|
  {
    if s != [] && s[0] != x {
      WithoutMeans(s[1..], x);
      var rest := Without(s[1..], x);
      assert s[0] !in s[1..];
      forall i, j | 0 <= i < j < |rest| + 1
        ensures ([s[0]] + rest)[i] != ([s[0]] + rest)[j]
      {
        assert rest[j - 1] in rest;
      }
      assert s == [s[0]] + s[1..];
    }
  }

  // Unlinks the first x of a list.
  method Unlink<T(==)>(s: seq<T>, x: T) returns (r: seq<T>)
    ensures r == Without(s, x)
  {
    var k := 0;
    while k < |s|
      invariant k <= |s| && s[..k] + Without(s[k..], x) == Without(s, x)
    {
      if s[k] == x {
        assert s[k..][1..] == s[k + 1..];
        return s[..k] + s[k + 1..];
      }
      assert s[k..][1..] == s[k + 1..] && s[..k + 1] == s[..k] + [s[k]];
      k := k + 1;
    }
    r := s;
  }

  // How the attempt to sandbox an instance went; Interrupted is a PHP bailout.
  datatype Profile = Applied | NotApplied | NotRecorded | Interrupted

  class Handle {
    var instance: Instance?
    var db: bool
    var conn: bool

    constructor ()
      ensures instance == null && !db && !conn
    {
      instance, db, conn := null, false, false;
    }
  }

  class Instance {
    const path: Option<Path>
    var file: Option<File>
    var handles: seq<Handle>
    var disabled: bool
    var refused: bool
    var basedir: Option<string>

    constructor (path: Option<Path>)
      ensures this.path == path && file == None && handles == [] && !disabled && !refused && basedir == None
    {
      this.path, file, handles, disabled, refused, basedir := path, None, [], false, false, None;
    }

    // A sandboxed instance knows for which open_basedir, or serves nobody.
    ghost predicate Sound()
      reads `disabled, `refused, `basedir
    {
      && (disabled && basedir.None? ==> refused)
      && (basedir.Some? ==> disabled && basedir.value != "")
    }

    method Refuse()
      requires Sound()
      modifies `refused
      ensures Sound() && refused
    {
      if refused {
        return;
      }
      refused := true;
    }

    method DisableExternalAccess(openBasedir: string, profile: Profile) returns (allowed: bool)
      requires Sound() && !refused && !disabled && openBasedir != ""
      modifies `disabled, `refused, `basedir
      ensures Sound() && allowed == (profile == Applied) && refused == !allowed
      ensures disabled == (profile == Applied || profile == NotRecorded)
      ensures basedir == if allowed then Some(openBasedir) else None
    {
      match profile
      case Applied =>
        disabled := true;
        basedir := Some(openBasedir);
        return true;
      case NotApplied =>
        Refuse();
        return false;
      case NotRecorded =>
        disabled := true;
        refused := true;
        return false;
      case Interrupted =>
        Refuse();
        return false;
    }

    // Nothing is taken back: neither a refusal, nor the lockdown, nor the directory
    // it was for. Only that directory is let in under a lockdown.
    method EnforceSandbox(openBasedir: string, profile: Profile) returns (allowed: bool)
      requires Sound()
      modifies `disabled, `refused, `basedir
      ensures Sound()
      ensures allowed == (!old(refused) && (openBasedir == "" ||
                          if old(disabled) then old(basedir) == Some(openBasedir) else profile == Applied))
      ensures allowed && openBasedir != "" ==> disabled && basedir == Some(openBasedir)
      ensures (old(refused) ==> refused) && (old(disabled) ==> disabled) && (old(basedir).Some? ==> basedir == old(basedir))
      ensures !allowed && !refused ==> basedir.Some? && openBasedir !in {"", basedir.value}
      ensures old(disabled) || openBasedir == "" ==>
                refused == old(refused) && disabled == old(disabled) && basedir == old(basedir)
    {
      if refused {
        return false;
      }
      if openBasedir == "" {
        return true;
      }
      if !disabled {
        allowed := DisableExternalAccess(openBasedir, profile);
        return;
      }
      return basedir.Some? && openBasedir == basedir.value;
    }
  }

  // What the file system and DuckDB answer while a database is opened.
  datatype Attempt = Attempt(installed: bool, before: Option<File>, database: bool, verified: bool, connected: bool,
                             after: Option<File>)

  datatype OpenError = NoFilesystem | CaseConflict | PathChanged | HardLink | NoDatabase | NotVerified | NotConnected
                     | FileChanged

  // What the walk over the open instances comes to.
  datatype Match = Missing | Found(instance: Instance) | Unsafe(error: OpenError)

  // An entry of SQL into an instance, and whether it was refused for good then.
  datatype Visit = Visit(instance: Instance, openBasedir: string, allowed: bool, refused: bool)

  function Lookup(fold: Path -> Path, list: seq<Instance>, path: Path, file: Option<File>): Match
    reads list`file
  {
    if list == [] then Missing
    else
      var i := list[0];
      if i.path.None? then Lookup(fold, list[1..], path, file)
      else if fold(path) == fold(i.path.value) then
        if i.file.Some? && file != i.file then Unsafe(if path != i.path.value then CaseConflict else PathChanged) else Found(i)
      else if file.Some? && file == i.file then Unsafe(HardLink)
      else Lookup(fold, list[1..], path, file)
  }

  predicate Clashes(fold: Path -> Path, i: Instance, path: Path, file: Option<File>)
    reads i`file
  {
    i.path.Some? && (fold(path) == fold(i.path.value) || (file.Some? && file == i.file))
  }

  // Nothing is missed: none clashes, or the first that does decides.
  lemma {:induction false} LookupMeans(fold: Path -> Path, list: seq<Instance>, path: Path, file: Option<File>)
    ensures Lookup(fold, list, path, file) == Missing <==> forall i :: i in list ==> !Clashes(fold, i, path, file)
    ensures Lookup(fold, list, path, file).Found? ==>
              var i := Lookup(fold, list, path, file).instance;
              i in list && i.path.Some? && fold(path) == fold(i.path.value) && (i.file.Some? ==> file == i.file)
  {
    if list != [] {
      LookupMeans(fold, list[1..], path, file);
      assert list == [list[0]] + list[1..];
      assert Clashes(fold, list[0], path, file) ==> Lookup(fold, list, path, file) != Missing;
    }
  }

  // The first of the list to clash.
  ghost predicate FirstClash(fold: Path -> Path, list: seq<Instance>, path: Path, file: Option<File>, k: nat)
    reads list`file
  {
    k < |list| && Clashes(fold, list[k], path, file) && forall j :: 0 <= j < k ==> !Clashes(fold, list[j], path, file)
  }

  // It is open at the path, and has recorded no file or the one seen.
  predicate Shareable(fold: Path -> Path, i: Instance, path: Path, file: Option<File>)
    reads i`file
  {
    i.path.Some? && fold(path) == fold(i.path.value) && (i.file.None? || i.file == file)
  }

  // The first to clash is shared if it can be; otherwise the opening is refused, for
  // a hard link to it, its path in another case, or a new file at its path.
  lemma {:induction false} FirstClashDecides(fold: Path -> Path, list: seq<Instance>, path: Path, file: Option<File>, k: nat)
    requires FirstClash(fold, list, path, file, k)
    ensures Shareable(fold, list[k], path, file) ==> Lookup(fold, list, path, file) == Found(list[k])
    ensures !Shareable(fold, list[k], path, file) ==>
              Lookup(fold, list, path, file) == Unsafe(if fold(path) != fold(list[k].path.value) then HardLink
                                                       else if path == list[k].path.value then PathChanged else CaseConflict)
  {
    if k > 0 {
      assert !Clashes(fold, list[0], path, file);
      forall j | 0 <= j < k - 1
        ensures !Clashes(fold, list[1..][j], path, file)
      {
        assert list[1..][j] == list[j + 1];
      }
      FirstClashDecides(fold, list[1..], path, file, k - 1);
    }
  }

  lemma {:induction false} SomeFirstClash(fold: Path -> Path, list: seq<Instance>, path: Path, file: Option<File>)
      returns (k: nat)
    requires exists i :: i in list && Clashes(fold, i, path, file)
    ensures FirstClash(fold, list, path, file, k)
  {
    k := 0;
    while !Clashes(fold, list[k], path, file)
      invariant k < |list| && forall j :: 0 <= j < k ==> !Clashes(fold, list[j], path, file)
      decreases |list| - k
    {
      var i :| i in list && Clashes(fold, i, path, file);
      var n :| 0 <= n < |list| && list[n] == i;
      assert n > k;
      k := k + 1;
    }
  }

  // Native opening after the walk; unsure is whether the file is still to be identified.
  function Admission(a: Attempt, unsure: bool): Option<OpenError>
  {
    if !a.database then Some(NoDatabase)
    else if !a.verified then Some(NotVerified)
    else if !a.connected then Some(NotConnected)
    else if unsure && (a.after.None? || (a.before.Some? && a.after != a.before)) then Some(FileChanged)
    else None
  }

  ghost predicate HasFile(i: Instance, file: Option<File>)
    reads i`file
  {
    i.path.Some? && i.file == file
  }

  // No file is open twice, by way of hard links.
  ghost predicate FilesDiffer(list: seq<Instance>)
    reads list`file
  {
    forall i, j :: 0 <= i < j < |list| && list[i].path.Some? && list[j].path.Some? ==> list[i].file != list[j].file
  }

  lemma FilesWith(list: seq<Instance>, i: Instance)
    ensures FilesDiffer([i] + list) <==> FilesDiffer(list) && (i.path.Some? ==> forall j :: j in list ==> !HasFile(j, i.file))
  {
    var all := [i] + list;
    if FilesDiffer(all) {
      forall j | j in list && i.path.Some?
        ensures !HasFile(j, i.file)
      {
        var k :| 0 <= k < |list| && list[k] == j;
        assert all[0] == i && all[k + 1] == j;
      }
      forall k, l | 0 <= k < l < |list| && list[k].path.Some? && list[l].path.Some?
        ensures list[k].file != list[l].file
      {
        assert all[k + 1] == list[k] && all[l + 1] == list[l];
      }
    }
    if FilesDiffer(list) && (i.path.Some? ==> forall j :: j in list ==> !HasFile(j, i.file)) {
      forall k, l | 0 <= k < l < |all| && all[k].path.Some? && all[l].path.Some?
        ensures all[k].file != all[l].file
      {
        assert all[l] == list[l - 1] && list[l - 1] in list && (k == 0 ==> !HasFile(list[l - 1], i.file));
      }
    }
  }

  class Registry {
    // How the platform compares paths: as they are, or folded to one case.
    const fold: Path -> Path

    // The open databases, last opened first.
    var instances: seq<Instance>

    ghost var handles: set<Handle>
    ghost var known: set<Instance>
    ghost var log: seq<Visit>

    constructor (fold: Path -> Path)
      ensures Valid() && this.fold == fold && instances == [] && handles == {} && known == {} && log == []
    {
      this.fold, instances, handles, known, log := fold, [], {}, {}, [];
    }

    ghost predicate Valid()
      reads this, handles, known
    {
      Listing() && (forall h :: h in handles ==> Placed(h)) && Sandboxes()
    }

    ghost predicate Listing()
      reads `instances, `handles, `known, handles`instance, known`handles, known`file
    {
      Linked() && forall i :: i in known ==> InUse(i)
    }

    ghost predicate Linked()
      reads `instances, `handles, `known, handles`instance, known`handles, known`file
    {
      && (forall i :: i in instances ==> i in known)
      && Distinct(instances) && PathsDiffer()
      && forall i :: i in known ==> Populated(i)
    }

    ghost predicate Sandboxes()
      reads `known, `log, known`disabled, known`refused, known`basedir
    {
      (forall i :: i in known ==> i.Sound()) && Recorded()
    }

    // No path is open twice.
    ghost predicate PathsDiffer()
      reads `instances
    {
      forall i, j :: i in instances && j in instances && i != j && i.path.Some? && j.path.Some? ==>
        fold(i.path.value) != fold(j.path.value)
    }

    // Who uses a database uses no other; one without a file is private.
    ghost predicate Populated(i: Instance)
      reads `instances, `handles, handles`instance, i`handles, i`file
    {
      && Distinct(i.handles)
      && (forall h :: h in i.handles ==> h in handles && h.instance == i)
      && (i in instances ==> if i.path.Some? then i.file.Some? else |i.handles| <= 1)
    }

    // Open just while somebody uses it.
    ghost predicate InUse(i: Instance)
      reads `instances, i`handles
    {
      i in instances <==> i.handles != []
    }

    // A connection uses the one database it is listed at, or none.
    ghost predicate Placed(h: Handle)
      reads `instances, h, known`handles, `known
    {
      if h.instance == null then !h.db && !h.conn
      else h.instance in instances && h.instance in known && h in h.instance.handles && h.db && h.conn
    }

    // What the log says has come to stay.
    ghost predicate Recorded()
      reads `log, `known, known`disabled, known`refused, known`basedir
    {
      Consistent(log) && forall v :: v in log ==> RecordedAt(v)
    }

    ghost predicate RecordedAt(v: Visit)
      reads `known, known`disabled, known`refused, known`basedir
    {
      && v.instance in known
      && (v.allowed && v.openBasedir != "" ==> v.instance.disabled && v.instance.basedir == Some(v.openBasedir))
      && (v.refused ==> v.instance.refused)
    }

    // A new connection object.
    method Connect() returns (h: Handle)
      requires Valid()
      modifies `handles
      ensures Valid() && fresh(h) && handles == old(handles) + {h} && h.instance == null
    {
      h := new Handle();
      handles := handles + {h};
    }

    // The walk over the open databases.
    method Find(path: Path, file: Option<File>) returns (m: Match)
      ensures m == Lookup(fold, instances, path, file)
    {
      for k := 0 to |instances|
        invariant Lookup(fold, instances[k..], path, file) == Lookup(fold, instances, path, file)
      {
        var i := instances[k];
        assert instances[k..][1..] == instances[k + 1..];
        if i.path.Some? {
          if fold(path) == fold(i.path.value) {
            if i.file.Some? && file != i.file {
              return Unsafe(if path != i.path.value then CaseConflict else PathChanged);
            }
            return Found(i);
          }
          if file.Some? && file == i.file {
            return Unsafe(HardLink);
          }
        }
      }
      m := Missing;
    }

    // How an attempt to open ends.
    ghost function Outcome(path: Option<Path>, a: Attempt): Option<OpenError>
      reads `instances, instances`file
    {
      if !a.installed then Some(NoFilesystem)
      else
        var m := if path.Some? then Lookup(fold, instances, path.value, a.before) else Missing;
        if m.Unsafe? then Some(m.error) else Admission(a, m == Missing && path.Some?)
    }

    // When an opening succeeds: DuckDB does its part, and the first database to clash
    // can be shared, or none clashes and the file opened is the one identified.
    ghost predicate Welcome(path: Option<Path>, a: Attempt)
      reads `instances, instances`file
    {
      && a.installed && a.database && a.verified && a.connected
      && (path.None?
          || (exists k: nat :: FirstClash(fold, instances, path.value, a.before, k)
                          && Shareable(fold, instances[k], path.value, a.before))
          || ((forall i :: i in instances ==> !Clashes(fold, i, path.value, a.before))
              && a.after.Some? && (a.before.None? || a.before == a.after)))
    }

    lemma OutcomeMeans(path: Option<Path>, a: Attempt)
      ensures Outcome(path, a).None? <==> Welcome(path, a)
      ensures path.Some? && Outcome(path, a).None? ==>
                forall k: nat :: FirstClash(fold, instances, path.value, a.before, k) ==>
                  Lookup(fold, instances, path.value, a.before) == Found(instances[k])
    {
      if path.Some? {
        LookupMeans(fold, instances, path.value, a.before);
        forall k: nat | FirstClash(fold, instances, path.value, a.before, k)
          ensures if Shareable(fold, instances[k], path.value, a.before)
                  then Lookup(fold, instances, path.value, a.before) == Found(instances[k])
                  else Lookup(fold, instances, path.value, a.before).Unsafe?
        {
          FirstClashDecides(fold, instances, path.value, a.before, k);
        }
        if exists i :: i in instances && Clashes(fold, i, path.value, a.before) {
          var k := SomeFirstClash(fold, instances, path.value, a.before);
        }
      }
    }

    // In a registry without hard links, the database open at the path with the same
    // file is the first to clash.
    lemma SameFirst(path: Path, file: Option<File>, k: nat)
      requires Valid() && FilesDiffer(instances) && k < |instances| && instances[k].path.Some?
      requires fold(path) == fold(instances[k].path.value) && file.Some? && instances[k].file == file
      ensures FirstClash(fold, instances, path, file, k) && Shareable(fold, instances[k], path, file)
    {
      forall j | 0 <= j < k
        ensures !Clashes(fold, instances[j], path, file)
      {
        assert instances[j] in instances && instances[k] in instances && instances[j] != instances[k];
      }
    }

    // Opens the database and connects to it; on a failure it is closed again.
    method Acquire(h: Handle, instance: Instance, created: bool, a: Attempt) returns (error: Option<OpenError>)
      requires !h.db && !h.conn
      modifies h`db, h`conn, instance`file
      ensures error == Admission(a, created && instance.path.Some?)
      ensures h.db == h.conn == error.None?
      ensures !created || instance.path.None? ==> instance.file == old(instance.file)
      ensures created && instance.path.Some? && error.None? ==> instance.file == a.after && a.after.Some?
    {
      h.db := a.database;
      error := if a.database then None else Some(NoDatabase);
      if error.None? && !a.verified {
        h.db := false;
        error := Some(NotVerified);
      }
      if error.None? {
        h.conn := a.connected;
        if !a.connected {
          h.db := false;
          error := Some(NotConnected);
        }
      }
      if error.None? && created && instance.path.Some? {
        instance.file := a.after;
        if a.after.None? || (a.before.Some? && a.after != a.before) {
          h.conn := false;
          h.db := false;
          error := Some(FileChanged);
        }
      }
    }

    // The database to share, if there is one.
    method Locate(path: Option<Path>, file: Option<File>) returns (error: Option<OpenError>, instance: Instance?)
      requires Valid()
      ensures var m := if path.Some? then Lookup(fold, instances, path.value, file) else Missing;
              && error == (if m.Unsafe? then Some(m.error) else None)
              && instance == (if m.Found? then m.instance else null)
      ensures instance != null ==> instance in instances && Serves(instance, path) && instance.file == file
      ensures error.None? && instance == null && path.Some? ==>
                forall i :: i in instances ==> !Clashes(fold, i, path.value, file)
    {
      error, instance := None, null;
      if path.Some? {
        LookupMeans(fold, instances, path.value, file);
        var m := Find(path.value, file);
        match m
        case Missing =>
        case Found(i) =>
          instance := i;
        case Unsafe(e) =>
          error := Some(e);
      }
    }

    // A database not yet in the lists.
    ghost predicate Newcomer(instance: Instance)
      reads `instances, `known, instance`handles, instance`disabled, instance`refused, instance`basedir
    {
      && instance !in known && instance.handles == [] && instance.Sound()
      && forall i :: i in instances && i.path.Some? && instance.path.Some? ==> fold(i.path.value) != fold(instance.path.value)
    }

    method Admit(h: Handle, instance: Instance, created: bool, a: Attempt) returns (error: Option<OpenError>)
      requires Valid() && h in handles && h.instance == null
      requires if created then Newcomer(instance) && instance.file.None? else instance in instances && instance.path.Some?
      modifies `instances, `known, h, instance`handles, instance`file
      ensures Valid() && error == Admission(a, created && instance.path.Some?)
      ensures error.Some? ==> h.instance == null && instances == old(instances) && known == old(known)
      ensures error.Some? ==> instance.handles == old(instance.handles)
      ensures error.None? ==> h.instance == instance && instances == (if created then [instance] else []) + old(instances)
      ensures error.None? ==> known == old(known) + {instance} && instance.handles == [h] + old(instance.handles)
      ensures error.None? ==> instance.file == if created && instance.path.Some? then a.after else old(instance.file)
      ensures !created ==> instance.file == old(instance.file)
    {
      h.instance := instance;
      error := Acquire(h, instance, created, a);
      if error.None? {
        Join(h, instance, created);
      } else {
        h.instance := null;
      }
    }

    // Opens a path, sharing the database with those who have it open. A failure
    // changes nothing. No file is open under two paths, unless it came to be only
    // while it was opened.
    method Open(h: Handle, path: Option<Path>, a: Attempt) returns (error: Option<OpenError>)
      requires Valid() && h in handles && h.instance == null
      modifies `instances, `known, h, known`handles, known`file
      ensures Valid() && error == old(Outcome(path, a)) && old(known) <= known && fresh(known - old(known))
      ensures error.None? <==> old(Welcome(path, a))
      ensures error.Some? ==> h.instance == null && instances == old(instances)
      ensures error.None? && path.Some? ==> forall k: nat :: old(FirstClash(fold, instances, path.value, a.before, k)) ==>
                h.instance == old(instances)[k]
      ensures error.None? ==>
                && h.instance != null && Serves(h.instance, path)
                && (h.instance in old(instances) || (fresh(h.instance) && (path.Some? ==> h.instance.file == a.after)))
                && instances == (if h.instance in old(instances) then [] else [h.instance]) + old(instances)
      ensures forall i :: i in old(known) ==>
                i.handles == (if i == h.instance then [h] else []) + old(i.handles) && i.file == old(i.file)
      ensures error.None? && old(FilesDiffer(instances)) ==>
                (FilesDiffer(instances) <==>
                 !(path.Some? && a.before.None? && exists i :: i in old(instances) && HasFile(i, a.after)))
    {
      OutcomeMeans(path, a);
      if !a.installed {
        return Some(NoFilesystem);
      }
      var instance: Instance?;
      error, instance := Locate(path, a.before);
      if error.Some? {
        return;
      }
      error := OpenAt(h, path, a, instance);
      if instance == null && error.None? {
        FilesWith(old(instances), h.instance);
      }
    }

    // Opens a path for which a database was found, or none.
    method OpenAt(h: Handle, path: Option<Path>, a: Attempt, found: Instance?) returns (error: Option<OpenError>)
      requires Valid() && h in handles && h.instance == null
      requires found != null ==> found in instances && found.path.Some? && Serves(found, path)
      requires found == null && path.Some? ==>
                 forall i :: i in instances && i.path.Some? ==> fold(path.value) != fold(i.path.value)
      modifies `instances, `known, h, known`handles, known`file
      ensures Valid() && error == Admission(a, found == null && path.Some?)
      ensures old(known) <= known && fresh(known - old(known))
      ensures error.Some? ==> h.instance == null && instances == old(instances)
      ensures error.None? ==> h.instance != null && Serves(h.instance, path)
      ensures error.None? ==> if found == null then fresh(h.instance) else h.instance == found
      ensures error.None? ==> instances == (if found == null then [h.instance] else []) + old(instances)
      ensures error.None? && found == null && path.Some? ==> h.instance.file == a.after
      ensures forall i :: i in old(known) ==>
                i.handles == (if i == h.instance then [h] else []) + old(i.handles) && i.file == old(i.file)
    {
      var created := found == null;
      var instance := found;
      if created {
        instance := new Instance(path);
      }
      error := Admit(h, instance, created, a);
    }

    ghost predicate Serves(i: Instance, path: Option<Path>)
    {
      i.path.Some? == path.Some? && (path.Some? ==> fold(i.path.value) == fold(path.value))
    }

    // Enters a connection, and the database if it is new, into the lists.
    method Join(h: Handle, instance: Instance, created: bool)
      requires AllBut(h) && h in handles && h.instance == instance && h.db && h.conn
      requires forall i :: i in known ==> h !in i.handles
      requires created <==> instance !in instances
      requires created ==> Newcomer(instance) && instance.path.Some? == instance.file.Some?
      requires !created ==> instance.path.Some?
      modifies `instances, `known, instance`handles
      ensures Valid()
      ensures known == old(known) + {instance} && instances == (if created then [instance] else []) + old(instances)
      ensures instance.handles == [h] + old(instance.handles)
    {
      if created {
        instances, known := [instance] + instances, known + {instance};
      }
      instance.handles := [h] + instance.handles;
    }

    // All is well but for h, which is being opened or closed.
    ghost predicate AllBut(h: Handle)
      reads this, handles, known
    {
      Listing() && (forall g :: g in handles && g != h ==> Placed(g)) && Sandboxes()
    }

    // How a connection's clean-up went, which under open_basedir stops its log writers.
    method Cleanup(h: Handle, openBasedir: string, stopped: bool)
      requires Valid() && h in handles
      modifies known`refused
      ensures Valid()
    {
      if h.instance != null && h.conn && openBasedir != "" && !stopped {
        h.instance.Refuse();
      }
    }

    // Closes a connection; the last one closes the database.
    method Close(h: Handle, openBasedir: string, stopped: bool)
      requires Valid() && h in handles
      modifies `instances, `handles, h, known`handles, known`refused
      ensures Valid() && handles == old(handles) - {h} && h.instance == null && !h.db && !h.conn
      ensures old(h.instance) == null ==> instances == old(instances)
      ensures old(h.instance) != null ==>
                instances == if old(h.instance.handles) == [h] then Without<Instance>(old(instances), old(h.instance)) else old(instances)
      ensures old(h.instance) != null ==> old(h.instance).handles == Without<Handle>(old(h.instance.handles), h)
      ensures forall i :: i in known && i != old(h.instance) ==> i.handles == old(i.handles)
    {
      Cleanup(h, openBasedir, stopped);
      if h.instance != null {
        Leave(h, h.instance);
      } else {
        handles := handles - {h};
      }
    }

    // Takes a connection, and the database if it was the last, off the lists.
    method Leave(h: Handle, instance: Instance)
      requires Valid() && h in handles && h.instance == instance
      modifies `instances, `handles, h, instance`handles
      ensures Valid() && handles == old(handles) - {h} && h.instance == null && !h.db && !h.conn
      ensures instances == if old(instance.handles) == [h] then Without<Instance>(old(instances), instance) else old(instances)
      ensures instance.handles == Without<Handle>(old(instance.handles), h)
    {
      h.conn, h.db := false, false;
      Unlist(h, instance);
      if instance.handles == [] {
        Retire(instance);
      }
    }

    // The lists are well, but that instance may have nobody left who uses it.
    ghost predicate Emptied(instance: Instance)
      reads `instances, `handles, `known, handles, known`handles, known`file
    {
      && Linked() && instance in instances && (forall g :: g in handles ==> Placed(g))
      && forall i :: i in known && i != instance ==> InUse(i)
    }

    method Unlist(h: Handle, instance: Instance)
      requires Listing() && (forall g :: g in handles && g != h ==> Placed(g))
      requires h in handles && h.instance == instance && instance in instances && h in instance.handles
      modifies `handles, h`instance, instance`handles
      ensures Emptied(instance) && handles == old(handles) - {h} && h.instance == null
      ensures instance.handles == Without<Handle>(old(instance.handles), h)
      ensures instance.handles == [] <==> old(instance.handles) == [h]
    {
      WithoutMeans<Handle>(instance.handles, h);
      var others := Unlink<Handle>(instance.handles, h);
      assert forall g :: g in others <==> g in instance.handles && g != h;
      instance.handles, h.instance := others, null;
      handles := handles - {h};
    }

    method Retire(instance: Instance)
      requires Emptied(instance) && instance.handles == []
      modifies `instances
      ensures Listing() && (forall g :: g in handles ==> Placed(g)) && instances == Without<Instance>(old(instances), instance)
    {
      WithoutMeans<Instance>(instances, instance);
      var rest := Unlink<Instance>(instances, instance);
      assert forall i :: i in rest <==> i in instances && i != instance;
      instances := rest;
    }

    // SQL may enter only under the directory the database is sandboxed for.
    method Enter(h: Handle, openBasedir: string, profile: Profile) returns (allowed: bool)
      requires Valid() && h in handles
      modifies `log, known`disabled, known`refused, known`basedir
      ensures Valid() && (h.instance == null ==> !allowed && log == old(log))
      ensures h.instance != null ==> log == old(log) + [Visit(h.instance, openBasedir, allowed, h.instance.refused)]
      ensures h.instance != null ==>
                allowed == old(!h.instance.refused && (openBasedir == "" ||
                               if h.instance.disabled then h.instance.basedir == Some(openBasedir) else profile == Applied))
      ensures allowed && openBasedir != "" ==> h.instance.disabled && h.instance.basedir == Some(openBasedir)
      ensures forall i :: i in known && i != h.instance ==>
                i.disabled == old(i.disabled) && i.refused == old(i.refused) && i.basedir == old(i.basedir)
    {
      if h.instance == null {
        return false;
      }
      allowed := h.instance.EnforceSandbox(openBasedir, profile);
      ghost var visit := Visit(h.instance, openBasedir, allowed, h.instance.refused);
      forall v | v in log
        ensures RecordedAt(v) && Follows(v, visit)
      {
        assert old(RecordedAt(v));
      }
      log := log + [visit];
    }
  }

  // A step of some request; connections are counted from the first ever made.
  datatype Step =
    | Connecting
    | Opening(k: nat, path: Option<Path>, attempt: Attempt)
    | Entering(k: nat, openBasedir: string, profile: Profile)
    | Closing(k: nat, openBasedir: string, stopped: bool)

  // Whatever connections do, in any order: no path is open twice, each connection
  // uses at most the one database it is listed at, a database is open while it is
  // used, what was refused stays refused, and all that enter one database under an
  // open_basedir enter under the same.
  method Run(registry: Registry, steps: seq<Step>) returns (made: seq<Handle?>)
    requires registry.Valid() && registry.known == {} && registry.handles == {}
    modifies registry
    ensures registry.Valid() && Alive(registry, made) && |made| == Connections(steps)
    ensures Consistent(registry.log)
  {
    made := [];
    for n := 0 to |steps|
      invariant registry.Valid() && Alive(registry, made) && fresh(registry.known) && fresh(registry.handles)
      invariant |made| == Connections(steps[..n])
    {
      assert steps[..n + 1] == steps[..n] + [steps[n]];
      match steps[n]
      case Connecting =>
        var h := registry.Connect();
        made := made + [h];
      case Opening(k, path, attempt) =>
        if k < |made| && made[k] != null && made[k].instance == null {
          var error := registry.Open(made[k], path, attempt);
        }
      case Entering(k, openBasedir, profile) =>
        if k < |made| && made[k] != null {
          var allowed := registry.Enter(made[k], openBasedir, profile);
        }
      case Closing(k, openBasedir, stopped) =>
        if k < |made| && made[k] != null {
          registry.Close(made[k], openBasedir, stopped);
          made := made[k := null];
        }
    }
    assert steps[..|steps|] == steps;
  }

  function Connections(steps: seq<Step>): nat
  {
    if steps == [] then 0 else Connections(steps[..|steps| - 1]) + if steps[|steps| - 1].Connecting? then 1 else 0
  }

  // The connections still there, each once.
  ghost predicate Alive(registry: Registry, made: seq<Handle?>)
    reads registry`handles
  {
    && (forall k :: 0 <= k < |made| && made[k] != null ==> made[k] in registry.handles)
    && (forall k, l :: 0 <= k < l < |made| && made[k] != null ==> made[k] != made[l])
  }

  // One file open under two paths: nothing was found under b before it was opened,
  // and then it is a hard link to a. A caller can rule this out by identifying the
  // file before the call.
  method LinkedMeanwhile(file: File) returns (registry: Registry)
    ensures registry.Valid() && |registry.instances| == 2 && !FilesDiffer(registry.instances)
  {
    registry := new Registry(path => path);
    var h := registry.Connect();
    var error := registry.Open(h, Some("a"), Attempt(true, Some(file), true, true, true, Some(file)));
    assert error == None && registry.instances == [h.instance];
    assert FilesDiffer(registry.instances) && HasFile(h.instance, Some(file));
    var g := registry.Connect();
    assert Lookup(registry.fold, registry.instances[1..], "b", None) == Missing;
    error := registry.Open(g, Some("b"), Attempt(true, None, true, true, true, Some(file)));
    assert error == None && h.instance in registry.instances;
  }

  // Of two visits to one database: a refusal is for good, and all that come under
  // some open_basedir come under the same.
  ghost predicate Follows(v: Visit, w: Visit)
  {
    v.instance == w.instance ==>
      && (v.refused ==> w.refused && !w.allowed)
      && (v.allowed && v.openBasedir != "" && w.allowed && w.openBasedir != "" ==> v.openBasedir == w.openBasedir)
  }

  ghost predicate Consistent(log: seq<Visit>)
  {
    forall k, l :: 0 <= k < l < |log| ==> Follows(log[k], log[l])
  }
}
