/**
 Backup-protected schema migration of the vault (desktop/backend_main.py). The vault directory
 is a class with one field for each kind of file; every file operation is one step that the
 fault script of the launch may let through, fail, or replace by a kill of the process. The
 ghost history `committed` holds every write ever served. Kills keep the order of the file
 operations; SHA-256 is taken as injective, so a digest is the content itself.
 */
module VaultMigration {
  import opened Wrappers

  type Bytes = seq<nat>

  datatype Suffix = Journal | Wal | Shm

  type Sidecars = map<Suffix, Bytes>

  /** What SQLite shows of a database: its user rows, the revision heads, and whether there is
      any user table; or nothing at all. */
  datatype View = Corrupt | View(rows: seq<string>, heads: set<string>, tables: bool)

  const EMPTY_VIEW := View([], {}, false)

  /** SQLite as far as the migration depends on it. */
  datatype Sqlite = Sqlite(open: (Bytes, Sidecars) -> View, copy: View -> Bytes) {
    /** A file of length zero is the empty vault, and a copy shows what was copied. */
    ghost predicate Lawful() {
      && (forall s :: open([], s) == EMPTY_VIEW)
      && (forall v: View :: v.View? ==> open(copy(v), map[]) == v)
    }
  }

  datatype Fault = Passes | Fails | Kills

  datatype Outcome = Done | Raised | Killed

  /** `digest` stands for the SHA-256 of the backup. */
  datatype Marker = ForNew | ForBackup(name: nat, digest: Bytes)

  datatype Upgrade = Upgrade(main: Bytes, sidecars: Sidecars, raised: bool)

  /** One start of the application: the packaged head, the revisions that it can upgrade, the
      rank of its backup name in the order of names, what its upgrade does and leaves behind when
      it is killed, and the writes that it serves. */
  datatype Launch = Launch(
    head: string,
    supports: set<string> -> bool,
    backupName: nat,
    partialBackup: Bytes,
    upgrade: (Bytes, Sidecars) -> Upgrade,
    debris: (Bytes, Sidecars) -> Upgrade,
    commit: (Bytes, Sidecars, string) -> (Bytes, Sidecars),
    writes: seq<string>,
    faults: seq<Fault>)
  {
    /** An upgrade that reports success and leaves a readable database at the head keeps the
        user rows; a commit appends one row. Nothing is asked of any other upgrade. */
    ghost predicate Lawful(sqlite: Sqlite) {
      && (forall m, s {:trigger upgrade(m, s)} :: sqlite.open(m, s).View? ==>
            var u := upgrade(m, s);
            var after := sqlite.open(u.main, u.sidecars);
            !u.raised && after.View? && after.heads == {head} ==> after.rows == sqlite.open(m, s).rows)
      && (forall m, s, w {:trigger commit(m, s, w)} :: sqlite.open(m, s).View? ==>
            var (m', s') := commit(m, s, w);
            sqlite.open(m', s') == sqlite.open(m, s).(rows := sqlite.open(m, s).rows + [w]))
    }

    /** Nothing fails, whatever this launch is started on. */
    ghost predicate Smooth(sqlite: Sqlite) {
      AllPass(faults) && Succeeds(sqlite)
    }

    ghost predicate Succeeds(sqlite: Sqlite) {
      forall m, s {:trigger upgrade(m, s)} :: sqlite.open(m, s).View? ==>
        var u := upgrade(m, s);
        !u.raised && sqlite.open(u.main, u.sidecars).View? && sqlite.open(u.main, u.sidecars).heads == {head}
    }

    predicate AcceptsHead(h: string) {
      h == head || supports({h})
    }

    /** A vault at the head, at a supported ancestor of it, or without any table. */
    predicate Accepts(v: View) {
      v.View? && (v.heads == {head} || (if v.heads != {} then supports(v.heads) else !v.tables))
    }
  }

  const KEPT_BACKUPS: nat := 5

  /** Names in falling order. */
  function NewestFirst(names: set<nat>): (order: seq<nat>)
    ensures forall n :: n in order <==> n in names
    ensures forall i, j :: 0 <= i < j < |order| ==> order[i] > order[j]
  {
    if names == {} then [] else [Greatest(names)] + NewestFirst(names - {Greatest(names)})
  }

  function Greatest(names: set<nat>): (n: nat)
    requires names != {}
    ensures n in names && forall m :: m in names ==> m <= n
  {
    GreatestExists(names);
    var n :| n in names && forall m :: m in names ==> m <= n;
    n
  }

  lemma GreatestExists(names: set<nat>)
    requires names != {}
    ensures exists n :: n in names && forall m :: m in names ==> m <= n
  {
    var n :| n in names;
    var rest := names - {n};
    if rest == {} {
      assert names == {n};
    } else {
      GreatestExists(rest);
      var top :| top in rest && forall m :: m in rest ==> m <= top;
      var g := if top < n then n else top;
      assert g in names && forall m :: m in names ==> m == n || m in rest;
    }
  }

  /** The first `count` names behind the newest five. */
  function Expired(names: set<nat>, count: nat): seq<nat> {
    var order := NewestFirst(names);
    if KEPT_BACKUPS + count <= |order| then order[KEPT_BACKUPS..KEPT_BACKUPS + count]
    else if KEPT_BACKUPS <= |order| then order[KEPT_BACKUPS..]
    else []
  }

  lemma ExpiredGrows(names: set<nat>, count: nat)
    requires KEPT_BACKUPS + count < |NewestFirst(names)|
    ensures Expired(names, count + 1) == Expired(names, count) + [NewestFirst(names)[KEPT_BACKUPS + count]]
  {
    hide NewestFirst;
  }

  lemma WithoutNone(files: map<nat, Bytes>)
    ensures Without(files, Expired(files.Keys, 0)) == files
  {
  }

  function Without(files: map<nat, Bytes>, names: seq<nat>): map<nat, Bytes> {
    map n | n in files && n !in names :: files[n]
  }

  lemma WithoutOneMore(files: map<nat, Bytes>, names: seq<nat>, n: nat)
    ensures Without(files, names) - {n} == Without(files, names + [n])
  {
    assert forall m :: m in names + [n] <==> m in names || m == n;
  }

  /** Wherever pruning stops, the newest five backups are still there. */
  lemma NewestBackupsSurvive(files: map<nat, Bytes>, count: nat, i: nat)
    requires i < KEPT_BACKUPS && i < |NewestFirst(files.Keys)|
    ensures NewestFirst(files.Keys)[i] in Without(files, Expired(files.Keys, count))
  {
    assert NewestFirst(files.Keys)[i] in NewestFirst(files.Keys);
  }

  /** The names behind which `n` comes when the newest are listed first. */
  function Newer(names: set<nat>, n: nat): set<nat> {
    set m | m in names && m > n
  }

  lemma SubsetCardinality<T>(a: set<T>, b: set<T>)
    requires a <= b
    ensures |a| <= |b|
  {
    if a != {} {
      var x :| x in a;
      SubsetCardinality(a - {x}, b - {x});
    }
  }

  lemma NotNewerThanItself(names: set<nat>, n: nat)
    ensures Newer(names + {n}, n) == Newer(names, n)
  {
  }

  lemma FewerNewer(a: set<nat>, b: set<nat>, n: nat)
    requires a <= b
    ensures |Newer(a, n)| <= |Newer(b, n)|
  {
    SubsetCardinality(Newer(a, n), Newer(b, n));
  }

  lemma NewerThanTop(names: set<nat>)
    requires names != {}
    ensures Newer(names, Greatest(names)) == {}
  {
  }

  lemma NewerBelowTop(names: set<nat>, n: nat)
    requires n in names && n != Greatest(names)
    ensures |Newer(names, n)| == |Newer(names - {Greatest(names)}, n)| + 1
  {
    var g := Greatest(names);
    assert g > n;
    assert Newer(names, n) == Newer(names - {g}, n) + {g};
  }

  /** The place of a name in the falling order is the number of names newer than it. */
  lemma {:induction false} PlaceInOrder(names: set<nat>, i: nat)
    requires i < |NewestFirst(names)|
    ensures |Newer(names, NewestFirst(names)[i])| == i
  {
    hide Newer;
    var g := Greatest(names);
    if i == 0 {
      NewerThanTop(names);
    } else {
      var n := NewestFirst(names - {g})[i - 1];
      assert n in NewestFirst(names - {g});
      PlaceInOrder(names - {g}, i - 1);
      NewerBelowTop(names, n);
    }
  }

  lemma FirstFew(names: set<nat>, n: nat, count: nat)
    requires n in names
    ensures |Newer(names, n)| < 5 ==> n !in Expired(names, count)
    ensures |Newer(names, n)| >= 5 && 5 + count >= |NewestFirst(names)| ==> n in Expired(names, count)
    ensures |Newer(names, n)| < |NewestFirst(names)| && NewestFirst(names)[|Newer(names, n)|] == n
  {
    hide NewestFirst, Newer;
    var order := NewestFirst(names);
    assert n in order;
    var i :| 0 <= i < |order| && order[i] == n;
    PlaceInOrder(names, i);
    if i < 5 {
      assert forall j :: 5 <= j < |order| ==> order[j] < n;
    } else if 5 + count >= |order| {
      assert n == order[5..][i - 5];
      assert order[5..] == Expired(names, count);
    }
  }

  /** What pruning that removed `count` names leaves: every name that is behind fewer than five
      newer ones, and nothing else once it is through. */
  lemma PruningKeepsFive(files: map<nat, Bytes>, count: nat)
    ensures var left := Without(files, Expired(files.Keys, count));
      && (forall n :: n in left ==> n in files && left[n] == files[n])
      && (forall n :: n in files && |Newer(files.Keys, n)| < 5 ==> n in left)
      && (5 + count >= |NewestFirst(files.Keys)| ==>
            |left| <= 5 && forall n :: n in left ==> |Newer(files.Keys, n)| < 5)
  {
    hide NewestFirst, Newer, Expired;
    var order, left := NewestFirst(files.Keys), Without(files, Expired(files.Keys, count));
    var first := if |order| < 5 then order else order[..5];
    forall n | n in files
      ensures |Newer(files.Keys, n)| < 5 ==> n in left && n in first
      ensures 5 + count >= |order| && n in left ==> |Newer(files.Keys, n)| < 5
    {
      FirstFew(files.Keys, n, count);
      if |Newer(files.Keys, n)| < 5 {
        assert first[|Newer(files.Keys, n)|] == n;
      }
    }
    if 5 + count >= |order| {
      FewNames(left.Keys, first);
    }
  }

  lemma {:induction false} FewNames(names: set<nat>, order: seq<nat>)
    requires forall n :: n in names ==> n in order
    ensures |names| <= |order|
  {
    if order == [] {
      assert names == {};
    } else {
      assert order == [order[0]] + order[1..];
      FewNames(names - {order[0]}, order[1..]);
    }
  }

  /** When the clock has gone back, the backup of an upgrade can be behind five others, and is then
      among those that the very call that made it unlinks. */
  lemma OwnBackupExpires(others: set<nat>, own: nat)
    requires |others| >= 5 && forall n :: n in others ==> n > own
    ensures |Newer(others, own)| >= 5
    ensures own in Expired(others + {own}, |others| - 4) && 5 + (|others| - 4) >= |NewestFirst(others + {own})|
  {
    hide NewestFirst, Expired;
    assert Newer(others, own) == others;
    NotNewerThanItself(others, own);
    NewestFirstCounts(others + {own});
    FirstFew(others + {own}, own, |others| - 4);
  }

  lemma OwnBackupCanExpire()
    ensures 0 in Expired({1, 2, 3, 4, 5} + {0}, 1)
  {
    hide NewestFirst, Expired, Newer;
    var others: set<nat> := {1, 2, 3, 4, 5};
    assert |others| == 5;
    OwnBackupExpires(others, 0);
  }

  lemma {:induction false} NewestFirstCounts(names: set<nat>)
    ensures |NewestFirst(names)| == |names|
  {
    if names != {} {
      NewestFirstCounts(names - {Greatest(names)});
    }
  }

  predicate AllPass(faults: seq<Fault>) {
    forall i :: 0 <= i < |faults| ==> faults[i].Passes?
  }

  function Names(launches: seq<Launch>): set<nat> {
    set i | 0 <= i < |launches| :: launches[i].backupName
  }

  lemma NamesOf(launches: seq<Launch>, i: nat)
    requires i < |launches|
    ensures Names(launches[..i + 1]) == Names(launches[..i]) + {launches[i].backupName}
    ensures Names(launches[..i + 1]) <= Names(launches)
  {
    assert launches[..i + 1] == launches[..i] + [launches[i]];
  }

  /** The writes of those launches that got as far as serving. */
  function Served(launches: seq<Launch>, serving: seq<bool>): seq<string>
    requires |launches| == |serving|
  {
    if launches == [] then [] else
      var last := |launches| - 1;
      Served(launches[..last], serving[..last]) + (if serving[last] then launches[last].writes else [])
  }

  class Vault {
    const sqlite: Sqlite
    var main: Option<Bytes>
    var sidecars: Sidecars
    var backups: map<nat, Bytes>
    var marker: Option<Marker>
    var faults: seq<Fault>
    ghost var committed: seq<string>
    ghost var image: View

    constructor (sqlite: Sqlite)
      requires sqlite.Lawful()
      ensures this.sqlite == sqlite && Recoverable() && committed == []
    {
      this.sqlite := sqlite;
      main, sidecars, backups, marker, faults := None, map[], map[], None, [];
      committed, image := [], EMPTY_VIEW;
    }

    /** The database as SQLite opens it now. */
    function Current(): View
      reads this
    {
      sqlite.open(if main.Some? then main.value else [], sidecars)
    }

    /** The database is what it was when the last migration or write finished, or a marker says
        how to get it back; either way no served write is lost. */
    ghost predicate Recoverable()
      reads this
    {
      && sqlite.Lawful()
      && image.View? && image.rows == committed
      && match marker
         case None => Current() == image
         case Some(ForNew) => image == EMPTY_VIEW
         case Some(ForBackup(name, digest)) =>
           (name in backups && backups[name] == digest && sqlite.open(digest, map[]) == image)
    }

    /** One file operation meets the next fault of the script. */
    method Attempt() returns (o: Outcome)
      modifies this`faults
      ensures old(faults) == [] ==> o.Done? && faults == []
      ensures old(faults) != [] ==>
        && faults == old(faults)[1..]
        && match old(faults)[0] case Passes => o.Done? case Fails => o.Raised? case Kills => o.Killed?
      ensures AllPass(old(faults)) ==> o.Done? && AllPass(faults)
    {
      if faults == [] {
        return Done;
      }
      match faults[0] {
        case Passes => o := Done;
        case Fails => o := Raised;
        case Kills => o := Killed;
      }
      faults := faults[1..];
    }

    /** `_remove_sqlite_sidecars`. */
    method RemoveSidecars() returns (o: Outcome)
      modifies this`sidecars, this`faults
      ensures o.Done? ==> sidecars == map[]
      ensures old(sidecars) == map[] ==> sidecars == map[]
      ensures AllPass(old(faults)) ==> o.Done? && AllPass(faults)
    {
      o := Attempt();
      if !o.Done? { return; }
      sidecars := sidecars - {Journal};
      o := Attempt();
      if !o.Done? { return; }
      sidecars := sidecars - {Wal};
      o := Attempt();
      if !o.Done? { return; }
      sidecars := sidecars - {Shm};
      assert forall suffix :: suffix in sidecars ==> suffix.Journal? || suffix.Wal? || suffix.Shm?;
    }

    /** `_restore_database`: copy beside the database, drop every journal, replace, drop again. */
    method Restore(name: nat) returns (o: Outcome)
      requires sqlite.Lawful() && name in backups
      modifies this`main, this`sidecars, this`faults
      ensures o.Done? ==> sidecars == map[] && Current() == sqlite.open(backups[name], map[])
      ensures AllPass(old(faults)) && sqlite.open(backups[name], map[]).View? ==> o.Done? && AllPass(faults)
    {
      var source := sqlite.open(backups[name], map[]);
      o := Attempt();                             // reserve the temporary file
      if !o.Done? { return; }
      o := RestoreReserved(source);
      if o.Killed? { return; }
      var unlinked := Attempt();                  // finally: remove the temporary file
      if !unlinked.Done? {
        o := unlinked;
      }
    }

    method RestoreReserved(source: View) returns (o: Outcome)
      requires sqlite.Lawful()
      modifies this`main, this`sidecars, this`faults
      ensures o.Done? ==> sidecars == map[] && source.View? && Current() == source
      ensures AllPass(old(faults)) && source.View? ==> o.Done? && AllPass(faults)
    {
      if source.Corrupt? { return Raised; }
      o := Attempt();                             // copy and check the copy
      if !o.Done? { return; }
      var restored := sqlite.copy(source);
      o := Attempt();                             // flush the copy
      if !o.Done? { return; }
      o := RemoveSidecars();
      if !o.Done? { return; }
      o := Attempt();                             // replace the database
      if !o.Done? { return; }
      main := Some(restored);
      o := RemoveSidecars();
      if !o.Done? { return; }
      o := Attempt();                             // flush the directory
      if !o.Done? { return; }
      o := Attempt();                             // open and check the result
    }

    /** Drops a database that was never initialized, with its journals. */
    method Discard() returns (o: Outcome)
      requires sqlite.Lawful()
      modifies this`main, this`sidecars, this`faults
      ensures o.Done? ==> main.None? && sidecars == map[]
      ensures AllPass(old(faults)) ==> o.Done? && AllPass(faults)
    {
      o := RemoveSidecars();
      if !o.Done? { return; }
      o := Attempt();
      if !o.Done? { return; }
      main := None;
      o := RemoveSidecars();
    }

    /** `_clear_migration_recovery_marker`: the caller has put the database right. */
    method ClearMarker() returns (o: Outcome)
      modifies this`marker, this`faults
      ensures o.Done? ==> marker.None?
      ensures marker == old(marker) || marker.None?
      ensures AllPass(old(faults)) ==> o.Done? && AllPass(faults)
    {
      o := Attempt();
      if !o.Done? { return; }
      marker := None;
      o := Attempt();                             // flush the directory
    }

    /** `_recover_interrupted_migration`. Killed or failed, it leaves the same image to recover;
        finished, it has put back exactly that image, without a stale journal. */
    method Recover() returns (o: Outcome)
      requires Recoverable()
      modifies this`main, this`sidecars, this`marker, this`faults
      ensures Recoverable()
      ensures o.Done? ==> marker.None? && Current() == image
      ensures old(marker).Some? && marker.None? ==> sidecars == map[]
      ensures old(marker).None? ==> main == old(main) && sidecars == old(sidecars)
      ensures AllPass(old(faults)) ==> o.Done? && AllPass(faults)
    {
      if marker.None? { return Done; }
      o := Attempt();                             // read the marker
      if !o.Done? { return; }
      match marker.value {
        case ForNew =>
          o := Discard();
        case ForBackup(name, digest) =>
          if name !in backups || backups[name] != digest { return Raised; }
          o := Restore(name);
      }
      if !o.Done? { return; }
      o := ClearMarker();
    }

    /** `_create_private_posix_database`: reserves an empty file where there is none. */
    method EnsureFile() returns (o: Outcome)
      requires Recoverable()
      modifies this`main, this`faults
      ensures Recoverable() && Current() == old(Current())
      ensures o.Done? ==> main.Some?
      ensures old(main).Some? ==> main == old(main)
      ensures AllPass(old(faults)) ==> o.Done? && AllPass(faults)
    {
      o := Attempt();
      if !o.Done? { return; }
      if main.None? { main := Some([]); }
    }

    /** `_backup_database`. A kill can leave part of a backup, to which no marker points. */
    method Backup(l: Launch) returns (o: Outcome)
      requires sqlite.Lawful()
      modifies this`backups, this`faults
      ensures forall n :: n in old(backups) ==> n in backups && backups[n] == old(backups)[n]
      ensures backups.Keys <= old(backups).Keys + {l.backupName}
      ensures o.Done? ==>
        (l.backupName !in old(backups) && l.backupName in backups && Current().View? && sqlite.open(backups[l.backupName], map[]) == Current())
      ensures AllPass(old(faults)) && l.backupName !in old(backups) && Current().View? ==> o.Done?
      ensures AllPass(old(faults)) ==> AllPass(faults) && (o.Done? || (o.Raised? && backups == old(backups)))
    {
      o := Attempt();                             // reserve, failing if the name is taken
      if !o.Done? { return; }
      if l.backupName in backups { return Raised; }
      backups := backups[l.backupName := l.partialBackup];
      o := Attempt();                             // copy and check both ends
      if o.Killed? { return; }
      if o.Done? && Current().View? {
        backups := backups[l.backupName := sqlite.copy(Current())];
        o := Attempt();                           // flush the file and the directory
        if !o.Raised? { return; }
      }
      var unlinked := Attempt();                  // except: remove the backup
      if unlinked.Done? {
        backups := backups - {l.backupName};
        o := Raised;
      } else {
        o := unlinked;
      }
    }

    /** `_write_migration_recovery_marker`: written aside, then moved in place in one step. */
    method WriteMarker(backup: Option<nat>) returns (o: Outcome)
      requires Recoverable()
      requires backup.None? ==> image == EMPTY_VIEW
      requires backup.Some? ==> backup.value in backups && sqlite.open(backups[backup.value], map[]) == image
      modifies this`marker, this`faults
      ensures Recoverable()
      ensures o.Done? ==> marker == Some(if backup.None? then ForNew else ForBackup(backup.value, backups[backup.value]))
      ensures AllPass(old(faults)) && old(marker).None? ==> o.Done? && AllPass(faults)
    {
      if marker.Some? { return Raised; }
      o := Attempt();                             // digest of the backup
      if !o.Done? { return; }
      o := Attempt();                             // write the temporary file
      if !o.Done? { return; }
      o := Attempt();                             // move it in place
      if o.Killed? { return; }
      if o.Done? {
        marker := Some(if backup.None? then ForNew else ForBackup(backup.value, backups[backup.value]));
        o := Attempt();                           // flush the directory
        if o.Killed? { return; }
      }
      var unlinked := Attempt();                  // finally: remove the temporary file
      if !unlinked.Done? {
        o := unlinked;
      }
    }

    /** `_prune_backups`: unlinks all but the newest five, the newest of them first; `removed` of
        them are gone when it ends. Wherever it ends, a backup behind fewer than five newer ones is
        still there as it was; let through, it leaves those and no other. */
    method Prune() returns (o: Outcome, removed: nat)
      modifies this`backups, this`faults
      ensures backups == Without(old(backups), Expired(old(backups).Keys, removed))
      ensures o.Done? ==> KEPT_BACKUPS + removed >= |NewestFirst(old(backups).Keys)|
      ensures forall n :: n in backups ==> n in old(backups) && backups[n] == old(backups)[n]
      ensures forall n :: n in old(backups) && |Newer(old(backups).Keys, n)| < 5 ==> n in backups
      ensures o.Done? ==> |backups| <= 5 && forall n :: n in backups ==> |Newer(old(backups).Keys, n)| < 5
      ensures AllPass(old(faults)) ==> o.Done?
    {
      hide NewestFirst, Expired, Without, AllPass, Newer;
      ghost var names := backups.Keys;
      ghost var before := backups;
      var order := NewestFirst(backups.Keys);
      o, removed := Done, 0;
      WithoutNone(before);
      while KEPT_BACKUPS + removed < |order|
        invariant o.Done?
        invariant backups == Without(before, Expired(names, removed))
        invariant AllPass(old(faults)) ==> AllPass(faults)
        decreases |order| - removed
      {
        o := Attempt();
        if !o.Done? {
          PruningKeepsFive(before, removed);
          return;
        }
        ExpiredGrows(names, removed);
        WithoutOneMore(before, Expired(names, removed), order[KEPT_BACKUPS + removed]);
        backups := backups - {order[KEPT_BACKUPS + removed]};
        removed := removed + 1;
      }
      PruningKeepsFive(before, removed);
    }

    /** The upgrade itself, with the checks that follow it. */
    method RunUpgrade(l: Launch) returns (o: Outcome)
      requires l.Lawful(sqlite) && main.Some?
      modifies this`main, this`sidecars, this`faults
      ensures o.Done? && old(Current()).View? ==>
        Current().View? && Current().rows == old(Current()).rows && Current().heads == {l.head}
      ensures AllPass(old(faults)) && old(Current()).View? && l.Succeeds(sqlite) ==> o.Done?
      ensures AllPass(old(faults)) ==> AllPass(faults) && !o.Killed?
    {
      o := Attempt();
      var u := if o.Killed? then l.debris(main.value, sidecars) else l.upgrade(main.value, sidecars);
      main, sidecars := Some(u.main), u.sidecars;
      if o.Done? && u.raised { return Raised; }
      if !o.Done? { return; }
      o := Attempt();                             // read the revision, check integrity
      if !o.Done? { return; }
      if Current().Corrupt? || Current().heads != {l.head} { return Raised; }
    }

    /** The `except` branch of `migrate_database`. */
    method RollBack(backup: Option<nat>) returns (o: Outcome)
      requires Journaled(backup)
      modifies this`main, this`sidecars, this`marker, this`faults
      ensures Recoverable() && !o.Done?
      ensures AllPass(old(faults)) ==> o.Raised? && marker.None? && Current() == image && sidecars == map[]
    {
      if backup.Some? {
        o := Restore(backup.value);
      } else {
        o := Discard();
      }
      if !o.Done? { return; }
      o := ClearMarker();
      if o.Done? { o := Raised; }
    }

    /** The marker stands for this backup, so that the database itself may be anything. */
    ghost predicate Journaled(backup: Option<nat>)
      reads this
    {
      && sqlite.Lawful()
      && image.View? && image.rows == committed
      && (backup.None? ==> marker == Some(ForNew) && image == EMPTY_VIEW)
      && (backup.Some? ==>
            && backup.value in backups
            && marker == Some(ForBackup(backup.value, backups[backup.value]))
            && sqlite.open(backups[backup.value], map[]) == image)
    }

    /** Whether the database file holds something to back up: a view that is not the empty one, or
        a file that no interrupted migration has left there and that is not of length zero. */
    static predicate OldContent(image: View, marker: Option<Marker>, main: Option<Bytes>) {
      image != EMPTY_VIEW || (marker.None? && main.Some? && main.value != [])
    }

    /** `migrate_database` up to the point where the upgrade may begin. `proceed` says that it may. */
    method Prepare(l: Launch) returns (o: Outcome, proceed: bool, backup: Option<nat>)
      requires Recoverable()
      modifies this`main, this`sidecars, this`marker, this`backups, this`faults
      ensures Recoverable()
      ensures o.Done? && !proceed ==> marker.None? && Current() == image && image.heads == {l.head}
      ensures o.Done? && proceed ==> Journaled(backup) && main.Some? && Current() == image && image.heads != {l.head}
      ensures forall n :: n in old(backups) ==> n in backups && backups[n] == old(backups)[n]
      ensures backups.Keys <= old(backups).Keys + {l.backupName}
      ensures o.Done? && !proceed ==> backup.None? && backups == old(backups)
      ensures o.Done? && backup.Some? ==> backup.value == l.backupName && l.backupName !in old(backups)
      ensures o.Done? && proceed && OldContent(old(image), old(marker), old(main)) ==> backup.Some?
      ensures o.Done? ==> l.Accepts(image)
      ensures AllPass(old(faults)) && l.Accepts(image) && l.backupName !in old(backups) ==> o.Done?
      ensures AllPass(old(faults)) ==> AllPass(faults) && (o.Done? || (o.Raised? && marker.None? && backups == old(backups)))
    {
      proceed, backup := false, None;
      o := EnsureFile();
      if !o.Done? { return; }
      o := Recover();
      if !o.Done? { return; }
      o := EnsureFile();
      if !o.Done? { return; }
      o := Attempt();                             // read the revision
      if !o.Done? { return; }
      var hadDatabase := main.value != [];
      var heads := if hadDatabase then Current().heads else {};
      if heads == {l.head} { return; }
      if heads != {} {
        if !l.supports(heads) { return Raised, false, None; }
      } else if hadDatabase && Current().tables {
        return Raised, false, None;
      }
      if hadDatabase {
        o := Backup(l);
        if !o.Done? { return; }
        backup := Some(l.backupName);
      }
      o := WriteMarker(backup);
      proceed := o.Done?;
    }

    /** `migrate_database`. Returned normally, there is no marker, the schema is at the head and
        the rows are all that was ever served. Failed or killed, the same is still recoverable.
        However it ends, no backup behind fewer than five newer ones is lost; an upgrade of a
        vault with anything in it leaves a backup that opens to what there was, and at most five. */
    method Migrate(l: Launch) returns (o: Outcome, backup: Option<nat>)
      requires Recoverable() && l.Lawful(sqlite)
      modifies this`main, this`sidecars, this`marker, this`backups, this`faults, this`image
      ensures Recoverable()
      ensures image == old(image) || (marker.None? && image.rows == old(image).rows && image.heads == {l.head})
      ensures o.Done? ==> marker.None? && Current() == image && image.heads == {l.head}
      ensures o.Done? ==> l.Accepts(old(image))
      ensures AllPass(old(faults)) && l.Accepts(old(image)) && l.Succeeds(sqlite) && l.backupName !in old(backups)
        ==> o.Done?
      ensures AllPass(old(faults)) && !o.Done? ==> o.Raised? && marker.None? && Current() == image == old(image)
      ensures forall n ::
        n in old(backups) && |Newer(old(backups).Keys + {l.backupName}, n)| < 5 ==> n in backups && backups[n] == old(backups)[n]
      ensures backups.Keys <= old(backups).Keys + {l.backupName}
      ensures o.Done? && old(image).heads == {l.head} ==> backup.None? && backups == old(backups)
      ensures o.Done? && old(image).heads != {l.head} ==> |backups| <= 5
      ensures o.Done? && old(image).heads != {l.head} && OldContent(old(image), old(marker), old(main))
        ==> backup == Some(l.backupName)
      ensures o.Done? && backup.Some? ==> backup.value == l.backupName && l.backupName !in old(backups)
      ensures o.Done? && backup.Some? ==>
        && (l.backupName in backups <==> |Newer(old(backups).Keys, l.backupName)| < 5)
        && (l.backupName in backups ==> sqlite.open(backups[l.backupName], map[]) == old(image))
    {
      hide Launch.Lawful, Launch.Succeeds, Sqlite.Lawful, AllPass, NewestFirst, Expired, Without, Newer;
      var proceed;
      o, proceed, backup := Prepare(l);
      if !o.Done? || !proceed { return; }
      o := RunUpgrade(l);
      if o.Killed? { return; }
      if o.Raised? {
        o := RollBack(backup);
        return;
      }
      ghost var migrated := Current();
      o := ClearMarker();
      if marker.None? { image := migrated; }
      if !o.Done? { return; }
      o := PruneAfter(l, old(backups).Keys);
    }

    /** The pruning that ends a migration which began with the backups `names`. */
    method PruneAfter(l: Launch, ghost names: set<nat>) returns (o: Outcome)
      requires backups.Keys <= names + {l.backupName}
      modifies this`backups, this`faults
      ensures forall n :: n in backups ==> n in old(backups) && backups[n] == old(backups)[n]
      ensures forall n :: n in old(backups) && |Newer(names + {l.backupName}, n)| < 5 ==> n in backups
      ensures l.backupName in old(backups) && |Newer(names, l.backupName)| < 5 ==> l.backupName in backups
      ensures o.Done? && l.backupName in backups && names <= old(backups).Keys ==> |Newer(names, l.backupName)| < 5
      ensures o.Done? ==> |backups| <= 5
      ensures AllPass(old(faults)) ==> o.Done?
    {
      hide AllPass, NewestFirst, Expired, Without, Newer;
      ghost var filed := backups;
      var removed;
      o, removed := Prune();
      forall n | n in filed && |Newer(names + {l.backupName}, n)| < 5 ensures n in backups {
        FewerNewer(filed.Keys, names + {l.backupName}, n);
      }
      NotNewerThanItself(names, l.backupName);
      if l.backupName in filed && names <= filed.Keys {
        assert filed.Keys == names + {l.backupName};
      }
    }

    /** Launches of which every one can start after the one before it, with backup names of its own
        and nothing that fails. */
    ghost predicate AllSmooth(launches: seq<Launch>, image: View, names: set<nat>) {
      && (forall i :: 0 <= i < |launches| ==> launches[i].Smooth(sqlite) && launches[i].backupName !in names)
      && (forall i, j :: 0 <= i < j < |launches| ==> launches[i].backupName != launches[j].backupName)
      && (launches != [] ==> launches[0].Accepts(image))
      && (forall i :: 0 < i < |launches| ==> launches[i].AcceptsHead(launches[i - 1].head))
    }

    lemma AcceptedNext(launches: seq<Launch>, i: nat, image: View, names: set<nat>, now: View)
      requires AllSmooth(launches, image, names) && i < |launches| && now.View?
      requires if i == 0 then now == image else now.heads == {launches[i - 1].head}
      ensures launches[i].Smooth(sqlite) && launches[i].Accepts(now)
      ensures launches[i].backupName !in names + Names(launches[..i])
    {
      hide Launch.Smooth;
      if i > 0 {
        assert launches[i].AcceptsHead(launches[i - 1].head);
      }
    }

    /** `main`: migrate, then serve. Each write is committed in turn and the process may end after
        any of them; a launch that does not get past the migration serves nothing. */
    method Run(l: Launch) returns (serving: bool, shown: seq<string>)
      requires Recoverable() && l.Lawful(sqlite)
      modifies this
      ensures Recoverable()
      ensures serving ==> shown == old(committed) && committed == old(committed) + l.writes
      ensures !serving ==> committed == old(committed)
      ensures l.Smooth(sqlite) && l.Accepts(old(image)) && l.backupName !in old(backups) ==> serving
      ensures serving ==> image.heads == {l.head}
      ensures forall n ::
        n in old(backups) && |Newer(old(backups).Keys + {l.backupName}, n)| < 5 ==> n in backups && backups[n] == old(backups)[n]
      ensures backups.Keys <= old(backups).Keys + {l.backupName}
      ensures serving && old(image).heads != {l.head} && old(image) != EMPTY_VIEW
          && |Newer(old(backups).Keys, l.backupName)| < 5
        ==> l.backupName in backups && sqlite.open(backups[l.backupName], map[]) == old(image)
    {
      hide Launch.Succeeds, Launch.Accepts, AllPass, Sqlite.Lawful, Newer;
      faults := l.faults;
      var o, backup := Migrate(l);
      serving := o.Done?;
      shown := [];
      if serving {
        shown := Current().rows;
        ghost var filed := backups;
        for i := 0 to |l.writes|
          invariant Recoverable() && marker.None? && image.heads == {l.head}
          invariant committed == old(committed) + l.writes[..i]
          invariant backups == filed
        {
          var (m, s) := l.commit(if main.Some? then main.value else [], sidecars, l.writes[i]);
          main, sidecars := Some(m), s;
          committed, image := committed + [l.writes[i]], Current();
          assert l.writes[..i + 1] == l.writes[..i] + [l.writes[i]];
        }
        assert l.writes[..|l.writes|] == l.writes;
      }
    }

    /** Over every sequence of launches, whatever fails or is killed in each of them: a server that
        runs shows exactly the writes of all the servers before it, and they are never lost. */
    method RunAll(launches: seq<Launch>) returns (serving: seq<bool>, shown: seq<seq<string>>)
      requires Recoverable() && forall l :: l in launches ==> l.Lawful(sqlite)
      modifies this
      ensures Recoverable()
      ensures |serving| == |shown| == |launches|
      ensures committed == old(committed) + Served(launches, serving)
      ensures forall i :: 0 <= i < |launches| && serving[i] ==>
        shown[i] == old(committed) + Served(launches[..i], serving[..i])
      ensures AllSmooth(launches, old(image), old(backups).Keys) ==> forall i :: 0 <= i < |launches| ==> serving[i]
      ensures forall n ::
        n in old(backups) && |Newer(old(backups).Keys + Names(launches), n)| < 5 ==> n in backups && backups[n] == old(backups)[n]
    {
      hide Launch.Smooth, Launch.Accepts, Sqlite.Lawful, Newer, AllSmooth, Names;
      ghost var smooth := AllSmooth(launches, old(image), old(backups).Keys);
      serving, shown := [], [];
      ghost var names := old(backups).Keys + Names(launches);
      for i := 0 to |launches|
        invariant Recoverable()
        invariant |serving| == |shown| == i
        invariant backups.Keys <= old(backups).Keys + Names(launches[..i])
        invariant forall n :: n in old(backups) && |Newer(names, n)| < 5 ==> n in backups && backups[n] == old(backups)[n]
        invariant smooth ==>
          (if i == 0 then image == old(image) else image.heads == {launches[i - 1].head})
        invariant smooth ==> forall k :: 0 <= k < i ==> serving[k]
        invariant committed == old(committed) + Served(launches[..i], serving)
        invariant forall k :: 0 <= k < i && serving[k] ==>
          shown[k] == old(committed) + Served(launches[..k], serving[..k])
      {
        ghost var files := backups;
        ghost var was := image;
        NamesOf(launches, i);
        if smooth {
          AcceptedNext(launches, i, old(image), old(backups).Keys, was);
        }
        var b, rows := Run(launches[i]);
        forall n | n in files && |Newer(names, n)| < 5 ensures n in backups && backups[n] == files[n] {
          FewerNewer(files.Keys + {launches[i].backupName}, names, n);
        }
        ghost var before := serving;
        serving, shown := serving + [b], shown + [rows];
        assert launches[..i + 1][..i] == launches[..i] && serving[..i] == before;
        assert forall k :: 0 <= k < i ==> serving[..k] == before[..k];
      }
      assert launches[..|launches|] == launches;
    }

    /** Recovery that is killed or fails any number of times and is then let through once has put
        back the very image that stood before the migration. */
    method RecoverAfterKills(attempts: seq<seq<Fault>>) returns (o: Outcome)
      requires Recoverable()
      modifies this`main, this`sidecars, this`marker, this`faults
      ensures o.Done? && Recoverable() && marker.None? && Current() == image
      ensures old(marker).Some? ==> sidecars == map[]
    {
      for i := 0 to |attempts|
        invariant Recoverable()
        invariant old(marker).Some? && marker.None? ==> sidecars == map[]
      {
        faults := attempts[i];
        o := Recover();
      }
      faults := [];
      o := Recover();
    }
  }
}
