/**
 What it means for the index to agree with the files, said without the code that builds it: each id
 has one row, computed from the last file that holds it. Rebuilding establishes this on any disk,
 also when it is interrupted and restarted, and the agreeing index is unique.
 */
module KbIndex {
  import opened Wrappers
  import opened Listing
  import opened KbModel
  import opened KbSpec

  /** A file as the rebuild reads it: migrated, then validated for its directory's type. */
  function Read(disk: map<Path, Payload>, p: Path): Option<Payload>
    requires p in disk
  {
    ValidateAs(p.objectType, Migrate(disk[p]))
  }

  predicate Loadable(disk: map<Path, Payload>) {
    forall p :: p in disk ==> Read(disk, p).Some?
  }

  predicate Holds(disk: map<Path, Payload>, p: Path, id: string) {
    p in disk && Read(disk, p).Some? && Read(disk, p).value.id == Some(id)
  }

  /** p is the last of the files fs that hold id: the file the index must point to. */
  ghost predicate LastOf(disk: map<Path, Payload>, fs: set<Path>, p: Path, id: string) {
    && p in fs && Holds(disk, p, id)
    && forall q :: q in fs && Holds(disk, q, id) ==> q == p || Before(q, p)
  }

  ghost predicate ManifestOn(st: State, fs: set<Path>) {
    && (forall id :: id in st.manifest ==> LastOf(st.disk, fs, st.manifest[id].file, id))
    && (forall id :: id in st.manifest ==> RowIsOf(st, id))
    && (forall p, id :: p in fs && Holds(st.disk, p, id) ==> id in st.manifest)
  }

  predicate RowIsOf(st: State, id: string) {
    && id in st.manifest
    && var file := st.manifest[id].file;
    && file in st.disk && Read(st.disk, file).Some?
    && Indexable(Read(st.disk, file).value)
    && st.manifest[id] == RowOf(Read(st.disk, file).value, file, file.tier)
  }

  ghost predicate DistinctIds(rows: seq<FtsRow>) {
    forall i, j :: 0 <= i < j < |rows| ==> rows[i].id != rows[j].id
  }

  predicate FtsRowIsOf(st: State, r: FtsRow) {
    && r.id in st.manifest && st.manifest[r.id].file in st.disk
    && Read(st.disk, st.manifest[r.id].file) == Some(r.document)
  }

  ghost predicate FtsMirrors(st: State) {
    && DistinctIds(st.fts)
    && (forall r :: r in st.fts ==> FtsRowIsOf(st, r))
    && (forall id :: id in st.manifest ==> exists i :: 0 <= i < |st.fts| && st.fts[i].id == id)
  }

  /** The index is exactly the projection of the files fs. */
  ghost predicate SyncedOn(st: State, fs: set<Path>) {
    fs <= st.disk.Keys && ManifestOn(st, fs) && FtsMirrors(st)
  }

  ghost predicate Synced(st: State) {
    SyncedOn(st, st.disk.Keys)
  }

  /** The same index up to the order of FTS rows, which no query depends on. */
  predicate SameIndex(a: State, b: State) {
    a.manifest == b.manifest && multiset(a.fts) == multiset(b.fts)
  }

  // ---------------------------------------------------------------- FTS rows

  lemma {:induction false} WithoutMembers(rows: seq<FtsRow>, id: string)
    ensures forall r :: r in Without(rows, id) <==> r in rows && r.id != id
    ensures DistinctIds(rows) ==> DistinctIds(Without(rows, id))
  {
    if rows != [] {
      var n := |rows| - 1;
      WithoutMembers(rows[..n], id);
      assert rows == rows[..n] + [rows[n]];
      if DistinctIds(rows) {
        forall r | r in rows[..n] ensures r.id != rows[n].id {
        }
      }
    }
  }

  lemma WithoutThenAdd(rows: seq<FtsRow>, r: FtsRow)
    ensures var replaced := Without(rows, r.id) + [r];
            && (forall x :: x in replaced <==> (x in rows && x.id != r.id) || x == r)
            && (DistinctIds(rows) ==> DistinctIds(replaced))
  {
    WithoutMembers(rows, r.id);
    var kept := Without(rows, r.id);
    forall i | 0 <= i < |kept| ensures kept[i].id != r.id {
      assert kept[i] in kept;
    }
  }

  lemma {:induction false} DistinctCount(rows: seq<FtsRow>, r: FtsRow)
    requires DistinctIds(rows)
    ensures multiset(rows)[r] == if r in rows then 1 else 0
  {
    if rows != [] {
      var n := |rows| - 1;
      assert rows == rows[..n] + [rows[n]];
      DistinctCount(rows[..n], r);
    }
  }

  lemma SameRowsSameBag(a: seq<FtsRow>, b: seq<FtsRow>)
    requires DistinctIds(a) && DistinctIds(b)
    requires forall r :: r in a <==> r in b
    ensures multiset(a) == multiset(b)
  {
    forall r ensures multiset(a)[r] == multiset(b)[r] {
      DistinctCount(a, r);
      DistinctCount(b, r);
    }
  }

  // ---------------------------------------------------------------- uniqueness

  lemma LastUnique(disk: map<Path, Payload>, fs: set<Path>, p: Path, q: Path, id: string)
    requires LastOf(disk, fs, p, id) && LastOf(disk, fs, q, id)
    ensures p == q
  {
    if p != q {
      BeforeAsymmetric(p, q);
    }
  }

  ghost predicate ReadsAlike(d: map<Path, Payload>, e: map<Path, Payload>) {
    d.Keys == e.Keys && forall p :: p in d ==> Read(d, p) == Read(e, p)
  }

  lemma SyncedManifestSub(a: State, b: State, fs: set<Path>, id: string)
    requires SyncedOn(a, fs) && SyncedOn(b, fs) && ReadsAlike(a.disk, b.disk)
    requires id in a.manifest
    ensures id in b.manifest && a.manifest[id] == b.manifest[id]
  {
    var p := a.manifest[id].file;
    assert LastOf(a.disk, fs, p, id);
    assert Holds(b.disk, p, id);
    var q := b.manifest[id].file;
    assert LastOf(b.disk, fs, q, id);
    assert LastOf(a.disk, fs, q, id) by {
      forall r | r in fs && Holds(a.disk, r, id) ensures r == q || Before(r, q) {
        assert Holds(b.disk, r, id);
      }
    }
    LastUnique(a.disk, fs, p, q, id);
    assert RowIsOf(a, id) && RowIsOf(b, id);
  }

  lemma SyncedFtsSub(a: State, b: State, r: FtsRow)
    requires FtsMirrors(a) && FtsMirrors(b) && a.manifest == b.manifest && ReadsAlike(a.disk, b.disk)
    requires r in a.fts
    ensures r in b.fts
  {
    hide ValidateAs, Migrate;
    assert FtsRowIsOf(a, r);
    var i :| 0 <= i < |b.fts| && b.fts[i].id == r.id;
    assert FtsRowIsOf(b, b.fts[i]);
    assert b.fts[i] == r;
  }

  lemma SyncedManifestSame(a: State, b: State, fs: set<Path>)
    requires SyncedOn(a, fs) && SyncedOn(b, fs) && ReadsAlike(a.disk, b.disk)
    ensures a.manifest == b.manifest
  {
    hide Read, SyncedOn;
    forall id | id in a.manifest ensures id in b.manifest && a.manifest[id] == b.manifest[id] {
      SyncedManifestSub(a, b, fs, id);
    }
    forall id | id in b.manifest ensures id in a.manifest {
      SyncedManifestSub(b, a, fs, id);
    }
  }

  lemma MirrorsSameBag(a: State, b: State)
    requires FtsMirrors(a) && FtsMirrors(b) && a.manifest == b.manifest && ReadsAlike(a.disk, b.disk)
    ensures multiset(a.fts) == multiset(b.fts)
  {
    forall r | r in a.fts ensures r in b.fts { SyncedFtsSub(a, b, r); }
    forall r | r in b.fts ensures r in a.fts { SyncedFtsSub(b, a, r); }
    SameRowsSameBag(a.fts, b.fts);
  }

  /** Two indexes that agree with the same files are the same index. */
  lemma SyncedUnique(a: State, b: State, fs: set<Path>)
    requires SyncedOn(a, fs) && SyncedOn(b, fs) && ReadsAlike(a.disk, b.disk)
    ensures SameIndex(a, b)
  {
    SyncedManifestSame(a, b, fs);
    MirrorsSameBag(a, b);
  }

  lemma SameIndexSynced(a: State, b: State)
    requires Synced(a) && a.disk == b.disk && SameIndex(b, a)
    ensures Synced(b)
  {
    hide Read, LastOf, RowIsOf;
    SameManifestOn(a, b);
    SameBagMirrors(a, b);
  }

  lemma SameManifestOn(a: State, b: State)
    requires ManifestOn(a, a.disk.Keys) && a.disk == b.disk && a.manifest == b.manifest
    ensures ManifestOn(b, b.disk.Keys)
  {
    hide Read, LastOf;
    forall id | id in b.manifest ensures RowIsOf(b, id) {
      assert RowIsOf(a, id);
    }
  }

  lemma SameBagMirrors(a: State, b: State)
    requires FtsMirrors(a) && a.disk == b.disk && SameIndex(b, a)
    ensures FtsMirrors(b)
  {
    hide Read;
    forall r | r in b.fts ensures FtsRowIsOf(b, r) {
      assert r in multiset(b.fts);
      assert FtsRowIsOf(a, r);
    }
    forall id | id in b.manifest ensures exists i :: 0 <= i < |b.fts| && b.fts[i].id == id {
      var i :| 0 <= i < |a.fts| && a.fts[i].id == id;
      assert a.fts[i] in multiset(b.fts);
      assert a.fts[i] in b.fts;
    }
    SameBagDistinct(a.fts, b.fts);
  }

  lemma SameBagDistinct(a: seq<FtsRow>, b: seq<FtsRow>)
    requires DistinctIds(a) && multiset(a) == multiset(b)
    ensures DistinctIds(b)
  {
    forall i, j | 0 <= i < j < |b| ensures b[i].id != b[j].id {
      assert b[i] in multiset(b) && b[j] in multiset(b);
      assert b[i] in a && b[j] in a;
      if b[i] == b[j] {
        DistinctCount(a, b[i]);
        TwiceCounted(b, i, j);
      }
    }
  }

  lemma TwiceCounted(b: seq<FtsRow>, i: nat, j: nat)
    requires i < j < |b| && b[i] == b[j]
    ensures multiset(b)[b[i]] >= 2
  {
    assert b == b[..j] + [b[j]] + b[j + 1..];
    assert b[i] in b[..j];
  }

  // ---------------------------------------------------------------- one file indexed

  lemma RowNames(p: Payload, file: Path)
    requires Indexable(p)
    ensures p.id.Some? && RowOf(p, file, file.tier).file == file
  {
  }

  /** Indexing a file that comes after every file indexed so far keeps agreement. */
  lemma SyncExtends(st: State, fs: set<Path>, file: Path)
    requires SyncedOn(st, fs) && file in st.disk && Read(st.disk, file).Some?
    requires Indexable(Read(st.disk, file).value)
    requires forall q :: q in fs ==> Before(q, file)
    ensures SyncedOn(Sync(st, Read(st.disk, file).value, file, file.tier), fs + {file})
  {
    hide ValidateAs, Before, Migrate, Indexable, Without, FtsMirrors, RowOf;
    RowNames(Read(st.disk, file).value, file);
    var rec := Read(st.disk, file).value;
    var n := rec.id.value;
    var s2 := Sync(st, rec, file, file.tier);
    var fs2 := fs + {file};
    forall id | id in s2.manifest
      ensures LastOf(s2.disk, fs2, s2.manifest[id].file, id) && RowIsOf(s2, id)
    {
      if id != n {
        assert LastOf(st.disk, fs, st.manifest[id].file, id) && RowIsOf(st, id);
      }
    }
    SyncFts(st, rec, file);
  }

  /** Replacing one object's rows keeps the FTS table a mirror, whatever the manifest's file was. */
  lemma SyncFts(st: State, rec: Payload, file: Path)
    requires FtsMirrors(st) && file in st.disk && Read(st.disk, file) == Some(rec) && Indexable(rec)
    ensures FtsMirrors(Sync(st, rec, file, file.tier))
  {
    hide ValidateAs, Migrate, Without;
    var n := rec.id.value;
    var s2 := Sync(st, rec, file, file.tier);
    WithoutThenAdd(st.fts, FtsRow(n, rec));
    forall r | r in s2.fts ensures FtsRowIsOf(s2, r) {
      if r.id != n {
        assert FtsRowIsOf(st, r);
      }
    }
    forall id | id in s2.manifest ensures exists i :: 0 <= i < |s2.fts| && s2.fts[i].id == id {
      if id == n {
        assert s2.fts[|s2.fts| - 1].id == n;
      } else {
        var i :| 0 <= i < |st.fts| && st.fts[i].id == id;
        assert st.fts[i] in s2.fts;
      }
    }
  }

  // ---------------------------------------------------------------- the rebuild loop

  function MigrateAll(disk: map<Path, Payload>): map<Path, Payload> {
    map p | p in disk :: Migrate(disk[p])
  }

  ghost predicate Ascending(files: seq<Path>) {
    forall i, j :: 0 <= i < j < |files| ==> Before(files[i], files[j])
  }

  function FileSet(files: seq<Path>): set<Path> {
    set p | p in files
  }

  /** The state of the rebuild loop after the files walked so far: they are migrated, the others
      untouched, and the index is their projection. */
  ghost predicate Walked(start: map<Path, Payload>, files: seq<Path>, s: State) {
    && ReadsAlike(start, s.disk)
    && SyncedOn(s, FileSet(files))
    && forall f :: f in start ==> s.disk[f] == if f in files then Migrate(start[f]) else start[f]
  }

  /** The state of a loop that stopped: file number j is the first that validation refuses, and it was
      migrated before being refused. */
  ghost predicate Stopped(start: map<Path, Payload>, files: seq<Path>, j: nat, s: State) {
    && j < |files| && files[j] in start && Read(start, files[j]).None?
    && (forall f :: f in files[..j] ==> f in start && Read(start, f).Some?)
    && ReadsAlike(start, s.disk)
    && SyncedOn(s, FileSet(files[..j]))
    && forall f :: f in start ==> s.disk[f] == if f in files[..j + 1] then Migrate(start[f]) else start[f]
  }

  lemma IndexFileReads(s: State, file: Path)
    requires file in s.disk
    ensures var (s2, ok) := IndexFile(s, file);
            && ReadsAlike(s.disk, s2.disk)
            && (ok <==> Read(s.disk, file).Some?)
            && s2.disk == s.disk[file := Migrate(s.disk[file])]
  {
    hide ValidateAs, RowOf;
  }

  lemma IndexFileSyncs(s: State, fs: set<Path>, file: Path)
    requires SyncedOn(s, fs) && file in s.disk && Read(s.disk, file).Some?
    requires forall q :: q in fs ==> Before(q, file)
    ensures SyncedOn(IndexFile(s, file).0, fs + {file})
  {
    var m := Migrate(s.disk[file]);
    var s1 := if Current(s.disk[file]) then s else Write(s, file, m);
    ValidatedIsRecord(file.objectType, m);
    RecordIsIndexable(file.objectType, Read(s.disk, file).value);
    hide ValidateAs, Before, Sync, Indexable, SyncedOn;
    assert ReadsAlike(s.disk, s1.disk) by { IndexFileReads(s, file); }
    MigrationKeepsSync(s, s1, fs);
    SyncExtends(s1, fs, file);
  }

  lemma IndexFileWalks(start: map<Path, Payload>, files: seq<Path>, s: State, file: Path)
    requires Walked(start, files, s) && file in start
    requires forall q :: q in files ==> Before(q, file)
    ensures var (s2, ok) := IndexFile(s, file);
            && ReadsAlike(start, s2.disk)
            && (ok <==> Read(start, file).Some?)
            && (ok ==> Walked(start, files + [file], s2))
  {
    hide ValidateAs, Before, RowOf, IndexFile, SyncedOn;
    assert file !in files by { BeforeIrreflexive(file); }
    IndexFileReads(s, file);
    if Read(start, file).Some? {
      IndexFileSyncs(s, FileSet(files), file);
      assert FileSet(files + [file]) == FileSet(files) + {file};
    }
  }

  lemma IndexFileStops(start: map<Path, Payload>, files: seq<Path>, n: nat, s: State)
    requires n < |files| && Walked(start, files[..n], s) && files[n] in start && Read(start, files[n]).None?
    requires forall f :: f in files[..n] ==> f in start && Read(start, f).Some?
    ensures Stopped(start, files, n, IndexFile(s, files[n]).0)
  {
    hide ValidateAs, Before, RowOf, Sync, SyncedOn, Migrate;
    var file := files[n];
    var s2 := IndexFile(s, file).0;
    assert file !in files[..n];
    assert s2.manifest == s.manifest && s2.fts == s.fts;
    IndexFileReads(s, file);
    MigrationKeepsSync(s, s2, FileSet(files[..n]));
    assert files[..n + 1] == files[..n] + [file];
  }

  lemma StoppedEarlier(start: map<Path, Payload>, files: seq<Path>, n: nat, j: nat, s: State)
    requires n <= |files| && Stopped(start, files[..n], j, s)
    ensures Stopped(start, files, j, s)
  {
    hide SyncedOn, Migrate, Read;
    assert files[..n][..j] == files[..j] && files[..n][..j + 1] == files[..j + 1];
  }

  /** What the loop has come to after these files: through them all exactly when validation accepts
      each, and otherwise stopped at the first that is refused. */
  ghost predicate LoopState(start: map<Path, Payload>, files: seq<Path>, s: State, ok: bool) {
    && ReadsAlike(start, s.disk)
    && (ok <==> forall f :: f in files ==> f in start && Read(start, f).Some?)
    && (ok ==> Walked(start, files, s))
    && (!ok ==> exists j :: Stopped(start, files, j, s))
  }

  lemma {:induction false} IndexFilesSyncs(st: State, files: seq<Path>)
    requires (forall f :: f in files ==> f in st.disk) && Ascending(files)
    ensures var (s2, ok) := IndexFiles(Cleared(st), files);
            LoopState(st.disk, files, s2, ok)
  {
    if files == [] {
      EmptyWalked(st);
    } else {
      hide LoopState;
      var n := |files| - 1;
      assert files == files[..n] + [files[n]];
      assert files[n] in files;
      IndexFilesSyncs(st, files[..n]);
      var (s1, ok1) := IndexFiles(Cleared(st), files[..n]);
      if ok1 {
        LoopGoesOn(st.disk, files, s1);
      } else {
        LoopHasStopped(st.disk, files, s1);
      }
    }
  }

  lemma EmptyWalked(st: State)
    ensures Walked(st.disk, [], Cleared(st))
  {
  }

  lemma LoopGoesOn(start: map<Path, Payload>, files: seq<Path>, s: State)
    requires files != [] && files[|files| - 1] in s.disk && Ascending(files)
    requires LoopState(start, files[..|files| - 1], s, true)
    ensures var (s2, ok) := IndexFile(s, files[|files| - 1]);
            LoopState(start, files, s2, ok)
  {
    hide Walked, Stopped, ValidateAs, Migrate, IndexFile, SyncedOn;
    var n := |files| - 1;
    assert files == files[..n] + [files[n]];
    IndexFileWalks(start, files[..n], s, files[n]);
    if Read(start, files[n]).None? {
      IndexFileStops(start, files, n, s);
    }
  }

  lemma LoopHasStopped(start: map<Path, Payload>, files: seq<Path>, s: State)
    requires files != [] && LoopState(start, files[..|files| - 1], s, false)
    ensures LoopState(start, files, s, false)
  {
    hide Walked, Stopped, ValidateAs, Migrate, SyncedOn;
    var n := |files| - 1;
    assert forall f :: f in files[..n] ==> f in files;
    var j :| Stopped(start, files[..n], j, s);
    StoppedEarlier(start, files, n, j, s);
  }

  /** Migrating files in place changes no reading, so it changes no agreement. */
  lemma MigrationKeepsSync(a: State, b: State, fs: set<Path>)
    requires SyncedOn(a, fs) && ReadsAlike(a.disk, b.disk)
    requires a.manifest == b.manifest && a.fts == b.fts
    ensures SyncedOn(b, fs)
  {
    forall p, id ensures Holds(a.disk, p, id) <==> Holds(b.disk, p, id) {
    }
    forall id | id in b.manifest ensures LastOf(b.disk, fs, b.manifest[id].file, id) && RowIsOf(b, id) {
      assert LastOf(a.disk, fs, a.manifest[id].file, id) && RowIsOf(a, id);
    }
    forall r | r in b.fts ensures FtsRowIsOf(b, r) {
      assert FtsRowIsOf(a, r);
    }
  }

  lemma WalkIsAll(st: State)
    ensures var files := Walk(st.disk.Keys);
            FileSet(files) == st.disk.Keys && Ascending(files) && |files| == |st.disk|
  {
    WalkLength(Walk(st.disk.Keys), st.disk.Keys);
  }

  /** Rebuilding any disk: it succeeds exactly when every file validates, and then each id has the
      row of the last file that holds it, every file is migrated, and none is added or lost. */
  lemma RebuildSyncs(st: State)
    ensures var (s2, r) := Rebuild(st);
            && (r.Ok? <==> Loadable(st.disk))
            && (r.Ok? ==> Synced(s2) && s2.disk == MigrateAll(st.disk) && r.value == |st.disk|)
  {
    hide ValidateAs, Migrate, IndexFiles, ManifestOn, FtsMirrors, Walk;
    WalkIsAll(st);
    IndexFilesSyncs(st, Walk(st.disk.Keys));
  }

  /** The same files, each as it was or migrated. */
  ghost predicate FilesKept(start: map<Path, Payload>, disk: map<Path, Payload>) {
    ReadsAlike(start, disk) && forall p :: p in start ==> disk[p] == start[p] || disk[p] == Migrate(start[p])
  }

  /** Whether or not it gets through, a rebuild only migrates files. */
  lemma RebuildKeepsFiles(st: State)
    ensures FilesKept(st.disk, Rebuild(st).0.disk)
    ensures Rebuild(st).1.Err? ==> Rebuild(st).1.error == Invalid
  {
    hide ValidateAs, Migrate, IndexFiles, Walk, SyncedOn;
    WalkIsAll(st);
    IndexFilesSyncs(st, Walk(st.disk.Keys));
    var s2 := Rebuild(st).0;
    if Rebuild(st).1.Err? {
      var j :| Stopped(st.disk, Walk(st.disk.Keys), j, s2);
    }
  }

  lemma KeptTwice(a: map<Path, Payload>, b: map<Path, Payload>, c: map<Path, Payload>)
    requires FilesKept(a, b) && FilesKept(b, c)
    ensures FilesKept(a, c)
  {
    hide Migrate, ValidateAs;
    forall p | p in a ensures c[p] == a[p] || c[p] == Migrate(a[p]) {
      MigrateTwice(a[p]);
    }
  }

  lemma MigratedReadsAlike(disk: map<Path, Payload>)
    ensures ReadsAlike(disk, MigrateAll(disk)) && MigrateAll(MigrateAll(disk)) == MigrateAll(disk)
  {
  }

  /** An index that agrees with its files is left as it is by a rebuild. */
  lemma RebuildKeepsSynced(st: State)
    requires Synced(st) && Loadable(st.disk)
    ensures Rebuild(st).1 == Ok(|st.disk|) && SameIndex(Rebuild(st).0, st)
    ensures Rebuild(st).0.disk == MigrateAll(st.disk)
  {
    RebuildSyncs(st);
    MigratedReadsAlike(st.disk);
    SyncedUnique(Rebuild(st).0, st, st.disk.Keys);
  }

  /** Rebuilding twice is rebuilding once. */
  lemma RebuildIdempotent(st: State)
    requires Loadable(st.disk)
    ensures var once := Rebuild(st).0;
            Rebuild(once).0.disk == once.disk && SameIndex(Rebuild(once).0, once)
  {
    RebuildSyncs(st);
    MigratedReadsAlike(st.disk);
    RebuildKeepsSynced(Rebuild(st).0);
  }

  /** The state in which a rebuild dies: after k files, possibly with the next one already migrated. A
      loop that has been stopped by a file before that has nothing more to do. */
  function Interrupted(st: State, k: nat, migrated: bool): State
    requires k <= |Walk(st.disk.Keys)|
  {
    var files := Walk(st.disk.Keys);
    var (part, ok) := IndexFiles(Cleared(st), files[..k]);
    if ok && migrated && k < |files| then Write(part, files[k], Migrate(part.disk[files[k]])) else part
  }

  lemma MigrateTwice(p: Payload)
    ensures Migrate(Migrate(p)) == Migrate(p)
  {
  }

  function Head<T>(s: seq<T>, n: nat): seq<T> {
    if n <= |s| then s[..n] else s
  }

  /** Such a state, said without the loop: the index is the projection of the first n files, which are
      migrated; the file after them may be, and no other. */
  ghost predicate Partway(start: map<Path, Payload>, files: seq<Path>, n: nat, s: State) {
    && n <= |files| && ReadsAlike(start, s.disk)
    && SyncedOn(s, FileSet(files[..n]))
    && (forall f :: f in files[..n] ==> f in start && Read(start, f).Some? && s.disk[f] == Migrate(start[f]))
    && (forall f :: f in start ==>
          s.disk[f] == start[f] || (f in Head(files, n + 1) && s.disk[f] == Migrate(start[f])))
  }

  lemma InterruptedPartway(st: State, k: nat, migrated: bool)
    requires k <= |Walk(st.disk.Keys)|
    ensures exists n: nat :: Partway(st.disk, Walk(st.disk.Keys), n, Interrupted(st, k, migrated))
  {
    hide SyncedOn, Migrate, ValidateAs, IndexFiles, Partway, Walked, Stopped;
    var files := Walk(st.disk.Keys);
    var part := IndexFiles(Cleared(st), files[..k]).0;
    IndexFilesSyncs(st, files[..k]);
    assert k < |files| ==> files[k] in files;
    if IndexFiles(Cleared(st), files[..k]).1 {
      WalkedPartway(st.disk, files, k, part);
      if migrated && k < |files| {
        MigratedPartway(st.disk, files, k, part);
        assert Interrupted(st, k, migrated) == Write(part, files[k], Migrate(part.disk[files[k]]));
      } else {
        assert Interrupted(st, k, migrated) == part;
      }
    } else {
      var j :| Stopped(st.disk, files[..k], j, part);
      StoppedEarlier(st.disk, files, k, j, part);
      StoppedPartway(st.disk, files, j, part);
      assert Interrupted(st, k, migrated) == part;
    }
  }

  lemma WalkedPartway(start: map<Path, Payload>, files: seq<Path>, k: nat, s: State)
    requires k <= |files| && Walked(start, files[..k], s)
    requires forall f :: f in files[..k] ==> f in start && Read(start, f).Some?
    ensures Partway(start, files, k, s)
  {
    hide SyncedOn, Migrate, Read, ReadsAlike;
    assert forall f :: f in files[..k] ==> f in Head(files, k + 1);
  }

  lemma MigratedPartway(start: map<Path, Payload>, files: seq<Path>, k: nat, s: State)
    requires k < |files| && files[k] in start && files[k] in s.disk && Partway(start, files, k, s)
    ensures Partway(start, files, k, Write(s, files[k], Migrate(s.disk[files[k]])))
  {
    hide Migrate, SyncedOn, ValidateAs;
    var s2 := Write(s, files[k], Migrate(s.disk[files[k]]));
    MigrateTwice(start[files[k]]);
    assert ReadsAlike(s.disk, s2.disk) by { MigrateTwice(s.disk[files[k]]); }
    MigrationKeepsSync(s, s2, FileSet(files[..k]));
    assert files[k] in Head(files, k + 1);
    forall f | f in start && f != files[k] ensures s2.disk[f] == s.disk[f] {
    }
  }

  lemma StoppedPartway(start: map<Path, Payload>, files: seq<Path>, j: nat, s: State)
    requires Stopped(start, files, j, s)
    ensures Partway(start, files, j, s)
  {
    hide SyncedOn, Migrate, Read, ReadsAlike;
    assert forall f :: f in files[..j] ==> f in files[..j + 1];
  }

  /** The manifest names only files that were indexed, and those validate. */
  lemma NamedFilesRead(s: State, fs: set<Path>)
    requires SyncedOn(s, fs)
    ensures forall p :: p in ManifestFiles(s) ==> p in fs && p in s.disk && Read(s.disk, p).Some?
  {
    forall p | p in ManifestFiles(s) ensures p in fs && p in s.disk && Read(s.disk, p).Some? {
      var id :| id in s.manifest && s.manifest[id].file == p;
      assert LastOf(s.disk, fs, s.manifest[id].file, id);
    }
  }

  lemma PartwayMigrates(start: map<Path, Payload>, files: seq<Path>, n: nat, s: State)
    requires Partway(start, files, n, s)
    ensures MigrateAll(s.disk) == MigrateAll(start)
  {
    hide Migrate, Read, SyncedOn, Head;
    forall p | p in start ensures Migrate(s.disk[p]) == Migrate(start[p]) {
      MigrateTwice(start[p]);
    }
  }

  lemma RestartLoadable(st: State, n: nat, part: State)
    requires Loadable(st.disk) && Partway(st.disk, Walk(st.disk.Keys), n, part)
    ensures Recover(part).1.Ok? && Recover(part).0.disk == Rebuild(st).0.disk
    ensures SameIndex(Recover(part).0, Rebuild(st).0)
  {
    hide ValidateAs, Before, SyncedOn, Migrate, Rebuild, Head, ManifestFiles;
    var files := Walk(st.disk.Keys);
    RebuildSyncs(st);
    RebuildSyncs(part);
    PartwayMigrates(st.disk, files, n, part);
    MigratedReadsAlike(st.disk);
    assert Loadable(part.disk);
    if part.disk.Keys == ManifestFiles(part) {
      NamedFilesRead(part, FileSet(files[..n]));
      assert FileSet(files[..n]) == st.disk.Keys;
      assert part.disk == MigrateAll(st.disk);
    }
    SyncedUnique(Recover(part).0, Rebuild(st).0, st.disk.Keys);
  }

  lemma EarlierReads(d: map<Path, Payload>, files: seq<Path>, n: nat, m: nat)
    requires m < n <= |files| && forall f :: f in files[..n] ==> f in d && Read(d, f).Some?
    ensures files[m] in d && Read(d, files[m]).Some?
  {
    assert files[..n][m] == files[m];
  }

  lemma FirstRefused(d: map<Path, Payload>, e: map<Path, Payload>, files: seq<Path>, i: nat, j: nat, a: State, b: State)
    requires Stopped(d, files, i, a) && Stopped(e, files, j, b) && ReadsAlike(d, e)
    ensures i == j
  {
    hide SyncedOn, Migrate, ValidateAs;
    if i < j { EarlierReads(e, files, j, i); }
    if j < i { EarlierReads(d, files, i, j); }
  }

  lemma RestartStopped(st: State, n: nat, part: State)
    requires !Loadable(st.disk) && Partway(st.disk, Walk(st.disk.Keys), n, part)
    ensures Recover(part).1 == Rebuild(st).1 == Err(Invalid) && Recover(part).0.disk == Rebuild(st).0.disk
    ensures SameIndex(Recover(part).0, Rebuild(st).0)
  {
    hide ValidateAs, Before, SyncedOn, Migrate, IndexFiles, Stopped, Partway, Read, ReadsAlike;
    var files := Walk(st.disk.Keys);
    PartwayReopened(st, n, part);
    WalkIsAll(st);
    IndexFilesSyncs(st, files);
    IndexFilesSyncs(part, files);
    var (a, b) := (Rebuild(st).0, Rebuild(part).0);
    var i :| Stopped(st.disk, files, i, a);
    var j :| Stopped(part.disk, files, j, b);
    StoppedTwice(st.disk, part, files, n, i, j, a, b);
  }

  /** A file that validation refuses is never named, so the next opening notices. */
  lemma PartwayReopened(st: State, n: nat, part: State)
    requires !Loadable(st.disk) && Partway(st.disk, Walk(st.disk.Keys), n, part)
    ensures part.disk.Keys == st.disk.Keys && !Loadable(part.disk) && Recover(part) == Rebuild(part)
  {
    hide ValidateAs, Before, SyncedOn, Migrate, Rebuild, Head, ManifestFiles;
    var f :| f in st.disk && Read(st.disk, f).None?;
    NamedFilesRead(part, FileSet(Walk(st.disk.Keys)[..n]));
    assert f in part.disk && Read(part.disk, f).None?;
  }

  lemma StoppedTwice(start: map<Path, Payload>, part: State, files: seq<Path>, n: nat, i: nat, j: nat, a: State,
                     b: State)
    requires Partway(start, files, n, part) && Stopped(start, files, i, a) && Stopped(part.disk, files, j, b)
    ensures a.disk == b.disk && SameIndex(b, a)
  {
    hide SyncedOn, Migrate, ValidateAs;
    FirstRefused(start, part.disk, files, i, j, a, b);
    if i < n { EarlierReads(start, files, n, i); }
    forall f | f in start ensures a.disk[f] == b.disk[f] {
      MigrateTwice(start[f]);
      assert f in Head(files, n + 1) ==> f in files[..i + 1];
    }
    SyncedUnique(b, a, FileSet(files[..i]));
  }

  /** The process may die after any number of files, or between the migration of a file and its
      indexing, on any disk: opening the store again ends in the same files, the same index and the same
      answer as a rebuild that was never interrupted, also when that one stops at a refused file. */
  lemma RebuildConverges(st: State, k: nat, migrated: bool)
    requires k <= |Walk(st.disk.Keys)|
    ensures var part := Interrupted(st, k, migrated);
            && (Recover(part).1.Ok? <==> Rebuild(st).1.Ok?)
            && Recover(part).0.disk == Rebuild(st).0.disk
            && SameIndex(Recover(part).0, Rebuild(st).0)
  {
    hide Interrupted, Partway, Recover, Rebuild, SameIndex, Loadable;
    InterruptedPartway(st, k, migrated);
    var n: nat :| Partway(st.disk, Walk(st.disk.Keys), n, Interrupted(st, k, migrated));
    RebuildSyncs(st);
    if Loadable(st.disk) {
      RestartLoadable(st, n, Interrupted(st, k, migrated));
    } else {
      RestartStopped(st, n, Interrupted(st, k, migrated));
    }
  }

  /** rebuild_index when the transaction for file number failAt raises: the file before it is indexed, it
      is migrated but not indexed, and the exception ends the loop. A loop that stops earlier, at a file
      that validation refuses, never gets that far. */
  function RebuildUntil(st: State, failAt: Option<nat>): (State, Result<nat>) {
    if failAt.Some? && Raises(st, failAt.value) then (Interrupted(st, failAt.value, true), Err(Database))
    else Rebuild(st)
  }

  predicate Raises(st: State, k: nat) {
    var files := Walk(st.disk.Keys);
    && k < |files|
    && var (part, ok) := IndexFiles(Cleared(st), files[..k]);
       ok && Read(part.disk, files[k]).Some?
  }

  /** A rebuild that a raised transaction has ended is made good by the next opening. */
  lemma RaisedRebuildConverges(st: State, failAt: nat)
    requires Raises(st, failAt)
    ensures var (part, r) := RebuildUntil(st, Some(failAt));
            && r == Err(Database)
            && (Recover(part).1.Ok? <==> Rebuild(st).1.Ok?)
            && Recover(part).0.disk == Rebuild(st).0.disk
            && SameIndex(Recover(part).0, Rebuild(st).0)
  {
    hide IndexFiles, Recover, Rebuild, SameIndex, Interrupted;
    RebuildConverges(st, failAt, true);
  }
}
