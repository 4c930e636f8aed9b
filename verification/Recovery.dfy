/**
 Workspace backup and restore (packages/core/storage/recovery.py). An archive is its sections; a
 section is the tree that was added under its name.
 */
module Recovery {
  import opened Wrappers
  import opened Listing
  import opened KbModel
  import opened KbSpec
  import opened KbIndex
  import opened KbRuns
  import opened KbStore

  /** The contents of a manifest database file. */
  datatype ManifestDb = ManifestDb(manifest: map<string, Row>, fts: seq<FtsRow>)

  /** Files the store does not read. */
  type Tree = map<string, string>

  /** kb/: the object files, the database when it is kept here, and everything else. */
  datatype KbTree = KbTree(disk: map<Path, Payload>, db: Option<ManifestDb>, extra: Tree)

  /** indexes/, with sqlite/manifest.sqlite3 when it is kept here. */
  datatype IndexTree = IndexTree(db: Option<ManifestDb>, extra: Tree)

  datatype Section = Ledgers | ReplayRuns | Backups | Observability

  /** The optional roots a caller passes. */
  datatype Roots = Roots(indexes: bool, sections: set<Section>)

  datatype Archive = Archive(
    hasManifest: bool, tasks: Option<Tree>, kb: Option<KbTree>, indexes: Option<IndexTree>,
    sections: map<Section, Tree>)

  datatype Space = Space(
    tasks: Option<Tree>, kb: Option<KbTree>, indexes: Option<IndexTree>, sections: map<Section, Tree>)

  /** _manifest_db_path: under indexes/ when that root is given and either the file is already there
      or kb/ has none. */
  predicate DbInIndexes(indexesGiven: bool, indexes: Option<IndexTree>, kb: KbTree) {
    indexesGiven && ((indexes.Some? && indexes.value.db.Some?) || kb.db.None?)
  }

  predicate DbExists(indexesGiven: bool, indexes: Option<IndexTree>, kb: KbTree) {
    if DbInIndexes(indexesGiven, indexes, kb) then indexes.Some? && indexes.value.db.Some? else kb.db.Some?
  }

  /** backup_workspace; outputInBackups says the archive is written below the backups root, whose
      section is then skipped. */
  function Backup(ws: Space, roots: Roots, outputInBackups: bool): Result<Archive> {
    if ws.tasks.None? || ws.kb.None? || !DbExists(roots.indexes, ws.indexes, ws.kb.value) then Err(Invalid)
    else
      Ok(Archive(true, ws.tasks, ws.kb, if roots.indexes then ws.indexes else None,
                 map s | s in ws.sections && Included(ws.sections, roots, outputInBackups, s) :: ws.sections[s]))
  }

  predicate Included(sections: map<Section, Tree>, roots: Roots, outputInBackups: bool, s: Section) {
    s in sections && s in roots.sections && !(s == Backups && outputInBackups)
  }

  /** The trees after the replacements of a restore, before the store is opened on them. */
  function Replaced(target: Space, archive: Archive, roots: Roots): Space {
    Space(archive.tasks, archive.kb,
          if roots.indexes && archive.indexes.Some? then archive.indexes else target.indexes,
          map s | s in target.sections.Keys + (archive.sections.Keys * roots.sections) ::
            if s in archive.sections && s in roots.sections then archive.sections[s] else target.sections[s])
  }

  /** The store found on the replaced trees: a database that is not there yet is created empty. */
  function Opened(ws: Space, roots: Roots): State
    requires ws.kb.Some?
  {
    var db :=
      if DbInIndexes(roots.indexes, ws.indexes, ws.kb.value) then
        (if ws.indexes.Some? && ws.indexes.value.db.Some? then ws.indexes.value.db.value else ManifestDb(map[], []))
      else ws.kb.value.db.GetOr(ManifestDb(map[], []));
    State(ws.kb.value.disk, db.manifest, db.fts)
  }

  /** The trees once the store has the state st. */
  function Saved(ws: Space, roots: Roots, st: State): Space
    requires ws.kb.Some?
  {
    var db := Some(ManifestDb(st.manifest, st.fts));
    if DbInIndexes(roots.indexes, ws.indexes, ws.kb.value) then
      ws.(kb := Some(ws.kb.value.(disk := st.disk)),
          indexes := Some(if ws.indexes.Some? then ws.indexes.value.(db := db) else IndexTree(db, map[])))
    else
      ws.(kb := Some(ws.kb.value.(disk := st.disk, db := db)))
  }

  function CanonicalIds(disk: map<Path, Payload>): set<string> {
    set p | p in disk && p.tier == Canonical :: p.name
  }

  /** detect_manifest_mismatch compares canonical file names with the ids of every tier. */
  function MissingInManifest(st: State): set<string> {
    CanonicalIds(st.disk) - st.manifest.Keys
  }

  function MissingOnDisk(st: State): set<string> {
    st.manifest.Keys - CanonicalIds(st.disk)
  }

  predicate Complete(archive: Archive) {
    archive.hasManifest && archive.tasks.Some? && archive.kb.Some?
  }

  /** restore_workspace: the error of the last check comes after everything has been replaced. */
  function Restore(target: Space, archive: Archive, roots: Roots): (Space, Result<nat>) {
    if !Complete(archive) then (target, Err(Invalid))
    else
      var ws := Replaced(target, archive, roots);
      var (st, repaired) := Recover(Opened(ws, roots));
      if repaired.Err? then (Saved(ws, roots, st), Err(repaired.error))
      else
        var (st2, rebuilt) := Rebuild(st);
        (Saved(ws, roots, st2),
         if rebuilt.Err? then rebuilt
         else if MissingInManifest(st2) != {} || MissingOnDisk(st2) != {} then Err(Invalid)
         else rebuilt)
  }

  /** The file loop of detect_manifest_mismatch. */
  method DetectManifestMismatch(disk: map<Path, Payload>, manifest: map<string, Row>)
    returns (missingInManifest: set<string>, missingOnDisk: set<string>)
    ensures missingInManifest == MissingInManifest(State(disk, manifest, []))
    ensures missingOnDisk == MissingOnDisk(State(disk, manifest, []))
  {
    var files := Walk(disk.Keys);
    var fileIds: set<string> := {};
    for i := 0 to |files|
      invariant fileIds == set j | 0 <= j < i && files[j].tier == Canonical :: files[j].name
    {
      if files[i].tier == Canonical {
        fileIds := fileIds + {files[i].name};
      }
    }
    CanonicalAmong(disk, files);
    missingInManifest, missingOnDisk := fileIds - manifest.Keys, manifest.Keys - fileIds;
  }

  lemma CanonicalAmong(disk: map<Path, Payload>, files: seq<Path>)
    requires forall p :: p in files <==> p in disk
    ensures CanonicalIds(disk) == set j | 0 <= j < |files| && files[j].tier == Canonical :: files[j].name
  {
    forall p | p in disk && p.tier == Canonical
      ensures exists j :: 0 <= j < |files| && files[j] == p
    {
      assert p in files;
    }
    forall j | 0 <= j < |files| ensures files[j] in disk {
      assert files[j] in files;
    }
  }

  class Workspace {
    var tasks: Option<Tree>
    var kb: Option<KbTree>
    var indexes: Option<IndexTree>
    var sections: map<Section, Tree>

    constructor (tasks: Option<Tree>, kb: Option<KbTree>, indexes: Option<IndexTree>, sections: map<Section, Tree>)
      ensures View() == Space(tasks, kb, indexes, sections)
    {
      this.tasks, this.kb, this.indexes, this.sections := tasks, kb, indexes, sections;
    }

    ghost function View(): Space
      reads this
    {
      Space(tasks, kb, indexes, sections)
    }

    method BackupWorkspace(roots: Roots, outputInBackups: bool) returns (r: Result<Archive>)
      ensures r == Backup(View(), roots, outputInBackups)
    {
      if tasks.None? || kb.None? || !DbExists(roots.indexes, indexes, kb.value) {
        return Err(Invalid);
      }
      var added := AddedSections(roots, outputInBackups);
      r := Ok(Archive(true, tasks, kb, if roots.indexes then indexes else None, added));
    }

    method AddedSections(roots: Roots, outputInBackups: bool) returns (added: map<Section, Tree>)
      ensures added == map s | s in sections && Included(sections, roots, outputInBackups, s) :: sections[s]
    {
      hide Included;
      assert forall s :: Included(sections, roots, outputInBackups, s) ==> s in sections by {
        IncludedIsThere(sections, roots, outputInBackups);
      }
      added := map[];
      if Included(sections, roots, outputInBackups, Ledgers) {
        added := added[Ledgers := sections[Ledgers]];
      }
      if Included(sections, roots, outputInBackups, ReplayRuns) {
        added := added[ReplayRuns := sections[ReplayRuns]];
      }
      if Included(sections, roots, outputInBackups, Backups) {
        added := added[Backups := sections[Backups]];
      }
      if Included(sections, roots, outputInBackups, Observability) {
        added := added[Observability := sections[Observability]];
      }
      forall s: Section ensures s in added <==> Included(sections, roots, outputInBackups, s) {
        match s case Ledgers => case ReplayRuns => case Backups => case Observability =>
      }
    }

    /** _replace_tree for each section that the archive has and the caller gave a root for. */
    method ReplaceTrees(archive: Archive, roots: Roots)
      modifies this
      ensures View() == Replaced(old(View()), archive, roots)
    {
      tasks, kb := archive.tasks, archive.kb;
      if roots.indexes && archive.indexes.Some? {
        indexes := archive.indexes;
      }
      sections := map s | s in sections.Keys + (archive.sections.Keys * roots.sections) ::
                    if s in archive.sections && s in roots.sections then archive.sections[s] else sections[s];
    }

    method SaveStore(store: ThinKBStore, roots: Roots)
      requires kb.Some?
      modifies this
      ensures View() == Saved(old(View()), roots, store.View())
    {
      var db := Some(ManifestDb(store.manifest, store.fts));
      if DbInIndexes(roots.indexes, indexes, kb.value) {
        indexes := Some(if indexes.Some? then indexes.value.(db := db) else IndexTree(db, map[]));
        kb := Some(kb.value.(disk := store.disk));
      } else {
        kb := Some(kb.value.(disk := store.disk, db := db));
      }
    }

    method RestoreWorkspace(archive: Archive, roots: Roots) returns (r: Result<nat>)
      modifies this
      ensures (View(), r) == Restore(old(View()), archive, roots)
    {
      hide Rebuild, Recover;
      if !archive.hasManifest || archive.tasks.None? || archive.kb.None? {
        return Err(Invalid);
      }
      ReplaceTrees(archive, roots);
      var db := if DbInIndexes(roots.indexes, indexes, kb.value)
                then (if indexes.Some? && indexes.value.db.Some? then indexes.value.db.value else ManifestDb(map[], []))
                else kb.value.db.GetOr(ManifestDb(map[], []));
      var store, repaired := ThinKBStore.Open(kb.value.disk, db.manifest, db.fts);
      if repaired.Err? {
        SaveStore(store, roots);
        return Err(repaired.error);
      }
      r := store.RebuildIndex(None);
      SaveStore(store, roots);
      if r.Ok? {
        var inManifest, onDisk := DetectManifestMismatch(store.disk, store.manifest);
        if inManifest != {} || onDisk != {} {
          r := Err(Invalid);
        }
      }
    }
  }

  lemma IncludedIsThere(sections: map<Section, Tree>, roots: Roots, outputInBackups: bool)
    ensures forall s :: Included(sections, roots, outputInBackups, s) ==> s in sections
  {
  }

  // ---------------------------------------------------------------- properties

  /** Opening and rebuilding over any database ends in the index of the files, and gets through exactly
      when every file validates. */
  lemma OpenedAndRebuilt(st: State)
    ensures var (st1, repaired) := Recover(st);
            var (st2, r) := Rebuild(st1);
            && FilesKept(st.disk, st1.disk) && FilesKept(st.disk, st2.disk)
            && (repaired.Err? ==> repaired.error == Invalid)
            && (Loadable(st.disk) ==>
                  repaired.Ok? && r == Ok(|st.disk|) && st2.disk == MigrateAll(st.disk) && Synced(st2))
            && (!Loadable(st.disk) ==> r == Err(Invalid))
  {
    hide ValidateAs, Migrate, Rebuild, Synced, ManifestFiles;
    var st1 := Recover(st).0;
    RebuildSyncs(st);
    RebuildKeepsFiles(st);
    RebuildSyncs(st1);
    RebuildKeepsFiles(st1);
    KeptTwice(st.disk, st1.disk, Rebuild(st1).0.disk);
    MigratedReadsAlike(st.disk);
    assert Loadable(st1.disk) <==> Loadable(st.disk);
    if Loadable(st.disk) {
      SameCount(st.disk, st1.disk);
    }
  }

  lemma SameCount(a: map<Path, Payload>, b: map<Path, Payload>)
    requires a.Keys == b.Keys
    ensures |a| == |b|
  {
    assert |a| == |a.Keys| && |b| == |b.Keys|;
  }

  /** The ids the files hold, as a rebuild reads them. */
  function HeldIds(disk: map<Path, Payload>): set<string> {
    set p | p in disk && Read(disk, p).Some? :: Read(disk, p).value.id.GetOr("")
  }

  lemma HeldIsHolds(disk: map<Path, Payload>, id: string)
    ensures id in HeldIds(disk) <==> exists p :: Holds(disk, p, id)
  {
    hide Migrate, BodyAccepted;
    if id in HeldIds(disk) {
      var p :| p in disk && Read(disk, p).Some? && id == Read(disk, p).value.id.GetOr("");
      assert Holds(disk, p, id);
    }
  }

  lemma ReadsAlikeHold(a: map<Path, Payload>, b: map<Path, Payload>)
    requires ReadsAlike(a, b)
    ensures HeldIds(a) == HeldIds(b) && CanonicalIds(a) == CanonicalIds(b)
  {
    hide Read;
  }

  /** What the final check compares, on any index that agrees with its files: the names of canonical
      files on one side, the ids that files of any tier hold on the other. */
  lemma MismatchIs(st: State)
    requires Synced(st)
    ensures st.manifest.Keys == HeldIds(st.disk)
    ensures MissingInManifest(st) == CanonicalIds(st.disk) - HeldIds(st.disk)
    ensures MissingOnDisk(st) == HeldIds(st.disk) - CanonicalIds(st.disk)
  {
    hide HeldIds, Read, RowIsOf, FtsMirrors, Before;
    forall id ensures id in st.manifest <==> id in HeldIds(st.disk) {
      HeldIsHolds(st.disk, id);
      assert id in st.manifest ==> LastOf(st.disk, st.disk.Keys, st.manifest[id].file, id);
      if exists p :: Holds(st.disk, p, id) {
        var p :| Holds(st.disk, p, id);
        assert p in st.disk.Keys;
      }
    }
  }

  /** Every object has a canonical file; in a store of a run, which keeps one file per object, this says
      that nothing is a candidate or deprecated. */
  predicate AllCanonical(disk: map<Path, Payload>) {
    forall p :: p in disk ==> p.name in CanonicalIds(disk)
  }

  function DatabaseOf(ws: Space, roots: Roots): Option<ManifestDb>
    requires ws.kb.Some?
  {
    if DbInIndexes(roots.indexes, ws.indexes, ws.kb.value) then
      (if ws.indexes.Some? then ws.indexes.value.db else None)
    else ws.kb.value.db
  }

  /** Backing up and restoring, for every workspace that can be backed up, over any previous content of
      the target and whatever database comes along: the trees are the saved ones, object files at most
      migrated. The call reports success if and only if every file validates and the ids the files hold
      are the names of the canonical files; it raises after having replaced everything. When every file
      validates, the database is the one rebuilt from the files. */
  lemma RestoreOfBackup(ws: Space, target: Space, roots: Roots, targetRoots: Roots, outputInBackups: bool)
    requires Backup(ws, roots, outputInBackups).Ok?
    ensures var disk := ws.kb.value.disk;
            var (r, answer) := Restore(target, Backup(ws, roots, outputInBackups).value, targetRoots);
            && r.tasks == ws.tasks && r.kb.Some? && r.kb.value.extra == ws.kb.value.extra
            && FilesKept(disk, r.kb.value.disk)
            && DatabaseOf(r, targetRoots).Some?
            && (answer == if Loadable(disk) && HeldIds(disk) == CanonicalIds(disk) then Ok(|disk|) else Err(Invalid))
            && (Loadable(disk) ==>
                  && r.kb.value.disk == MigrateAll(disk)
                  && var db := DatabaseOf(r, targetRoots).value;
                     Synced(State(r.kb.value.disk, db.manifest, db.fts)))
            && OtherTrees(ws, target, roots, targetRoots, outputInBackups, r)
  {
    hide Rebuild, Recover, Synced, Saved, DbInIndexes, MissingInManifest, MissingOnDisk, HeldIds, CanonicalIds;
    hide Loadable;
    hide FilesKept, MigrateAll;
    var archive := Backup(ws, roots, outputInBackups).value;
    var mid := Replaced(target, archive, targetRoots);
    var st := Opened(mid, targetRoots);
    OpenedAndRebuilt(st);
    var st1 := Recover(st).0;
    var st2 := Rebuild(st1).0;
    SavedParts(mid, targetRoots, st1);
    SavedParts(mid, targetRoots, st2);
    ReplacedTrees(ws, target, roots, targetRoots, outputInBackups);
    if Loadable(st.disk) {
      CheckExactly(st.disk, st2);
    }
  }

  lemma CheckExactly(disk: map<Path, Payload>, st: State)
    requires Synced(st) && FilesKept(disk, st.disk)
    ensures MissingInManifest(st) == {} && MissingOnDisk(st) == {} <==> HeldIds(disk) == CanonicalIds(disk)
  {
    hide Synced, HeldIds, CanonicalIds, MissingInManifest, MissingOnDisk, Read, Migrate;
    ReadsAlikeHold(disk, st.disk);
    MismatchIs(st);
  }

  /** Files in the current schema come back exactly as they were, also when the restore fails. */
  lemma CurrentComesBack(disk: map<Path, Payload>, restored: map<Path, Payload>)
    requires FilesKept(disk, restored) && forall p :: p in disk ==> Current(disk[p])
    ensures restored == disk
  {
    hide Read;
    forall p | p in disk ensures Migrate(disk[p]) == disk[p] {
      CurrentIsMigrated(disk[p]);
    }
  }

  /** Over files as the store writes them: they come back as they were, and the call reports success
      exactly when every object has a canonical file. */
  lemma RestoreOfStore(ws: Space, target: Space, roots: Roots, targetRoots: Roots, outputInBackups: bool)
    requires Backup(ws, roots, outputInBackups).Ok? && WellFormed(ws.kb.value.disk)
    ensures var disk := ws.kb.value.disk;
            var (r, answer) := Restore(target, Backup(ws, roots, outputInBackups).value, targetRoots);
            && r.kb.Some? && r.kb.value.disk == disk
            && (answer == if AllCanonical(disk) then Ok(|disk|) else Err(Invalid))
  {
    hide FileOk, Restore, HeldIds, CanonicalIds, AllCanonical, FilesKept, Synced;
    RestoreOfBackup(ws, target, roots, targetRoots, outputInBackups);
    WellFormedLoads(ws.kb.value.disk);
    HeldNames(ws.kb.value.disk);
  }

  lemma HeldNames(disk: map<Path, Payload>)
    requires WellFormed(disk)
    ensures HeldIds(disk) == CanonicalIds(disk) <==> AllCanonical(disk)
  {
    hide FileOk, HeldIds, Holds, Read;
    forall id ensures id in HeldIds(disk) <==> exists p :: p in disk && p.name == id {
      HeldIsHolds(disk, id);
      forall p ensures Holds(disk, p, id) <==> p in disk && p.name == id {
        HoldsIsName(disk, p, id);
      }
    }
  }

  /** The rest of the restored workspace: a section that was archived, and for which the target has a
      root, is the saved one, also Backups unless the archive was written there; so are the other files
      under indexes/ when both sides give that root; everything else is the target's own. */
  predicate OtherTrees(ws: Space, target: Space, roots: Roots, targetRoots: Roots, outputInBackups: bool, r: Space) {
    && (forall s: Section ::
          if s in ws.sections && s in roots.sections && s in targetRoots.sections && !(s == Backups && outputInBackups)
          then s in r.sections && r.sections[s] == ws.sections[s]
          else (s in r.sections <==> s in target.sections) && (s in r.sections ==> r.sections[s] == target.sections[s]))
    && var from := if roots.indexes && targetRoots.indexes && ws.indexes.Some? then ws.indexes else target.indexes;
       if from.Some? then r.indexes.Some? && r.indexes.value.extra == from.value.extra
       else r.indexes.Some? ==> r.indexes.value.extra == map[]
  }

  lemma ReplacedTrees(ws: Space, target: Space, roots: Roots, targetRoots: Roots, outputInBackups: bool)
    requires Backup(ws, roots, outputInBackups).Ok?
    ensures OtherTrees(ws, target, roots, targetRoots, outputInBackups,
                       Replaced(target, Backup(ws, roots, outputInBackups).value, targetRoots))
  {
  }

  /** A backup is refused exactly when there are no tasks, no kb/, or no database file: the one under
      indexes/ counts when that root is given and the file is there, or kb/ has none. */
  lemma BackupSucceedsExactly(ws: Space, roots: Roots, outputInBackups: bool)
    ensures Backup(ws, roots, outputInBackups).Ok? <==>
            && ws.tasks.Some? && ws.kb.Some?
            && (ws.kb.value.db.Some? || (roots.indexes && ws.indexes.Some? && ws.indexes.value.db.Some?))
    ensures Backup(ws, roots, outputInBackups).Ok? ==>
              var archive := Backup(ws, roots, outputInBackups).value;
              && archive.tasks == ws.tasks && archive.kb == ws.kb
              && archive.indexes == (if roots.indexes then ws.indexes else None)
              && (forall s :: s in archive.sections <==>
                    s in ws.sections && s in roots.sections && !(s == Backups && outputInBackups))
              && (forall s :: s in archive.sections ==> archive.sections[s] == ws.sections[s])
  {
  }

  /** Where the database of a restored workspace is: under indexes/ when that root is given and there was
      one there, from the archive or before, or none came with kb/; and otherwise in kb/. */
  lemma DatabasePlaced(ws: Space, roots: Roots, st: State)
    requires ws.kb.Some?
    ensures var r := Saved(ws, roots, st);
            var db := Some(ManifestDb(st.manifest, st.fts));
            r.kb.Some? &&
            if roots.indexes && ((ws.indexes.Some? && ws.indexes.value.db.Some?) || ws.kb.value.db.None?)
            then r.indexes.Some? && r.indexes.value.db == db && r.kb.value.db == ws.kb.value.db
            else r.kb.value.db == db && r.indexes == ws.indexes
  {
  }

  lemma SavedParts(ws: Space, roots: Roots, st: State)
    requires ws.kb.Some?
    ensures var r := Saved(ws, roots, st);
            && r.tasks == ws.tasks && r.sections == ws.sections
            && (ws.indexes.Some? ==> r.indexes.Some? && r.indexes.value.extra == ws.indexes.value.extra)
            && (ws.indexes.None? && r.indexes.Some? ==> r.indexes.value.extra == map[])
            && r.kb.Some? && r.kb.value.disk == st.disk && r.kb.value.extra == ws.kb.value.extra
            && DatabaseOf(r, roots) == Some(ManifestDb(st.manifest, st.fts))
  {
  }

  /** In a store of a run the check passes exactly when there is no candidate and no deprecated file. */
  lemma AllCanonicalExactly(st: State)
    requires Inv(st)
    ensures AllCanonical(st.disk) <==> forall p :: p in st.disk ==> p.tier == Canonical
  {
    hide FileOk, Synced;
    if AllCanonical(st.disk) {
      forall p | p in st.disk ensures p.tier == Canonical {
        var q :| q in st.disk && q.tier == Canonical && q.name == p.name;
      }
    }
  }
}
