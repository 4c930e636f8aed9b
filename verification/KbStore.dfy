/**
 ThinKBStore (packages/core/storage/thin_kb_store.py) as it runs: files and index tables changed one
 step at a time, with the hand-written rollback, the rebuild loop and the search loop. Each method is
 tied to the operation of the same name in KbSpec.
 */
module KbStore {
  import opened Wrappers
  import opened Identifiers
  import opened Text
  import opened Listing
  import opened KbModel
  import opened KbSpec
  import opened KbIndex
  import opened KbRuns
  import opened KbSearch

  class ThinKBStore {
    var disk: map<Path, Payload>
    var manifest: map<string, Row>
    var fts: seq<FtsRow>

    ghost function View(): State
      reads this
    {
      State(disk, manifest, fts)
    }

    /** A store object over what is on disk already; Open is what Python's constructor runs. */
    constructor (files: map<Path, Payload>, rows: map<string, Row>, texts: seq<FtsRow>)
      ensures View() == State(files, rows, texts)
    {
      disk, manifest, fts := files, rows, texts;
    }

    /** __init__: adopt the durable state, then repair the manifest when its paths differ. */
    static method Open(files: map<Path, Payload>, rows: map<string, Row>, texts: seq<FtsRow>)
      returns (store: ThinKBStore, r: Result<nat>)
      ensures fresh(store)
      ensures (store.View(), r) == Recover(State(files, rows, texts))
    {
      store := new ThinKBStore(files, rows, texts);
      r := store.RecoverManifestIfNeeded();
    }

    method WriteJson(file: Path, payload: Payload)
      modifies `disk
      ensures View() == Write(old(View()), file, payload)
    {
      disk := disk[file := payload];
    }

    method UnlinkFile(file: Path)
      modifies `disk
      ensures View() == Unlink(old(View()), file)
    {
      disk := disk - {file};
    }

    /** One transaction: both deletes and both inserts, or nothing. */
    method SyncObject(payload: Payload, file: Path, tier: Tier, indexOk: bool) returns (r: Result<()>)
      modifies `manifest, `fts
      ensures r.Ok? <==> Indexable(payload) && indexOk
      ensures View() == if r.Ok? then Sync(old(View()), payload, file, tier) else old(View())
      ensures r.Err? ==> r.error == if Indexable(payload) then Database else MissingKey
    {
      if !Indexable(payload) {
        return Err(MissingKey);
      }
      if !indexOk {
        return Err(Database);
      }
      var id := payload.id.value;
      manifest := manifest - {id};
      fts := Without(fts, id);
      manifest := manifest[id := RowOf(payload, file, tier)];
      fts := fts + [FtsRow(id, payload)];
      r := Ok(());
    }

    method LoadObjectFromRow(row: Row) returns (r: Result<Payload>)
      modifies this
      ensures (View(), r) == Load(old(View()), row)
    {
      if row.file !in disk {
        return Err(NotFound);
      }
      var payload, applied := ApplyMigrations(disk[row.file]);
      if applied != [] {
        WriteJson(row.file, payload);
        var synced := SyncObject(payload, row.file, row.tier, true);
        if synced.Err? {
          return Err(synced.error);
        }
      }
      CurrentIsMigrated(old(disk)[row.file]);
      r := Ok(payload);
    }

    method GetObject(objectId: string) returns (r: Result<Payload>)
      modifies this
      ensures (View(), r) == Get(old(View()), objectId)
    {
      var id := Validate(objectId);
      if id.None? {
        return Err(Invalid);
      }
      if id.value !in manifest {
        return Err(NotFound);
      }
      r := LoadObjectFromRow(manifest[id.value]);
    }

    /** upsert: everything that can be refused is refused first; then the new file, the index
        transaction with its rollback, and the unlink of the file the id had before. */
    method UpsertObject(payload: Payload, tierName: Option<string>, now: Time, indexOk: bool)
      returns (r: Result<Payload>)
      modifies this
      ensures (View(), r) == Upsert(old(View()), payload, tierName, now, indexOk)
    {
      hide PlanUpsert, Commit, RollBack, Indexable, IsRecord, TierAgrees;
      var plan := PlanObject(payload, tierName, now);
      if plan.Err? {
        return Err(plan.error);
      }
      PlanIsRecord(old(View()), payload, tierName, now);
      r := WriteIndexUnlink(plan.value.record, plan.value.file, plan.value.previous, indexOk);
    }

    /** The checks of upsert and the record it is going to write. */
    method PlanObject(payload: Payload, tierName: Option<string>, now: Time) returns (plan: Result<Plan>)
      modifies this
      ensures (View(), plan) == PlanUpsert(old(View()), payload, tierName, now)
      ensures plan.Ok? && plan.value.previous.Some? ==> plan.value.previous.value in disk
    {
      hide ValidateAs, Prepare, InferTier, ParseTier;
      var objectType := ParseType(Trim(payload.objectType.GetOr("")));
      if objectType.None? {
        return Err(Invalid);
      }
      var item, _ := ApplyMigrations(payload);
      var tier := if tierName.Some? && tierName.value != "" then ParseTier(tierName.value) else Some(InferTier(item));
      if tier.None? {
        return Err(Invalid);
      }
      var row := LookUp(State(disk, manifest, fts), payload.id);
      if row.Err? {
        return Err(row.error);
      }
      if row.value.None? {
        return PlanWith(payload, objectType.value, None, None, tier.value, now);
      }
      var existing := LoadObjectFromRow(row.value.value);
      if existing.Err? {
        return Err(existing.error);
      }
      plan := PlanWith(payload, objectType.value, Some(existing.value), Some(row.value.value.file), tier.value, now);
    }

    /** The durable half of upsert. */
    method WriteIndexUnlink(record: Payload, file: Path, previousFile: Option<Path>, indexOk: bool)
      returns (r: Result<Payload>)
      requires Indexable(record)
      requires previousFile.Some? ==> previousFile.value in disk
      modifies this
      ensures var plan := Plan(record, file, previousFile);
              && View() == (if indexOk then Commit(old(View()), plan) else RollBack(old(View()), plan))
              && r == if indexOk then Ok(record) else Err(Database)
    {
      var previousPayload := if previousFile.Some? then Some(disk[previousFile.value]) else None;
      WriteJson(file, record);
      var synced := SyncObject(record, file, file.tier, indexOk);
      if synced.Err? {
        if previousPayload.Some? {
          WriteJson(previousFile.value, previousPayload.value);
          if previousFile.value != file && file in disk {
            UnlinkFile(file);
          }
        } else if file in disk {
          UnlinkFile(file);
        }
        return Err(synced.error);
      }
      if previousFile.Some? && previousFile.value != file && previousFile.value in disk {
        UnlinkFile(previousFile.value);
      }
      r := Ok(record);
    }

    method CreateCandidateObject(payload: Payload, now: Time, indexOk: bool) returns (r: Result<Payload>)
      modifies this
      ensures (View(), r) == CreateCandidate(old(View()), payload, now, indexOk)
    {
      r := UpsertObject(payload.(status := Some(CANDIDATE)), Some("candidate"), now, indexOk);
    }

    method PromoteCandidate(candidateId: string, promotedBy: string, reason: Option<string>, now: Time, indexOk: bool)
      returns (r: Result<Payload>)
      modifies this
      ensures (View(), r) == Promote(old(View()), candidateId, promotedBy, reason, now, indexOk)
    {
      var id := Validate(candidateId);
      if id.None? {
        return Err(Invalid);
      }
      if id.value !in manifest {
        return Err(NotFound);
      }
      var row := manifest[id.value];
      if row.tier != Candidate {
        return Err(Invalid);
      }
      var item := LoadObjectFromRow(row);
      if item.Err? {
        return item;
      }
      r := UpsertObject(Promoted(item.value, id.value, promotedBy, reason, now), Some("canonical"), now, indexOk);
      if r.Ok? {
        UnlinkIfThere(row.file);
      }
    }

    method UnlinkIfThere(file: Path)
      modifies `disk
      ensures View() == Unlink(old(View()), file)
    {
      if file in disk {
        UnlinkFile(file);
      } else {
        assert disk - {file} == disk;
      }
    }

    method DeprecateObject(objectId: string, deprecatedBy: string, reason: string, supersededBy: Option<string>,
                           now: Time, indexOk: bool) returns (r: Result<Payload>)
      modifies this
      ensures (View(), r) == Deprecate(old(View()), objectId, deprecatedBy, reason, supersededBy, now, indexOk)
    {
      var id := Validate(objectId);
      if id.None? {
        return Err(Invalid);
      }
      if id.value !in manifest {
        return Err(NotFound);
      }
      var row := manifest[id.value];
      if row.tier == Deprecated {
        return Err(Invalid);
      }
      var item := LoadObjectFromRow(row);
      if item.Err? {
        return item;
      }
      var deprecated := DeprecatedForm(item.value, deprecatedBy, reason, supersededBy, now);
      r := UpsertObject(deprecated, Some("deprecated"), now, indexOk);
      if r.Ok? {
        UnlinkIfThere(row.file);
      }
    }

    /** rebuild_index: clear both tables, then migrate, validate and index file after file; the
        transaction for file number failAt raises. */
    method RebuildIndex(failAt: Option<nat>) returns (r: Result<nat>)
      modifies this
      ensures (View(), r) == RebuildUntil(old(View()), failAt)
    {
      hide RebuildUntil, Raises, LoopAt, IndexFileWith, Walk;
      manifest, fts := map[], [];
      var files := Walk(disk.Keys);
      var count := 0;
      ghost var start := old(View());
      LoopStart(start);
      while count < |files|
        invariant 0 <= count <= |files|
        invariant files == Walk(start.disk.Keys)
        invariant LoopAt(start, count, View())
        invariant failAt.Some? && failAt.value < count ==> !Raises(start, failAt.value)
      {
        LoopHasFiles(start, count, View());
        ghost var before := View();
        var indexed := MigrateAndIndex(files[count], failAt != Some(count));
        LoopTurn(start, count, before, View(), failAt, indexed);
        if indexed.Err? {
          return Err(indexed.error);
        }
        count := count + 1;
      }
      LoopEnd(start, View(), failAt);
      r := Ok(count);
    }

    /** One turn of the loop. */
    method MigrateAndIndex(file: Path, indexOk: bool) returns (indexed: Result<()>)
      requires file in disk
      modifies this
      ensures (View(), indexed) == IndexFileWith(old(View()), file, indexOk)
    {
      hide ValidateAs, Sync, Indexable;
      var payload, applied := ApplyMigrations(disk[file]);
      if applied != [] {
        WriteJson(file, payload);
      }
      CurrentIsMigrated(old(disk)[file]);
      assert disk == old(disk)[file := payload];
      var record := ValidateAs(file.objectType, payload);
      if record.None? {
        return Err(Invalid);
      }
      ValidatedIsRecord(file.objectType, payload);
      RecordIsIndexable(file.objectType, record.value);
      indexed := SyncObject(record.value, file, file.tier, indexOk);
      assert indexed.Ok? ==> indexed.value == ();
    }

    method RecoverManifestIfNeeded() returns (r: Result<nat>)
      modifies this
      ensures (View(), r) == Recover(old(View()))
    {
      var manifestFiles := set id | id in manifest :: manifest[id].file;
      if disk.Keys != manifestFiles {
        r := RebuildIndex(None);
      } else {
        r := Ok(0);
      }
    }

    /** The filter loop of search over the rows SQLite returned. It stops at `limit` hits; what it has
        warned about by then is about the rows it looked at, up to the last hit. */
    method Search(q: Query, f: Filters, ghost ranking: Ranking, rows: seq<string>, limit: int)
      returns (hits: seq<string>, warnings: set<string>, looked: nat)
      requires WellFormed(disk) && limit >= 1
      requires ValidRanking(View(), ranking) && rows == SearchRows(View(), ranking, f, limit * 4)
      requires Loaded(View(), rows)
      modifies this
      ensures View() == old(View())
      ensures hits == SearchHits(View(), q, f, ranking, limit)
      ensures looked <= |rows| && hits == HitsOf(View(), q, f, rows[..looked])
      ensures warnings == WarnedOf(View(), q, f, rows[..looked])
      ensures looked < |rows| ==> |hits| == limit
      ensures |hits| == limit ==> rows[looked - 1] == hits[limit - 1]
      ensures forall id :: id in hits ==>
                id in manifest && manifest[id].file in disk && (VersionPasses(f, FileOf(View(), id)) || id in warnings)
    {
      hide FileOk, SearchRows, TagsPass, VersionPasses, ExactLookup, EnvPasses, Inv, HitsOf, WarnedOf;
      hits, warnings, looked := [], {}, 0;
      ghost var start := View();
      NoRowsYet(start, q, f, rows);
      while looked < |rows|
        invariant View() == start && looked <= |rows| && |hits| < limit
        invariant hits == HitsOf(start, q, f, rows[..looked])
        invariant warnings == WarnedOf(start, q, f, rows[..looked])
      {
        var id := rows[looked];
        RowTurn(start, q, f, rows, looked);
        LoadIsPure(start, manifest[id]);
        var loaded := LoadObjectFromRow(manifest[id]);
        var item := loaded.value;
        looked := looked + 1;
        if !TagsPass(f, item) {
          continue;
        }
        if !VersionPasses(f, item) {
          if ExactLookup(q, item) {
            warnings := warnings + {id};
          } else {
            continue;
          }
        }
        if !EnvPasses(f, item) {
          continue;
        }
        hits := hits + [id];
        if |hits| >= limit {
          HitsGrow(start, q, f, rows, looked);
          HitsWarned(start, q, f, rows[..looked]);
          return;
        }
      }
      assert rows[..looked] == rows;
      HitsWarned(start, q, f, rows);
    }
  }

  lemma NoRowsYet(st: State, q: Query, f: Filters, rows: seq<string>)
    requires Loaded(st, rows)
    ensures HitsOf(st, q, f, rows[..0]) == [] && WarnedOf(st, q, f, rows[..0]) == {}
  {
  }

  /** What one more row adds to the hits and to the warnings. */
  lemma RowTurn(st: State, q: Query, f: Filters, rows: seq<string>, k: nat)
    requires Loaded(st, rows) && k < |rows|
    ensures HitsOf(st, q, f, rows[..k + 1]) ==
            HitsOf(st, q, f, rows[..k]) + if IsHit(q, f, FileOf(st, rows[k])) then [rows[k]] else []
    ensures WarnedOf(st, q, f, rows[..k + 1]) ==
            WarnedOf(st, q, f, rows[..k]) + if IsWarned(q, f, FileOf(st, rows[k])) then {rows[k]} else {}
  {
    hide IsHit, IsWarned, FileOf;
    assert rows[..k + 1] == rows[..k] + [rows[k]];
    assert rows[..k + 1][..k] == rows[..k];
  }

  lemma CurrentIsMigrated(p: Payload)
    ensures Current(p) ==> Migrate(p) == p
  {
  }

  /** IndexFile, and what is left when its transaction raises: the migrated file. */
  function IndexFileWith(st: State, file: Path, indexOk: bool): (State, Result<()>)
    requires file in st.disk
  {
    var (s2, ok) := IndexFile(st, file);
    if !ok then (s2, Err(Invalid))
    else if indexOk then (s2, Ok(()))
    else (Write(st, file, Migrate(st.disk[file])), Err(Database))
  }

  // ---------------------------------------------------------------- the rebuild loop

  /** s is the state of the loop after k files, none of which validation refused. */
  predicate LoopAt(start: State, k: nat, s: State) {
    var files := Walk(start.disk.Keys);
    k <= |files| && IndexFiles(Cleared(start), files[..k]) == (s, true)
  }

  lemma LoopStart(start: State)
    ensures LoopAt(start, 0, Cleared(start))
  {
    hide Walk;
    assert Walk(start.disk.Keys)[..0] == [];
  }

  lemma LoopHasFiles(start: State, k: nat, s: State)
    requires LoopAt(start, k, s)
    ensures s.disk.Keys == start.disk.Keys
    ensures forall f :: f in Walk(start.disk.Keys) ==> f in s.disk
  {
    hide Walk, IndexFiles;
    assert forall f :: f in Walk(start.disk.Keys) ==> f in start.disk.Keys;
  }

  /** A turn either goes on to the next file, and then the transaction did not raise, or ends the loop in
      the state and with the error of RebuildUntil. */
  lemma LoopTurn(start: State, k: nat, s: State, s2: State, failAt: Option<nat>, turn: Result<()>)
    requires LoopAt(start, k, s) && k < |Walk(start.disk.Keys)| && Walk(start.disk.Keys)[k] in s.disk
    requires (s2, turn) == IndexFileWith(s, Walk(start.disk.Keys)[k], failAt != Some(k))
    requires failAt.Some? && failAt.value < k ==> !Raises(start, failAt.value)
    ensures turn.Ok? ==> LoopAt(start, k + 1, s2)
    ensures turn.Ok? && failAt.Some? && failAt.value < k + 1 ==> !Raises(start, failAt.value)
    ensures turn.Err? ==> RebuildUntil(start, failAt) == (s2, Err(turn.error))
  {
    hide IndexFile, Before, Walk, ValidateAs, Migrate;
    var files := Walk(start.disk.Keys);
    var file := files[k];
    IndexFileRefuses(s, file);
    IndexFilesStep(Cleared(start), files, k);
    if turn.Err? {
      if turn.error == Invalid {
        StoppedStaysStopped(Cleared(start), files, k + 1);
        if failAt.Some? && failAt.value > k && failAt.value < |files| {
          StoppedBefore(Cleared(start), files, k + 1, failAt.value);
        }
      } else {
        assert Raises(start, k);
      }
    }
  }

  lemma IndexFileRefuses(s: State, file: Path)
    requires file in s.disk
    ensures IndexFile(s, file).1 <==> Read(s.disk, file).Some?
  {
    hide ValidateAs, RowOf, Sync;
  }

  lemma StoppedBefore(st: State, files: seq<Path>, k: nat, m: nat)
    requires (forall f :: f in files ==> f in st.disk) && k <= m <= |files|
    requires !IndexFiles(st, files[..k]).1
    ensures !IndexFiles(st, files[..m]).1
  {
    hide IndexFile, IndexFiles;
    assert files[..m][..k] == files[..k];
    StoppedStaysStopped(st, files[..m], k);
  }

  lemma LoopEnd(start: State, s: State, failAt: Option<nat>)
    requires LoopAt(start, |Walk(start.disk.Keys)|, s)
    requires failAt.Some? && failAt.value < |Walk(start.disk.Keys)| ==> !Raises(start, failAt.value)
    ensures RebuildUntil(start, failAt) == (s, Ok(|Walk(start.disk.Keys)|))
  {
    hide IndexFiles, Walk;
    var files := Walk(start.disk.Keys);
    assert files[..|files|] == files;
  }

  lemma IndexFilesStep(st: State, files: seq<Path>, k: nat)
    requires (forall f :: f in files ==> f in st.disk) && k < |files| && IndexFiles(st, files[..k]).1
    ensures IndexFiles(st, files[..k + 1]) == IndexFile(IndexFiles(st, files[..k]).0, files[k])
  {
    hide IndexFile;
    assert files[..k + 1][..k] == files[..k];
  }

  /** Once validation has refused a file the loop's result no longer depends on the rest. */
  lemma {:induction false} StoppedStaysStopped(st: State, files: seq<Path>, k: nat)
    requires (forall f :: f in files ==> f in st.disk) && k <= |files|
    requires !IndexFiles(st, files[..k]).1
    ensures IndexFiles(st, files) == IndexFiles(st, files[..k])
  {
    hide IndexFile;
    if k == |files| {
      assert files[..k] == files;
    } else {
      var n := |files| - 1;
      assert files[..n][..k] == files[..k];
      StoppedStaysStopped(st, files[..n], k);
    }
  }
}
