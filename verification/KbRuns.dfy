/**
 The store invariant and the theorem about whole runs: from an empty store, every id has exactly one
 file and the index is exactly the projection of the files, whatever operations ran and whichever of
 them failed, except for one: a rebuild whose transaction raises leaves files without rows, until the
 next opening.
 */
module KbRuns {
  import opened Wrappers
  import opened Identifiers
  import opened Listing
  import opened KbModel
  import opened KbSpec
  import opened KbIndex

  /** A file as upsert leaves it: a validated record, under its own id, in a tier its status fits. */
  predicate FileOk(p: Path, x: Payload) {
    IsRecord(p.objectType, x) && x.id == Some(p.name) && TierAgrees(p.tier, x)
  }

  predicate WellFormed(disk: map<Path, Payload>) {
    forall p :: p in disk ==> FileOk(p, disk[p])
  }

  predicate OneFile(disk: map<Path, Payload>) {
    forall p, q :: p in disk && q in disk && p.name == q.name ==> p == q
  }

  /** Rows point to files of their own id and know the tier they point into. */
  predicate Pointing(st: State) {
    forall id :: id in st.manifest ==> RowPoints(st, id)
  }

  predicate RowPoints(st: State, id: string)
    requires id in st.manifest
  {
    var row := st.manifest[id];
    row.file in st.disk && row.file.name == id && row.tier == row.file.tier
  }

  ghost predicate Inv(st: State) {
    WellFormed(st.disk) && OneFile(st.disk) && Synced(st)
  }

  // ---------------------------------------------------------------- consequences

  lemma FileReadsItself(disk: map<Path, Payload>, p: Path)
    requires WellFormed(disk) && p in disk
    ensures Read(disk, p) == Some(disk[p]) && Indexable(disk[p]) && Current(disk[p])
    ensures Validate(p.name) == Some(p.name)
  {
    RecordIsIndexable(p.objectType, disk[p]);
  }

  lemma HoldsIsName(disk: map<Path, Payload>, p: Path, id: string)
    requires WellFormed(disk)
    ensures Holds(disk, p, id) <==> p in disk && p.name == id
  {
    if p in disk {
      FileReadsItself(disk, p);
    }
  }

  lemma WellFormedLoads(disk: map<Path, Payload>)
    requires WellFormed(disk)
    ensures Loadable(disk) && MigrateAll(disk) == disk
  {
    forall p | p in disk ensures Read(disk, p).Some? && Migrate(disk[p]) == disk[p] {
      RecordIsIndexable(p.objectType, disk[p]);
    }
  }

  lemma SyncedPoints(st: State)
    requires WellFormed(st.disk) && Synced(st)
    ensures Pointing(st)
  {
    forall id | id in st.manifest ensures RowPoints(st, id) {
      assert LastOf(st.disk, st.disk.Keys, st.manifest[id].file, id) && RowIsOf(st, id);
      HoldsIsName(st.disk, st.manifest[id].file, id);
    }
  }

  /** Reading through a row never writes once files are in the current schema. */
  lemma LoadIsPure(st: State, row: Row)
    requires WellFormed(st.disk) && row.file in st.disk
    ensures Load(st, row) == (st, Ok(st.disk[row.file]))
  {
    FileReadsItself(st.disk, row.file);
  }

  lemma GetIsPure(st: State, id: string)
    requires WellFormed(st.disk) && Pointing(st)
    ensures Get(st, id).0 == st
    ensures id in st.manifest && Validate(id) == Some(id) ==> Get(st, id).1 == Ok(st.disk[st.manifest[id].file])
  {
    hide FileOk;
    if Validate(id).Some? && Validate(id).value in st.manifest {
      assert RowPoints(st, Validate(id).value);
      LoadIsPure(st, st.manifest[Validate(id).value]);
    }
  }

  // ---------------------------------------------------------------- agreement by file name

  /** The last file of its name, in walking order. */
  ghost predicate LastOfName(disk: map<Path, Payload>, p: Path) {
    p in disk && forall q :: q in disk && q.name == p.name ==> q == p || Before(q, p)
  }

  ghost predicate RowPlain(st: State, id: string) {
    && id in st.manifest
    && var file := st.manifest[id].file;
    && file.name == id && LastOfName(st.disk, file)
    && Indexable(st.disk[file]) && st.manifest[id] == RowOf(st.disk[file], file, file.tier)
  }

  predicate FtsPlain(st: State, r: FtsRow) {
    r.id in st.manifest && st.manifest[r.id].file in st.disk && r.document == st.disk[st.manifest[r.id].file]
  }

  ghost predicate FtsAll(st: State) {
    && DistinctIds(st.fts)
    && (forall r :: r in st.fts ==> FtsPlain(st, r))
    && (forall id :: id in st.manifest ==> exists i :: 0 <= i < |st.fts| && st.fts[i].id == id)
  }

  /** Synced, said of well-formed files: a file's id is its name and it reads as itself. */
  ghost predicate PlainSynced(st: State) {
    && (forall id :: id in st.manifest ==> RowPlain(st, id))
    && (forall p :: p in st.disk ==> p.name in st.manifest)
    && FtsAll(st)
  }

  lemma RowPlainIff(st: State, id: string)
    requires WellFormed(st.disk) && id in st.manifest
    ensures RowPlain(st, id) <==> LastOf(st.disk, st.disk.Keys, st.manifest[id].file, id) && RowIsOf(st, id)
  {
    hide FileOk, RowOf, Before, Read, Indexable, Holds;
    var file := st.manifest[id].file;
    HoldsIsName(st.disk, file, id);
    if file in st.disk { FileReadsItself(st.disk, file); }
    forall q ensures Holds(st.disk, q, id) <==> q in st.disk && q.name == id {
      HoldsIsName(st.disk, q, id);
    }
  }

  lemma FtsAllIff(st: State)
    requires WellFormed(st.disk)
    ensures FtsAll(st) <==> FtsMirrors(st)
  {
    hide FileOk, RowOf, Before, Read;
    forall r ensures FtsPlain(st, r) <==> FtsRowIsOf(st, r) {
      if r.id in st.manifest && st.manifest[r.id].file in st.disk {
        FileReadsItself(st.disk, st.manifest[r.id].file);
      }
    }
  }

  lemma PlainIff(st: State)
    requires WellFormed(st.disk)
    ensures PlainSynced(st) <==> Synced(st)
  {
    hide FileOk, RowOf, Before, Read, RowPlain, FtsAll, FtsMirrors, LastOf, RowIsOf, Holds;
    FtsAllIff(st);
    forall id | id in st.manifest
      ensures RowPlain(st, id) <==> LastOf(st.disk, st.disk.Keys, st.manifest[id].file, id) && RowIsOf(st, id)
    {
      RowPlainIff(st, id);
    }
    forall p, id ensures Holds(st.disk, p, id) <==> p in st.disk && p.name == id {
      HoldsIsName(st.disk, p, id);
    }
    assert (forall p :: p in st.disk ==> p.name in st.manifest)
      <==> (forall p, id :: p in st.disk.Keys && Holds(st.disk, p, id) ==> id in st.manifest) by {
      if forall p, id :: p in st.disk.Keys && Holds(st.disk, p, id) ==> id in st.manifest {
        forall p | p in st.disk ensures p.name in st.manifest {
          assert Holds(st.disk, p, p.name);
        }
      }
    }
  }

  // ---------------------------------------------------------------- upsert

  function RowFile(st: State, id: string): Option<Path> {
    if id in st.manifest then Some(st.manifest[id].file) else None
  }

  /** What a plan made on a well-formed store is: nothing has been written, the record fits its file,
      and the previous file is the one the id's row names. */
  lemma PlanIsPure(st: State, payload: Payload, tier: Option<string>, now: Time)
    requires WellFormed(st.disk) && Pointing(st)
    ensures PlanUpsert(st, payload, tier, now).0 == st
    ensures PlanUpsert(st, payload, tier, now).1.Ok? ==>
              var pl := PlanUpsert(st, payload, tier, now).1.value;
              FileOk(pl.file, pl.record) && Indexable(pl.record) && pl.previous == RowFile(st, pl.file.name)
  {
    hide FileOk, ValidateAs, Prepare, IsRecord, TierAgrees, Indexable, IsIdentifier, Load;
    var look := LookUp(st, payload.id);
    if look.Ok? && look.value.Some? {
      var n := Validate(payload.id.value).value;
      assert RowPoints(st, n);
      LoadIsPure(st, look.value.value);
    }
    if PlanUpsert(st, payload, tier, now).1.Ok? {
      PlanIsRecord(st, payload, tier, now);
      PlanFile(st, payload, tier, now);
    }
  }

  lemma PlanFile(st: State, payload: Payload, tier: Option<string>, now: Time)
    requires PlanUpsert(st, payload, tier, now).1.Ok?
    ensures var pl := PlanUpsert(st, payload, tier, now).1.value;
            && FileOk(pl.file, pl.record)
            && payload.id.Some? && payload.id.value != "" && LookUp(st, payload.id) == Ok(Fetch(st, pl.file.name))
  {
    hide ValidateAs, Prepare;
    PlanIsRecord(st, payload, tier, now);
    var pl := PlanUpsert(st, payload, tier, now).1.value;
    RecordIsIndexable(pl.file.objectType, pl.record);
    assert pl.file.name != "";
  }

  /** One object's rows and files replaced: the rest of a synced index stays as it was. */
  lemma CommitSyncs(st: State, plan: Plan)
    requires Inv(st) && FileOk(plan.file, plan.record) && Indexable(plan.record)
    requires plan.previous == RowFile(st, plan.file.name)
    ensures Inv(Commit(st, plan))
  {
    hide FileOk, Synced, WellFormed, Indexable, Before, Without, RowOf;
    CommitWellFormed(st, plan);
    OnlyRowFile(st, plan.file.name);
    CommitSyncsExactly(st, plan);
  }

  lemma CommitWellFormed(st: State, plan: Plan)
    requires WellFormed(st.disk) && FileOk(plan.file, plan.record) && Indexable(plan.record)
    ensures WellFormed(Commit(st, plan).disk)
  {
    hide FileOk;
  }

  lemma OnlyRowFile(st: State, id: string)
    requires Inv(st)
    ensures forall q :: q in st.disk && q.name == id ==> RowFile(st, id) == Some(q)
  {
    SyncedPoints(st);
    forall q | q in st.disk && q.name == id ensures RowFile(st, id) == Some(q) {
      HoldsIsName(st.disk, q, id);
      assert id in st.manifest;
      assert RowPoints(st, id);
    }
  }

  /** A leftover of id: a file of that id that the upsert neither replaces nor unlinks. */
  predicate Leftover(st: State, plan: Plan, q: Path) {
    q in st.disk && q.name == plan.file.name && q != plan.file && plan.previous != Some(q)
  }

  lemma OtherRowKept(st: State, plan: Plan, other: string)
    requires PlainSynced(st) && Indexable(plan.record) && plan.record.id == Some(plan.file.name)
    requires plan.previous == RowFile(st, plan.file.name)
    requires other in st.manifest && other != plan.file.name
    ensures var s2 := Commit(st, plan);
            && RowPlain(s2, other) && s2.manifest[other] == st.manifest[other]
            && s2.disk[s2.manifest[other].file] == st.disk[s2.manifest[other].file]
  {
    hide RowOf, Before, FtsAll, Indexable;
    assert RowPlain(st, other);
    if plan.file.name in st.manifest { assert RowPlain(st, plan.file.name); }
  }

  /** The FTS half of an index transaction, whatever happened to the files meanwhile, as long as the
      other rows still name the same contents. */
  lemma FtsStep(st: State, s2: State, row: FtsRow)
    requires FtsAll(st) && FtsPlain(s2, row)
    requires s2.fts == Without(st.fts, row.id) + [row]
    requires s2.manifest.Keys == st.manifest.Keys + {row.id}
    requires forall r :: r in st.fts && r.id != row.id ==> FtsPlain(s2, r)
    ensures FtsAll(s2)
  {
    hide FtsPlain;
    WithoutThenAdd(st.fts, row);
    forall k | k in s2.manifest ensures exists i :: 0 <= i < |s2.fts| && s2.fts[i].id == k {
      if k == row.id {
        assert s2.fts[|s2.fts| - 1].id == k;
      } else {
        var i :| 0 <= i < |st.fts| && st.fts[i].id == k;
        assert st.fts[i] in s2.fts;
      }
    }
  }

  lemma CommitFts(st: State, plan: Plan)
    requires PlainSynced(st) && Indexable(plan.record) && plan.record.id == Some(plan.file.name)
    requires plan.previous == RowFile(st, plan.file.name)
    ensures FtsAll(Commit(st, plan))
  {
    hide RowOf, Indexable, RowPlain, Without, Before, DistinctIds;
    var s2 := Commit(st, plan);
    var id := plan.file.name;
    RowOfFile(plan.record, plan.file, plan.file.tier);
    forall r | r in st.fts && r.id != id ensures FtsPlain(s2, r) {
      assert FtsPlain(st, r);
      OtherRowKept(st, plan, r.id);
      RowPlainFile(s2, r.id);
    }
    FtsStep(st, s2, FtsRow(id, plan.record));
  }

  lemma RowOfFile(p: Payload, file: Path, tier: Tier)
    requires Indexable(p)
    ensures RowOf(p, file, tier).file == file && RowOf(p, file, tier).tier == tier
    ensures RowOf(p, file, tier).id == p.id.value
  {
  }

  lemma RowPlainFile(st: State, id: string)
    requires RowPlain(st, id)
    ensures st.manifest[id].file in st.disk && st.manifest[id].file.name == id
    ensures st.manifest[id].tier == st.manifest[id].file.tier
  {
  }

  lemma NewRowExactly(st: State, plan: Plan)
    requires Indexable(plan.record) && plan.record.id == Some(plan.file.name)
    ensures RowPlain(Commit(st, plan), plan.file.name)
            <==> forall q :: Leftover(st, plan, q) ==> Before(q, plan.file)
  {
    var s2 := Commit(st, plan);
    RowOfFile(plan.record, plan.file, plan.file.tier);
    hide RowOf, Before, Indexable, Without;
    assert RowPlain(s2, plan.file.name) <==> LastOfName(s2.disk, plan.file);
    assert forall q :: q in s2.disk && q.name == plan.file.name <==> q == plan.file || Leftover(st, plan, q);
  }

  lemma CommitPlainExactly(st: State, plan: Plan)
    requires PlainSynced(st) && Indexable(plan.record) && plan.record.id == Some(plan.file.name)
    requires plan.previous == RowFile(st, plan.file.name)
    ensures PlainSynced(Commit(st, plan)) <==> forall q :: Leftover(st, plan, q) ==> Before(q, plan.file)
  {
    hide RowOf, Before, FtsAll, Indexable, RowPlain, Without;
    var s2 := Commit(st, plan);
    CommitFts(st, plan);
    NewRowExactly(st, plan);
    forall other | other in st.manifest && other != plan.file.name ensures RowPlain(s2, other) {
      OtherRowKept(st, plan, other);
    }
    assert forall p :: p in s2.disk ==> p == plan.file || p in st.disk;
  }

  /** On a synced store that may hold several files of an id, a completed upsert keeps the index in
      agreement exactly when no leftover of the id comes after the new file. */
  lemma CommitSyncsExactly(st: State, plan: Plan)
    requires WellFormed(st.disk) && Synced(st)
    requires FileOk(plan.file, plan.record) && Indexable(plan.record)
    requires plan.previous == RowFile(st, plan.file.name)
    ensures Synced(Commit(st, plan)) <==> forall q :: Leftover(st, plan, q) ==> Before(q, plan.file)
  {
    hide RowOf, Before, Indexable, IsRecord, Synced, PlainSynced, TierAgrees;
    CommitWellFormed(st, plan);
    PlainIff(st);
    PlainIff(Commit(st, plan));
    CommitPlainExactly(st, plan);
  }

  /** A failed index transaction leaves the store as it was exactly when the target file was the
      row's own or did not exist; in every state of a run one of the two holds. */
  lemma FailedUpsertExact(st: State, payload: Payload, tier: Option<string>, now: Time)
    requires WellFormed(st.disk) && Pointing(st)
    ensures var (s2, r) := Upsert(st, payload, tier, now, false);
            && r.Err? && s2.manifest == st.manifest && s2.fts == st.fts
            && (PlanUpsert(st, payload, tier, now).1.Err? ==> s2 == st)
            && (PlanUpsert(st, payload, tier, now).1.Ok? ==>
                  var pl := PlanUpsert(st, payload, tier, now).1.value;
                  s2 == st <==> RowFile(st, pl.file.name) == Some(pl.file) || pl.file !in st.disk)
  {
    hide FileOk;
    PlanIsPure(st, payload, tier, now);
  }

  lemma FailedUpsertIsNoop(st: State, payload: Payload, tier: Option<string>, now: Time)
    requires Inv(st)
    ensures Upsert(st, payload, tier, now, false).0 == st
  {
    hide FileOk;
    SyncedPoints(st);
    FailedUpsertExact(st, payload, tier, now);
    if PlanUpsert(st, payload, tier, now).1.Ok? {
      OnlyRowFile(st, PlanUpsert(st, payload, tier, now).1.value.file.name);
    }
  }

  lemma UpsertKeepsInv(st: State, payload: Payload, tier: Option<string>, now: Time, indexOk: bool)
    requires Inv(st)
    ensures Inv(Upsert(st, payload, tier, now, indexOk).0)
  {
    hide FileOk, Inv, PlanUpsert, Indexable;
    assert WellFormed(st.disk) && Pointing(st) by { SyncedPointsInv(st); }
    PlanIsPure(st, payload, tier, now);
    if indexOk {
      if PlanUpsert(st, payload, tier, now).1.Ok? {
        CommitSyncs(st, PlanUpsert(st, payload, tier, now).1.value);
      }
    } else {
      FailedUpsertIsNoop(st, payload, tier, now);
    }
  }

  lemma SyncedPointsInv(st: State)
    requires Inv(st)
    ensures WellFormed(st.disk) && Pointing(st)
  {
    SyncedPoints(st);
  }

  /** A successful upsert, seen from outside: the record is what get returns for its id, and no other
      id is affected; a failed one affects nothing. */
  lemma UpsertThenGet(st: State, payload: Payload, tier: Option<string>, now: Time, indexOk: bool)
    requires Inv(st)
    ensures var (s2, r) := Upsert(st, payload, tier, now, indexOk);
            && (r.Err? ==> s2 == st)
            && (r.Ok? ==> r.value.id.Some? && s2.manifest.Keys == st.manifest.Keys + {r.value.id.value}
                          && Get(s2, r.value.id.value) == (s2, r))
            && (forall other :: Some(other) != (if r.Ok? then r.value.id else None) && other in st.manifest ==>
                  Get(s2, other).1 == Get(st, other).1)
  {
    hide FileOk, Inv, Synced;
    SyncedPointsInv(st);
    PlanIsPure(st, payload, tier, now);
    UpsertKeepsInv(st, payload, tier, now, indexOk);
    var (s2, r) := Upsert(st, payload, tier, now, indexOk);
    SyncedPointsInv(s2);
    if r.Ok? {
      var pl := PlanUpsert(st, payload, tier, now).1.value;
      PlanIsRecord(st, payload, tier, now);
      RecordIsIndexable(pl.file.objectType, pl.record);
      GetIsPure(s2, pl.file.name);
      forall other | other != pl.file.name && other in st.manifest ensures Get(s2, other).1 == Get(st, other).1 {
        assert Inv(st);
        CommitKeepsOther(st, pl, other);
        IdIsName(st, other);
        GetIsPure(st, other);
        GetIsPure(s2, other);
      }
    } else if !indexOk {
      FailedUpsertIsNoop(st, payload, tier, now);
    }
  }

  lemma CommitKeepsOther(st: State, plan: Plan, other: string)
    requires Inv(st) && FileOk(plan.file, plan.record) && Indexable(plan.record)
    requires plan.previous == RowFile(st, plan.file.name)
    requires other in st.manifest && other != plan.file.name
    ensures var s2 := Commit(st, plan);
            && other in s2.manifest && s2.manifest[other] == st.manifest[other]
            && s2.manifest[other].file in s2.disk
            && s2.disk[s2.manifest[other].file] == st.disk[s2.manifest[other].file]
  {
    hide FileOk, RowOf, Before;
    PlainIff(st);
    assert plan.record.id == Some(plan.file.name) by { FileOkName(plan.file, plan.record); }
    OtherRowKept(st, plan, other);
    RowPlainFile(Commit(st, plan), other);
  }

  lemma FileOkName(p: Path, x: Payload)
    requires FileOk(p, x)
    ensures x.id == Some(p.name)
  {
  }

  lemma IdIsName(st: State, id: string)
    requires WellFormed(st.disk) && Pointing(st) && id in st.manifest
    ensures Validate(id) == Some(id)
  {
    assert RowPoints(st, id);
    FileReadsItself(st.disk, st.manifest[id].file);
  }

  // ---------------------------------------------------------------- promotion and deprecation

  /** An upsert that takes an id to another tier has already unlinked the file its row named, so the
      second unlink of promote and deprecate finds nothing. */
  lemma MoveUnlinks(st: State, n: string, payload: Payload, tier: string, now: Time, indexOk: bool)
    requires WellFormed(st.disk) && Pointing(st) && n in st.manifest && payload.id == Some(n) && tier != ""
    requires ParseTier(tier).Some? && ParseTier(tier) != Some(st.manifest[n].tier)
    requires Upsert(st, payload, Some(tier), now, indexOk).1.Ok?
    ensures var (s2, r) := Upsert(st, payload, Some(tier), now, indexOk);
            && Unlink(s2, st.manifest[n].file) == s2
            && n in s2.manifest && s2.manifest[n].file.tier == ParseTier(tier).value
            && s2.manifest[n].file in s2.disk && s2.disk[s2.manifest[n].file] == r.value
  {
    hide FileOk, PlanUpsert, Indexable, RowOf, Without;
    assert RowPoints(st, n);
    IdIsName(st, n);
    PlanIsPure(st, payload, Some(tier), now);
    PlanIsRecord(st, payload, Some(tier), now);
    var pl := PlanUpsert(st, payload, Some(tier), now).1.value;
    RowOfFile(pl.record, pl.file, pl.file.tier);
    var s2 := Commit(st, pl);
    assert st.manifest[n].file !in s2.disk;
    assert s2.disk - {st.manifest[n].file} == s2.disk;
  }

  /** What promote and deprecate read and then upsert, on a store of a run. */
  lemma RowItem(st: State, n: string)
    requires Inv(st) && n in st.manifest
    ensures var row := st.manifest[n];
            && row.file in st.disk && Load(st, row) == (st, Ok(st.disk[row.file]))
            && st.disk[row.file].id == Some(n) && row.file.name == n && row.tier == row.file.tier
  {
    hide Synced;
    SyncedPointsInv(st);
    assert RowPoints(st, n);
    LoadIsPure(st, st.manifest[n]);
  }

  lemma PromoteKeepsInv(st: State, id: string, actor: string, reason: Option<string>, now: Time, indexOk: bool)
    requires Inv(st)
    ensures var (s2, r) := Promote(st, id, actor, reason, now, indexOk);
            && Inv(s2)
            && (r.Err? ==> s2 == st)
            && (r.Ok? ==>
                  && Validate(id).Some? && Validate(id).value in st.manifest
                  && st.manifest[Validate(id).value].tier == Candidate
                  && Get(s2, Validate(id).value) == (s2, r)
                  && s2.manifest[Validate(id).value].tier == Canonical)
  {
    hide Inv, FileOk, Upsert, Promoted, RowOf;
    if Validate(id).Some? && Validate(id).value in st.manifest && st.manifest[Validate(id).value].tier == Candidate {
      var n := Validate(id).value;
      RowItem(st, n);
      var p := Promoted(st.disk[st.manifest[n].file], n, actor, reason, now);
      assert p.id == Some(n) by { PromotedId(st.disk[st.manifest[n].file], n, actor, reason, now); }
      MoveKeepsInv(st, n, p, "canonical", now, indexOk);
    }
  }

  lemma PromotedId(item: Payload, n: string, actor: string, reason: Option<string>, now: Time)
    ensures Promoted(item, n, actor, reason, now).id == item.id
  {
  }

  lemma DeprecatedId(item: Payload, actor: string, reason: string, supersededBy: Option<string>, now: Time)
    ensures DeprecatedForm(item, actor, reason, supersededBy, now).id == item.id
  {
  }

  lemma MoveKeepsInv(st: State, n: string, p: Payload, tier: string, now: Time, indexOk: bool)
    requires Inv(st) && n in st.manifest && p.id == Some(n) && tier != ""
    requires ParseTier(tier).Some? && ParseTier(tier) != Some(st.manifest[n].tier)
    ensures var (s2, r) := Upsert(st, p, Some(tier), now, indexOk);
            && Inv(s2) && (r.Err? ==> s2 == st)
            && (r.Ok? ==> Unlink(s2, st.manifest[n].file) == s2 && r.value.id == Some(n) && Get(s2, n) == (s2, r)
                          && n in s2.manifest && Some(s2.manifest[n].tier) == ParseTier(tier))
  {
    hide Inv, FileOk, Upsert, RowOf, Synced;
    UpsertKeepsInv(st, p, Some(tier), now, indexOk);
    UpsertThenGet(st, p, Some(tier), now, indexOk);
    var (s2, r) := Upsert(st, p, Some(tier), now, indexOk);
    if r.Ok? {
      UpsertedId(st, p, Some(tier), now, indexOk);
      IdIsNameInv(st, n);
      SyncedPointsInv(st);
      MoveUnlinks(st, n, p, tier, now, indexOk);
      RowItem(s2, n);
    }
  }

  lemma IdIsNameInv(st: State, id: string)
    requires Inv(st) && id in st.manifest
    ensures Validate(id) == Some(id)
  {
    SyncedPointsInv(st);
    IdIsName(st, id);
  }

  lemma UpsertedId(st: State, p: Payload, tier: Option<string>, now: Time, indexOk: bool)
    requires Upsert(st, p, tier, now, indexOk).1.Ok?
    ensures p.id.Some? && Upsert(st, p, tier, now, indexOk).1.value.id == Validate(p.id.value)
  {
    hide PlanUpsert, Commit, RollBack, IsRecord, Indexable, TierAgrees;
    PlanIsRecord(st, p, tier, now);
  }

  lemma DeprecateKeepsInv(st: State, id: string, actor: string, reason: string, supersededBy: Option<string>,
                          now: Time, indexOk: bool)
    requires Inv(st)
    ensures var (s2, r) := Deprecate(st, id, actor, reason, supersededBy, now, indexOk);
            && Inv(s2)
            && (r.Err? ==> s2 == st)
            && (r.Ok? ==>
                  && Validate(id).Some? && Validate(id).value in st.manifest
                  && st.manifest[Validate(id).value].tier != Deprecated
                  && Get(s2, Validate(id).value) == (s2, r)
                  && s2.manifest[Validate(id).value].tier == Deprecated)
  {
    hide Inv, FileOk, Upsert, DeprecatedForm, RowOf;
    if Validate(id).Some? && Validate(id).value in st.manifest && st.manifest[Validate(id).value].tier != Deprecated {
      var n := Validate(id).value;
      RowItem(st, n);
      var p := DeprecatedForm(st.disk[st.manifest[n].file], actor, reason, supersededBy, now);
      assert p.id == Some(n) by { DeprecatedId(st.disk[st.manifest[n].file], actor, reason, supersededBy, now); }
      MoveKeepsInv(st, n, p, "deprecated", now, indexOk);
    }
  }

  // ---------------------------------------------------------------- runs

  /** The operations of a store; indexOk says whether the index transaction goes through, and failAt for
      which of the files, if any, that of a rebuild raises. */
  datatype Op =
    | OpUpsert(payload: Payload, tierName: Option<string>, now: Time, indexOk: bool)
    | OpCreate(payload: Payload, now: Time, indexOk: bool)
    | OpPromote(id: string, actor: string, note: Option<string>, now: Time, indexOk: bool)
    | OpDeprecate(id: string, actor: string, reason: string, supersededBy: Option<string>, now: Time, indexOk: bool)
    | OpGet(id: string)
    | OpRebuild(failAt: Option<nat>)
    | OpReopen

  function Step(st: State, op: Op): State {
    match op
    case OpUpsert(p, tier, now, ok) => Upsert(st, p, tier, now, ok).0
    case OpCreate(p, now, ok) => CreateCandidate(st, p, now, ok).0
    case OpPromote(id, actor, note, now, ok) => Promote(st, id, actor, note, now, ok).0
    case OpDeprecate(id, actor, reason, by_, now, ok) => Deprecate(st, id, actor, reason, by_, now, ok).0
    case OpGet(id) => Get(st, id).0
    case OpRebuild(failAt) => RebuildUntil(st, failAt).0
    case OpReopen => Recover(st).0
  }

  function Run(st: State, ops: seq<Op>): State {
    if ops == [] then st else Step(Run(st, ops[..|ops| - 1]), ops[|ops| - 1])
  }

  /** On a store of a run a rebuild changes nothing but, at most, the order of FTS rows. */
  lemma RebuildIsIdentity(st: State)
    requires Inv(st)
    ensures Rebuild(st).1 == Ok(|st.disk|) && Rebuild(st).0.disk == st.disk && SameIndex(Rebuild(st).0, st)
    ensures Inv(Rebuild(st).0)
  {
    hide FileOk, Synced;
    WellFormedLoads(st.disk);
    RebuildKeepsSynced(st);
    RebuildSyncs(st);
  }

  lemma EmptyInv()
    ensures Inv(EMPTY)
  {
    PlainIff(EMPTY);
  }

  // ---------------------------------------------------------------- a rebuild that raises

  lemma RaisesExactly(st: State, k: nat)
    requires WellFormed(st.disk)
    ensures Raises(st, k) <==> k < |st.disk|
  {
    hide FileOk, ValidateAs, Migrate, IndexFiles, SyncedOn;
    var files := Walk(st.disk.Keys);
    WellFormedLoads(st.disk);
    WalkIsAll(st);
    if k < |files| {
      assert files[k] in files;
      IndexFilesSyncs(st, files[..k]);
    }
  }

  /** What a rebuild leaves when the transaction of file number k raises: all files, and no row for that
      one, since the rows were all deleted first. */
  lemma RaisedState(st: State, k: nat)
    requires Inv(st) && Raises(st, k)
    ensures RebuildUntil(st, Some(k)).0.disk == st.disk
    ensures k < |Walk(st.disk.Keys)| && Walk(st.disk.Keys)[k] in st.disk
    ensures Walk(st.disk.Keys)[k].name !in RebuildUntil(st, Some(k)).0.manifest
  {
    hide FileOk, Synced, IndexFiles, Walk, Before, ReadsAlike, Walked, Loadable;
    var files := Walk(st.disk.Keys);
    assert files[k] in files;
    WellFormedLoads(st.disk);
    IndexFilesSyncs(st, files[..k]);
    var part := IndexFiles(Cleared(st), files[..k]).0;
    WalkedIsSame(st.disk, files[..k], part);
    UnwalkedIsUnnamed(st.disk, files, k, part);
    var r := RebuildUntil(st, Some(k)).0;
    assert r.manifest == part.manifest;
    assert r.disk == part.disk[files[k] := Migrate(part.disk[files[k]])];
    assert MigrateAll(st.disk)[files[k]] == st.disk[files[k]];
  }

  /** Of a store with one file per id, a loop that has not come to a file has no row for its id. */
  lemma UnwalkedIsUnnamed(disk: map<Path, Payload>, files: seq<Path>, k: nat, s: State)
    requires WellFormed(disk) && OneFile(disk) && Lists(files, disk.Keys) && k < |files|
    requires Walked(disk, files[..k], s) && s.disk == disk
    ensures files[k].name !in s.manifest
  {
    hide FileOk, Before, ReadsAlike, RowIsOf, FtsMirrors, Holds;
    assert files[k] in files;
    if files[k].name in s.manifest {
      var q := s.manifest[files[k].name].file;
      assert LastOf(disk, FileSet(files[..k]), q, files[k].name);
      HoldsIsName(disk, q, files[k].name);
      var i :| 0 <= i < k && files[..k][i] == q;
      WalkDistinct(files, disk.Keys, i, k);
    }
  }

  lemma WalkedIsSame(disk: map<Path, Payload>, files: seq<Path>, s: State)
    requires Walked(disk, files, s) && MigrateAll(disk) == disk
    ensures s.disk == disk
  {
    hide Migrate, Read, SyncedOn;
    forall p | p in disk ensures s.disk[p] == disk[p] {
      assert MigrateAll(disk)[p] == Migrate(disk[p]);
    }
  }

  lemma InvNames(st: State, p: Path)
    requires Inv(st) && p in st.disk
    ensures p.name in st.manifest
  {
    hide FileOk, RowPlain, FtsAll;
    PlainIff(st);
  }

  /** On a store of a run a rebuild keeps the invariant exactly when none of its transactions raises. */
  lemma RebuildKeepsInvExactly(st: State, failAt: Option<nat>)
    requires Inv(st)
    ensures Inv(RebuildUntil(st, failAt).0) <==> !(failAt.Some? && failAt.value < |st.disk|)
    ensures failAt.Some? ==> (Raises(st, failAt.value) <==> failAt.value < |st.disk|)
  {
    hide Inv, Raises, RebuildUntil;
    if failAt.Some? {
      RaisesExactlyInv(st, failAt.value);
    }
    if failAt.Some? && Raises(st, failAt.value) {
      RaisedState(st, failAt.value);
      var p := Walk(st.disk.Keys)[failAt.value];
      if Inv(RebuildUntil(st, failAt).0) {
        InvNames(RebuildUntil(st, failAt).0, p);
      }
    } else {
      assert RebuildUntil(st, failAt) == Rebuild(st) by { NotRaised(st, failAt); }
      RebuildIsIdentity(st);
    }
  }

  lemma RaisesExactlyInv(st: State, k: nat)
    requires Inv(st)
    ensures Raises(st, k) <==> k < |st.disk|
  {
    hide Raises, Synced, OneFile;
    RaisesExactly(st, k);
  }

  lemma NotRaised(st: State, failAt: Option<nat>)
    requires failAt.None? || !Raises(st, failAt.value)
    ensures RebuildUntil(st, failAt) == Rebuild(st)
  {
    hide Raises, Rebuild;
  }

  /** The next opening makes it good. */
  lemma RaisedReopens(st: State, k: nat)
    requires Inv(st) && Raises(st, k)
    ensures Inv(Recover(RebuildUntil(st, Some(k)).0).0)
  {
    hide FileOk, Raises, RebuildUntil, Rebuild, Recover, Synced;
    RaisedRebuildConverges(st, k);
    RebuildIsIdentity(st);
    SameIndexSynced(Rebuild(st).0, Recover(RebuildUntil(st, Some(k)).0).0);
  }

  predicate Raising(st: State, op: Op) {
    op.OpRebuild? && op.failAt.Some? && Raises(st, op.failAt.value)
  }

  lemma StepKeepsInv(st: State, op: Op)
    requires Inv(st)
    ensures Inv(Step(st, op)) <==> !Raising(st, op)
  {
    hide Inv, Upsert, Promote, Deprecate, Rebuild, RebuildUntil, ManifestFiles, WellFormed, Pointing, Validate, Load;
    hide Raises;
    match op
    case OpUpsert(p, tier, now, ok) => UpsertKeepsInv(st, p, tier, now, ok);
    case OpCreate(p, now, ok) => UpsertKeepsInv(st, p.(status := Some(CANDIDATE)), Some("candidate"), now, ok);
    case OpPromote(id, actor, note, now, ok) => PromoteKeepsInv(st, id, actor, note, now, ok);
    case OpDeprecate(id, actor, reason, by_, now, ok) => DeprecateKeepsInv(st, id, actor, reason, by_, now, ok);
    case OpGet(id) => SyncedPointsInv(st); GetIsPure(st, id);
    case OpRebuild(failAt) => RebuildKeepsInvExactly(st, failAt);
    case OpReopen => RebuildIsIdentity(st);
  }

  /** The last operation of the run is a rebuild that raises. */
  predicate Raised(ops: seq<Op>) {
    ops != [] && Raising(Run(EMPTY, ops[..|ops| - 1]), ops[|ops| - 1])
  }

  /** Every rebuild that raises, unless it comes last, is followed by an opening. */
  predicate Repaired(ops: seq<Op>) {
    forall i :: 0 < i < |ops| && Raised(ops[..i]) ==> ops[i].OpReopen?
  }

  lemma RepairedBefore(ops: seq<Op>, n: nat)
    requires Repaired(ops) && n <= |ops|
    ensures Repaired(ops[..n])
  {
    hide Raised;
    forall i | 0 < i < n && Raised(ops[..n][..i]) ensures ops[..n][i].OpReopen? {
      assert ops[..n][..i] == ops[..i];
    }
  }

  /** From an empty store, after any run in which raised rebuilds are followed by openings: one file per
      id and the index the projection of the files, exactly unless the run ends in a raised rebuild. */
  lemma {:induction false} RunKeepsInv(ops: seq<Op>)
    requires Repaired(ops)
    ensures Inv(Run(EMPTY, ops)) <==> !Raised(ops)
    decreases |ops|
  {
    hide Inv, Step, Raising;
    if ops == [] {
      EmptyInv();
    } else {
      var n := |ops| - 1;
      var st := Run(EMPTY, ops[..n]);
      RepairedBefore(ops, n);
      RunKeepsInv(ops[..n]);
      if Raised(ops[..n]) {
        assert ops[n].OpReopen?;
        RunRepairs(ops);
      } else {
        StepKeepsInv(st, ops[n]);
      }
    }
  }

  lemma RepairedAt(ops: seq<Op>, m: nat)
    requires Repaired(ops) && m < |ops| && !ops[m].OpReopen?
    ensures !Raised(ops[..m])
  {
  }

  lemma {:induction false} RunRepairs(ops: seq<Op>)
    requires Repaired(ops) && |ops| >= 2 && Raised(ops[..|ops| - 1]) && ops[|ops| - 1].OpReopen?
    ensures Inv(Run(EMPTY, ops)) && !Raised(ops)
    decreases |ops|, 0
  {
    hide Inv, Raises, RebuildUntil;
    var n := |ops| - 1;
    var m := n - 1;
    assert ops[..n][..m] == ops[..m] && ops[..n][m] == ops[m];
    RepairedBefore(ops, m);
    RunKeepsInv(ops[..m]);
    assert ops[m].OpRebuild?;
    RepairedAt(ops, m);
    RaisedReopens(Run(EMPTY, ops[..m]), ops[m].failAt.value);
  }

  /** The incremental index is the rebuilt index, after any such run. */
  lemma IncrementalIsRebuilt(ops: seq<Op>)
    requires Repaired(ops) && !Raised(ops)
    ensures var st := Run(EMPTY, ops);
            && (forall p, q :: p in st.disk && q in st.disk && p.name == q.name ==> p == q)
            && (forall p :: p in st.disk ==> FileOk(p, st.disk[p]))
            && Rebuild(st).0.disk == st.disk && SameIndex(Rebuild(st).0, st)
  {
    hide FileOk, Synced, Repaired, Raised;
    RunKeepsInv(ops);
    RebuildIsIdentity(Run(EMPTY, ops));
  }
}
