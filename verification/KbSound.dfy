/**
 What still holds of a store that a crash, or a rebuild that raised, has touched. Its index need not
 agree with its files: a row may describe an older record, and an id may have more than one file. But
 every row points to a file of its own id, and the FTS table has one row per id. This is all that
 reading, upserting, promoting and deprecating need to serve complete records. Whatever else happened,
 every opening ends with a row for every file's id.
 */
module KbSound {
  import opened Wrappers
  import opened Identifiers
  import opened Listing
  import opened KbModel
  import opened KbSpec
  import opened KbIndex
  import opened KbRuns

  /** The object an id denotes: what get returns for it. */
  function ObjectOf(st: State, id: string): Option<Payload> {
    if id in st.manifest && st.manifest[id].file in st.disk then Some(st.disk[st.manifest[id].file]) else None
  }

  predicate AllNamed(st: State) {
    forall p :: p in st.disk ==> p.name in st.manifest
  }

  /** The FTS table has exactly one row for each id of the manifest. */
  ghost predicate FtsCovers(st: State) {
    && DistinctIds(st.fts)
    && (forall r :: r in st.fts ==> r.id in st.manifest)
    && (forall id :: id in st.manifest ==> exists i :: 0 <= i < |st.fts| && st.fts[i].id == id)
  }

  ghost predicate Usable(st: State) {
    WellFormed(st.disk) && Pointing(st) && FtsCovers(st)
  }

  /** Usable, and no file is out of reach. */
  ghost predicate Sound(st: State) {
    Usable(st) && AllNamed(st)
  }

  /** The id has no file but the one its row names. */
  predicate OnlyFile(st: State, id: string) {
    forall q :: q in st.disk && q.name == id ==> RowFile(st, id) == Some(q)
  }

  lemma SyncedIsSound(st: State)
    requires WellFormed(st.disk) && Synced(st)
    ensures Sound(st)
  {
    hide FileOk, Before, RowOf;
    SyncedPoints(st);
    PlainIff(st);
  }

  lemma InvIsSound(st: State)
    requires Inv(st)
    ensures Sound(st) && OneFile(st.disk)
  {
    SyncedIsSound(st);
  }

  lemma OneFileIsOnly(st: State, id: string)
    requires Sound(st) && OneFile(st.disk)
    ensures OnlyFile(st, id)
  {
    hide FileOk, FtsCovers;
    forall q | q in st.disk && q.name == id ensures RowFile(st, id) == Some(q) {
      assert RowPoints(st, id);
    }
  }

  // ---------------------------------------------------------------- what an id denotes

  /** Either there is a row with its file, or there is no file of the id at all. */
  lemma ObjectOfSound(st: State, id: string)
    requires Sound(st)
    ensures id in st.manifest ==>
              var p := st.manifest[id].file;
              p in st.disk && p.name == id && ObjectOf(st, id) == Some(st.disk[p]) && FileOk(p, st.disk[p])
    ensures id !in st.manifest ==> ObjectOf(st, id) == None && forall p :: p in st.disk ==> p.name != id
  {
    hide FileOk, FtsCovers;
    assert id in st.manifest ==> RowPoints(st, id);
  }

  // ---------------------------------------------------------------- reopening

  lemma RecoverKeepsFiles(c: State)
    requires WellFormed(c.disk)
    ensures Recover(c).1.Ok? && Recover(c).0.disk == c.disk
    ensures c.disk.Keys != ManifestFiles(c) ==> Synced(Recover(c).0)
    ensures c.disk.Keys == ManifestFiles(c) ==> Recover(c).0 == c
  {
    hide FileOk, Rebuild, Synced, ManifestFiles;
    WellFormedLoads(c.disk);
    RebuildSyncs(c);
  }

  lemma SamePathsNamed(c: State)
    requires Pointing(c) && c.disk.Keys == ManifestFiles(c)
    ensures AllNamed(c)
  {
    forall p | p in c.disk ensures p.name in c.manifest {
      assert p in ManifestFiles(c);
      var id :| id in c.manifest && c.manifest[id].file == p;
      assert RowPoints(c, id);
    }
  }

  /** Opening makes a store sound whose rows point to files of their own ids: files without a row are
      noticed and indexed. */
  lemma RecoverSound(c: State)
    requires Usable(c)
    ensures Recover(c).1.Ok? && Recover(c).0.disk == c.disk && Sound(Recover(c).0)
  {
    hide FileOk, Recover, Synced, FtsCovers, ManifestFiles, Pointing, AllNamed;
    RecoverKeepsFiles(c);
    if c.disk.Keys == ManifestFiles(c) {
      SamePathsNamed(c);
    } else {
      SyncedIsSound(Recover(c).0);
    }
  }

  // ---------------------------------------------------------------- upsert

  /** What PlanIsPure says of a plan. */
  predicate PlanOk(st: State, plan: Plan) {
    FileOk(plan.file, plan.record) && Indexable(plan.record) && plan.previous == RowFile(st, plan.file.name)
  }

  lemma FtsCoversStep(st: State, s2: State, row: FtsRow)
    requires FtsCovers(st) && s2.fts == Without(st.fts, row.id) + [row]
    requires s2.manifest.Keys == st.manifest.Keys + {row.id}
    ensures FtsCovers(s2)
  {
    hide Without;
    WithoutThenAdd(st.fts, row);
    forall k | k in s2.manifest ensures exists i :: 0 <= i < |s2.fts| && s2.fts[i].id == k {
      if k == row.id {
        assert s2.fts[|s2.fts| - 1].id == k;
      } else {
        var i :| 0 <= i < |st.fts| && st.fts[i].id == k;
        assert st.fts[i] in s2.fts;
      }
    }
  }

  lemma CommitParts(st: State, plan: Plan)
    requires PlanOk(st, plan)
    ensures var c := Commit(st, plan);
            && c.manifest.Keys == st.manifest.Keys + {plan.file.name}
            && c.manifest[plan.file.name].file == plan.file && c.manifest[plan.file.name].tier == plan.file.tier
            && (forall id :: id in st.manifest && id != plan.file.name ==> c.manifest[id] == st.manifest[id])
            && c.fts == Without(st.fts, plan.file.name) + [FtsRow(plan.file.name, plan.record)]
            && c.disk == (if plan.previous.Some? && plan.previous.value != plan.file
                          then st.disk - {plan.previous.value} else st.disk)[plan.file := plan.record]
  {
    RowOfFile(plan.record, plan.file, plan.file.tier);
    FileOkName(plan.file, plan.record);
    hide FileOk, RowOf, Indexable, Without;
  }

  /** A completed upsert: its id denotes the record, every other id what it did. */
  lemma CommitServes(st: State, plan: Plan)
    requires Usable(st) && PlanOk(st, plan)
    ensures Usable(Commit(st, plan)) && (AllNamed(st) ==> AllNamed(Commit(st, plan)))
    ensures ObjectOf(Commit(st, plan), plan.file.name) == Some(plan.record)
    ensures forall id :: id != plan.file.name ==> ObjectOf(Commit(st, plan), id) == ObjectOf(st, id)
  {
    hide FtsCovers, Commit, Without, FileOk, Indexable, WellFormed;
    CommitParts(st, plan);
    CommitWellFormed(st, plan);
    var c := Commit(st, plan);
    FtsCoversStep(st, c, FtsRow(plan.file.name, plan.record));
    if plan.previous.Some? { assert RowPoints(st, plan.file.name); }
    forall id | id in c.manifest ensures RowPoints(c, id) {
      if id != plan.file.name { assert RowPoints(st, id); }
    }
    forall id | id != plan.file.name ensures ObjectOf(c, id) == ObjectOf(st, id) {
      if id in st.manifest { assert RowPoints(st, id); }
    }
  }

  /** An upsert rolled back: at most a file that no row named is gone. */
  lemma RollBackServes(st: State, plan: Plan)
    requires Usable(st) && PlanOk(st, plan)
    ensures Usable(RollBack(st, plan)) && (AllNamed(st) ==> AllNamed(RollBack(st, plan)))
    ensures forall id :: ObjectOf(RollBack(st, plan), id) == ObjectOf(st, id)
  {
    hide FileOk, Indexable;
    var c := RollBack(st, plan);
    assert c.manifest == st.manifest && c.fts == st.fts;
    forall id | id in st.manifest ensures RowPoints(c, id) && ObjectOf(c, id) == ObjectOf(st, id) {
      assert RowPoints(st, id);
    }
  }

  /** What a call that answers r may have done: on success the id of the record denotes it, and no
      other id, on failure no id at all, denotes anything else than before. */
  ghost predicate Serves(st: State, s2: State, r: Result<Payload>) {
    && Usable(s2) && (AllNamed(st) ==> AllNamed(s2))
    && (r.Ok? ==> r.value.id.Some? && ObjectOf(s2, r.value.id.value) == Some(r.value))
    && (forall id :: (r.Ok? ==> r.value.id != Some(id)) ==> ObjectOf(s2, id) == ObjectOf(st, id))
  }

  lemma UpsertServes(st: State, payload: Payload, tier: Option<string>, now: Time, indexOk: bool)
    requires Usable(st)
    ensures var (s2, r) := Upsert(st, payload, tier, now, indexOk);
            Serves(st, s2, r) && (r.Ok? ==> payload.id.Some? && r.value.id == Validate(payload.id.value))
  {
    hide Usable, AllNamed, PlanUpsert, Commit, RollBack, FileOk, ObjectOf, Indexable, Pointing, IsRecord, TierAgrees;
    UsableParts(st);
    PlanIsPure(st, payload, tier, now);
    var planned := PlanUpsert(st, payload, tier, now).1;
    if planned.Ok? {
      PlanIsRecord(st, payload, tier, now);
      if indexOk { CommitServes(st, planned.value); } else { RollBackServes(st, planned.value); }
    }
  }

  lemma UsableParts(st: State)
    requires Usable(st)
    ensures WellFormed(st.disk) && Pointing(st) && FtsCovers(st)
  {
  }

  lemma SoundParts(st: State)
    requires Sound(st)
    ensures Usable(st) && WellFormed(st.disk) && Pointing(st) && FtsCovers(st)
  {
  }

  // ---------------------------------------------------------------- promotion and deprecation

  lemma UsableRow(st: State, n: string)
    requires Usable(st) && n in st.manifest
    ensures var row := st.manifest[n];
            && row.file in st.disk && row.file.name == n && row.tier == row.file.tier
            && Load(st, row) == (st, Ok(st.disk[row.file])) && st.disk[row.file].id == Some(n) && Validate(n) == Some(n)
  {
    hide FtsCovers, Load;
    assert RowPoints(st, n);
    LoadIsPure(st, st.manifest[n]);
    FileReadsItself(st.disk, st.manifest[n].file);
  }

  lemma SoundRow(st: State, n: string)
    requires Sound(st) && n in st.manifest
    ensures var row := st.manifest[n];
            && row.file in st.disk && row.file.name == n && row.tier == row.file.tier
            && Load(st, row) == (st, Ok(st.disk[row.file])) && st.disk[row.file].id == Some(n) && Validate(n) == Some(n)
  {
    hide Usable, Load;
    UsableRow(st, n);
  }

  lemma MoveServes(st: State, n: string, p: Payload, tier: string, now: Time, indexOk: bool)
    requires Usable(st) && n in st.manifest && p.id == Some(n) && tier != ""
    requires ParseTier(tier).Some? && ParseTier(tier) != Some(st.manifest[n].tier)
    ensures var (s2, r) := Upsert(st, p, Some(tier), now, indexOk);
            && Serves(st, s2, r) && (r.Ok? ==> Unlink(s2, st.manifest[n].file) == s2 && r.value.id == Some(n))
  {
    hide Usable, AllNamed, Upsert, Pointing, ObjectOf, FileOk;
    UsableParts(st);
    UsableRow(st, n);
    UpsertServes(st, p, Some(tier), now, indexOk);
    if Upsert(st, p, Some(tier), now, indexOk).1.Ok? {
      MoveUnlinks(st, n, p, tier, now, indexOk);
    }
  }

  lemma PromoteServes(st: State, id: string, actor: string, reason: Option<string>, now: Time, indexOk: bool)
    requires Usable(st)
    ensures var (s2, r) := Promote(st, id, actor, reason, now, indexOk);
            Serves(st, s2, r) && (r.Ok? ==> r.value.id == Validate(id))
  {
    hide Usable, AllNamed, Upsert, Promoted, ObjectOf;
    if Validate(id).Some? && Validate(id).value in st.manifest && st.manifest[Validate(id).value].tier == Candidate {
      var n := Validate(id).value;
      UsableRow(st, n);
      var item := st.disk[st.manifest[n].file];
      PromotedId(item, n, actor, reason, now);
      MoveServes(st, n, Promoted(item, n, actor, reason, now), "canonical", now, indexOk);
    }
  }

  lemma DeprecateServes(st: State, id: string, actor: string, reason: string, by_: Option<string>, now: Time,
                        indexOk: bool)
    requires Usable(st)
    ensures var (s2, r) := Deprecate(st, id, actor, reason, by_, now, indexOk);
            Serves(st, s2, r) && (r.Ok? ==> r.value.id == Validate(id))
  {
    hide Usable, AllNamed, Upsert, DeprecatedForm, ObjectOf;
    if Validate(id).Some? && Validate(id).value in st.manifest && st.manifest[Validate(id).value].tier != Deprecated {
      var n := Validate(id).value;
      UsableRow(st, n);
      var item := st.disk[st.manifest[n].file];
      DeprecatedId(item, actor, reason, by_, now);
      MoveServes(st, n, DeprecatedForm(item, actor, reason, by_, now), "deprecated", now, indexOk);
    }
  }

  // ---------------------------------------------------------------- every operation

  lemma RebuildSound(st: State)
    requires WellFormed(st.disk)
    ensures Sound(Rebuild(st).0) && Rebuild(st).0.disk == st.disk && Rebuild(st).1.Ok?
  {
    hide FileOk, Rebuild, Synced, Sound;
    WellFormedLoads(st.disk);
    RebuildSyncs(st);
    SyncedIsSound(Rebuild(st).0);
  }

  /** The index of some of the files: its rows point to files of their own ids. */
  lemma SyncedOnUsable(st: State, fs: set<Path>)
    requires WellFormed(st.disk) && SyncedOn(st, fs)
    ensures Usable(st)
  {
    hide FileOk, Read, RowOf, Before;
    forall id | id in st.manifest ensures RowPoints(st, id) {
      var file := st.manifest[id].file;
      assert LastOf(st.disk, fs, file, id) && RowIsOf(st, id);
      HoldsIsName(st.disk, file, id);
      RowOfFile(Read(st.disk, file).value, file, file.tier);
    }
    forall r | r in st.fts ensures r.id in st.manifest {
      assert FtsRowIsOf(st, r);
    }
  }

  /** A rebuild stopped anywhere. */
  lemma InterruptedUsable(st: State, k: nat, migrated: bool)
    requires WellFormed(st.disk) && k <= |Walk(st.disk.Keys)|
    ensures Usable(Interrupted(st, k, migrated)) && Interrupted(st, k, migrated).disk == st.disk
  {
    hide FileOk, Interrupted, Partway, SyncedOn, Walk, Usable;
    InterruptedPartway(st, k, migrated);
    var part := Interrupted(st, k, migrated);
    var n: nat :| Partway(st.disk, Walk(st.disk.Keys), n, part);
    WellFormedLoads(st.disk);
    PartwayIsSame(st.disk, Walk(st.disk.Keys), n, part);
    SyncedOnUsable(part, FileSet(Walk(st.disk.Keys)[..n]));
  }

  lemma PartwayIsSame(start: map<Path, Payload>, files: seq<Path>, n: nat, s: State)
    requires Partway(start, files, n, s) && MigrateAll(start) == start
    ensures s.disk == start && n <= |files| && SyncedOn(s, FileSet(files[..n]))
  {
    hide Migrate, Read, SyncedOn;
    forall p | p in start ensures s.disk[p] == start[p] {
      assert MigrateAll(start)[p] == Migrate(start[p]);
    }
  }

  lemma RebuildUntilUsable(st: State, failAt: Option<nat>)
    requires WellFormed(st.disk)
    ensures var r := RebuildUntil(st, failAt).0;
            && Usable(r) && r.disk == st.disk && (failAt.None? || !Raises(st, failAt.value) ==> Sound(r))
  {
    hide Rebuild, Interrupted, WellFormed, Sound, Usable;
    RebuildSound(st);
    SoundParts(Rebuild(st).0);
    if failAt.Some? && Raises(st, failAt.value) {
      InterruptedUsable(st, failAt.value, true);
    }
  }

  /** Openings, and rebuilds that go through, name every file whatever was before. */
  predicate Names(st: State, op: Op) {
    op.OpReopen? || (op.OpRebuild? && !Raising(st, op))
  }

  lemma StepKeepsUsable(st: State, op: Op)
    requires Usable(st)
    ensures Usable(Step(st, op))
    ensures !Raising(st, op) && (AllNamed(st) || Names(st, op)) ==> Sound(Step(st, op))
  {
    hide Usable, Upsert, Promote, Deprecate, RebuildUntil, Recover, Get, ObjectOf, WellFormed, Pointing, FtsCovers;
    hide AllNamed, Raises;
    UsableParts(st);
    match op
    case OpUpsert(p, tier, now, ok) => UpsertServes(st, p, tier, now, ok);
    case OpCreate(p, now, ok) => UpsertServes(st, p.(status := Some(CANDIDATE)), Some("candidate"), now, ok);
    case OpPromote(id, actor, note, now, ok) => PromoteServes(st, id, actor, note, now, ok);
    case OpDeprecate(id, actor, reason, by_, now, ok) => DeprecateServes(st, id, actor, reason, by_, now, ok);
    case OpGet(id) => GetIsPure(st, id);
    case OpRebuild(failAt) => RebuildUntilUsable(st, failAt);
    case OpReopen => RecoverSound(st);
  }
}
