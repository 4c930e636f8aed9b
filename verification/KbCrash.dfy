/**
 Crashes. A successful upsert is three durable steps: replace the file, commit the index
 transaction, unlink the file the id had before. The process may die after any of them; the next
 open then compares file paths with the paths of the manifest and rebuilds when they differ.
 */
module KbCrash {
  import opened Wrappers
  import opened Identifiers
  import opened Text
  import opened Listing
  import opened KbModel
  import opened KbSpec
  import opened KbIndex
  import opened KbRuns
  import opened KbSound

  /** The durable state when the process dies after the first k steps. */
  function CrashAt(st: State, plan: Plan, k: nat): State
    requires k <= 3 && Indexable(plan.record)
  {
    if k == 0 then st
    else if k == 1 then Write(st, plan.file, plan.record)
    else if k == 2 then Sync(Write(st, plan.file, plan.record), plan.record, plan.file, plan.file.tier)
    else Commit(st, plan)
  }

  /** The id leaves the file it had for another one. */
  predicate Moves(plan: Plan) {
    plan.previous.Some? && plan.previous.value != plan.file
  }

  /** Which record get returns after the crash and the reopening. While both files of a moved id
      exist, the later one in walking order is served, whatever the index said before. */
  predicate NewSurvives(plan: Plan, k: nat) {
    k >= 1 && (Moves(plan) && k < 3 ==> Before(plan.previous.value, plan.file))
  }

  /** The row of the id names the last of its files, as it does after every opening. */
  predicate Latest(st: State, id: string) {
    forall p :: p in st.disk && p.name == id ==>
      id in st.manifest && (p == st.manifest[id].file || Before(p, st.manifest[id].file))
  }

  /** The record of an id that exists carries the next revision. */
  predicate Supersedes(st: State, plan: Plan) {
    plan.previous.Some? && plan.previous.value in st.disk ==>
      plan.record.revision == Some(st.disk[plan.previous.value].revision.GetOr(1) + 1)
  }

  lemma PlanIsOk(st: State, payload: Payload, tier: Option<string>, now: Time)
    requires Usable(st) && PlanUpsert(st, payload, tier, now).1.Ok?
    ensures PlanOk(st, PlanUpsert(st, payload, tier, now).1.value)
    ensures Supersedes(st, PlanUpsert(st, payload, tier, now).1.value)
  {
    hide FileOk, Usable, PlanUpsert, Indexable, Pointing, WellFormed;
    UsableParts(st);
    PlanIsPure(st, payload, tier, now);
    if PlanUpsert(st, payload, tier, now).1.value.previous.Some? {
      PlanRevision(st, payload, tier, now);
    }
  }

  lemma ValidatedRevision(t: ObjectType, p: Payload)
    requires ValidateAs(t, p).Some?
    ensures ValidateAs(t, p).value.revision == Some(p.revision.GetOr(1))
  {
  }

  lemma PreparedRevision(payload: Payload, existing: Payload, tier: Tier, now: Time)
    requires existing.createdAt.Some?
    ensures Prepare(payload, Some(existing), tier, now).revision == Some(existing.revision.GetOr(1) + 1)
  {
  }

  lemma RecordIsDated(p: Path, x: Payload)
    requires FileOk(p, x)
    ensures x.createdAt.Some?
  {
  }

  lemma PlanRevision(st: State, payload: Payload, tier: Option<string>, now: Time)
    requires WellFormed(st.disk) && Pointing(st) && PlanUpsert(st, payload, tier, now).1.Ok?
    requires PlanUpsert(st, payload, tier, now).1.value.previous.Some?
    ensures Supersedes(st, PlanUpsert(st, payload, tier, now).1.value)
  {
    hide ValidateAs, Prepare, FileOk, ChooseTier, Load;
    var row := LookUp(st, payload.id).value.value;
    assert RowPoints(st, Validate(payload.id.value).value);
    LoadIsPure(st, row);
    var existing := st.disk[row.file];
    RecordIsDated(row.file, existing);
    var tr := ChooseTier(payload, tier).value;
    var t := ParseType(Trim(payload.objectType.GetOr(""))).value;
    PreparedRevision(payload, existing, tr, now);
    ValidatedRevision(t, Prepare(payload, Some(existing), tr, now));
  }

  // ---------------------------------------------------------------- the state after a crash

  lemma CrashFiles(st: State, plan: Plan, k: nat)
    requires Usable(st) && PlanOk(st, plan) && k <= 3
    ensures var c := CrashAt(st, plan, k);
            && WellFormed(c.disk)
            && (forall p: Path :: p.name != plan.file.name ==> (p in c.disk <==> p in st.disk))
            && (forall p: Path :: p.name == plan.file.name ==>
                  (p in c.disk <==> (p == plan.file && k >= 1)
                                    || (p in st.disk && (Some(p) != plan.previous || k < 3 || !Moves(plan)))))
            && (forall p :: p in c.disk && p in st.disk && (p != plan.file || k == 0) ==> c.disk[p] == st.disk[p])
            && (k >= 1 ==> plan.file in c.disk && c.disk[plan.file] == plan.record)
  {
    hide FileOk, RowOf, Indexable, Without, Before, FtsCovers;
    if plan.previous.Some? { assert RowPoints(st, plan.file.name); }
  }

  lemma CrashRows(st: State, plan: Plan, k: nat)
    requires PlanOk(st, plan) && k <= 2
    ensures var c := CrashAt(st, plan, k);
            && (k <= 1 ==> c.manifest == st.manifest && c.fts == st.fts)
            && (k == 2 ==>
                  && c.manifest.Keys == st.manifest.Keys + {plan.file.name}
                  && c.manifest[plan.file.name].file == plan.file && c.manifest[plan.file.name].tier == plan.file.tier
                  && (forall id :: id in st.manifest && id != plan.file.name ==> c.manifest[id] == st.manifest[id])
                  && c.fts == Without(st.fts, plan.file.name) + [FtsRow(plan.file.name, plan.record)])
  {
    RowOfFile(plan.record, plan.file, plan.file.tier);
    FileOkName(plan.file, plan.record);
    hide FileOk, RowOf, Indexable, Without;
  }

  lemma CrashUsable(st: State, plan: Plan, k: nat)
    requires Usable(st) && PlanOk(st, plan) && k <= 3
    ensures Usable(CrashAt(st, plan, k))
  {
    hide FtsCovers, Without, FileOk, Indexable, CrashAt, WellFormed;
    if k == 3 {
      CommitServes(st, plan);
      CommittedState(st, plan, 3);
    } else {
      CrashFiles(st, plan, k);
      CrashRows(st, plan, k);
      var c := CrashAt(st, plan, k);
      if k == 2 { FtsCoversStep(st, c, FtsRow(plan.file.name, plan.record)); } else { SameRowsCover(st, c); }
      forall id | id in c.manifest ensures RowPoints(c, id) {
        if id in st.manifest { assert RowPoints(st, id); }
      }
    }
  }

  lemma SameRowsCover(st: State, c: State)
    requires FtsCovers(st) && c.manifest == st.manifest && c.fts == st.fts
    ensures FtsCovers(c)
  {
  }

  lemma CommittedState(st: State, plan: Plan, k: nat)
    requires Indexable(plan.record) && (k == 3 || (k == 2 && !Moves(plan)))
    ensures CrashAt(st, plan, k) == Commit(st, plan)
  {
  }

  // ---------------------------------------------------------------- reopening

  /** Every opening leaves each row at the last file of its id: either the index is rebuilt, or the paths
      agree and no id has a second file. */
  lemma ReopenedIsLatest(c: State, id: string)
    requires WellFormed(c.disk) && Pointing(c)
    ensures Latest(Recover(c).0, id)
  {
    hide FileOk, Rebuild, Before, Synced;
    RecoverKeepsFiles(c);
    if c.disk.Keys == ManifestFiles(c) {
      forall q | q in c.disk && q.name == id ensures id in c.manifest && q == c.manifest[id].file {
        assert q in ManifestFiles(c);
        var owner :| owner in c.manifest && c.manifest[owner].file == q;
        assert RowPoints(c, owner);
      }
    } else {
      PlainIff(Recover(c).0);
      assert id in Recover(c).0.manifest ==> RowPlain(Recover(c).0, id);
    }
  }

  /** What an id denotes after an opening, said of the files alone. */
  lemma ReopenedRow(c: State, id: string)
    requires Usable(c)
    ensures var r := Recover(c).0;
            && (forall p: Path :: p.name == id ==> (RowFile(r, id) == Some(p) <==> LastOfName(c.disk, p)))
            && (RowFile(r, id) == None <==> forall p :: p in c.disk ==> p.name != id)
            && (RowFile(r, id).Some? ==> RowFile(r, id).value in c.disk && RowFile(r, id).value.name == id)
            && ObjectOf(r, id) == (if RowFile(r, id).Some? && RowFile(r, id).value in c.disk
                                   then Some(c.disk[RowFile(r, id).value]) else None)
  {
    hide FileOk, Recover, FtsCovers, Before, Pointing, WellFormed, AllNamed;
    RecoverSound(c);
    ReopenedIsLatest(c, id);
    var r := Recover(c).0;
    ObjectOfSound(r, id);
    forall p: Path | p.name == id && LastOfName(c.disk, p) ensures RowFile(r, id) == Some(p) {
      var q := r.manifest[id].file;
      if p != q { BeforeAsymmetric(p, q); }
    }
  }

  /** An opening serves what it served before exactly for ids whose row names the last of their files. */
  lemma CrashOthersExactly(st: State, plan: Plan, k: nat, other: string)
    requires Usable(st) && PlanOk(st, plan) && k <= 3 && other != plan.file.name
    ensures var r := Recover(CrashAt(st, plan, k)).0;
            && (RowFile(r, other) == RowFile(st, other) <==> Latest(st, other))
            && (Latest(st, other) ==> ObjectOf(r, other) == ObjectOf(st, other))
  {
    hide FileOk, Indexable, Before, CrashAt, Recover, FtsCovers, WellFormed;
    CrashUsable(st, plan, k);
    CrashFiles(st, plan, k);
    ReopenedRow(CrashAt(st, plan, k), other);
    assert other in st.manifest ==> RowPoints(st, other);
  }

  /** A file of the id that is there after the crash, beside the new one. */
  predicate StaysBehind(st: State, plan: Plan, k: nat, q: Path) {
    q in st.disk && q.name == plan.file.name && q != plan.file && (k < 3 || plan.previous != Some(q))
  }

  predicate NewIsLast(st: State, plan: Plan, k: nat) {
    forall q :: q in st.disk && StaysBehind(st, plan, k, q) ==> Before(q, plan.file)
  }

  /** Once the file is written, the new record is served exactly when nothing left behind comes later. */
  lemma CrashNewExactly(st: State, plan: Plan, k: nat)
    requires Usable(st) && PlanOk(st, plan) && 1 <= k <= 3
    ensures var r := Recover(CrashAt(st, plan, k)).0;
            && (RowFile(r, plan.file.name) == Some(plan.file) <==> NewIsLast(st, plan, k))
            && (NewIsLast(st, plan, k) ==> ObjectOf(r, plan.file.name) == Some(plan.record))
  {
    hide FileOk, Indexable, Before, CrashAt, Recover, FtsCovers, WellFormed, Pointing;
    CrashUsable(st, plan, k);
    CrashFiles(st, plan, k);
    ReopenedRow(CrashAt(st, plan, k), plan.file.name);
    assert forall q :: q in CrashAt(st, plan, k).disk && q.name == plan.file.name && q != plan.file
                       <==> StaysBehind(st, plan, k, q);
  }

  /** The old record is served exactly when its file is the last of the id, also beside the new one. */
  predicate OldIsLast(st: State, plan: Plan, k: nat) {
    Latest(st, plan.file.name) && (k >= 1 ==> plan.previous.Some? && Before(plan.file, plan.previous.value))
  }

  lemma CrashOldExactly(st: State, plan: Plan, k: nat)
    requires Usable(st) && PlanOk(st, plan) && (k == 0 || (k < 3 && Moves(plan)))
    ensures var r := Recover(CrashAt(st, plan, k)).0;
            && (RowFile(r, plan.file.name) == plan.previous <==> OldIsLast(st, plan, k))
            && (OldIsLast(st, plan, k) ==> ObjectOf(r, plan.file.name) == ObjectOf(st, plan.file.name))
  {
    hide FileOk, Indexable, Before, CrashAt, Recover, FtsCovers, WellFormed;
    CrashUsable(st, plan, k);
    CrashFiles(st, plan, k);
    ReopenedRow(CrashAt(st, plan, k), plan.file.name);
    assert plan.file.name in st.manifest ==> RowPoints(st, plan.file.name);
    assert forall q: Path :: q.name == plan.file.name ==>
             (q in CrashAt(st, plan, k).disk <==> q in st.disk || (q == plan.file && k >= 1));
  }

  /** Whichever of the two NewSurvives names is the last, when the row named the last file before. */
  lemma SurvivorIsLast(st: State, plan: Plan, k: nat)
    requires Usable(st) && PlanOk(st, plan) && k <= 3 && Latest(st, plan.file.name)
    requires k == 3 ==> NewIsLast(st, plan, k)
    ensures if NewSurvives(plan, k) then k >= 1 && NewIsLast(st, plan, k)
            else OldIsLast(st, plan, k) && (k == 0 || (k < 3 && Moves(plan)))
  {
    hide FileOk, Indexable, FtsCovers, Before, WellFormed, Pointing;
    if plan.previous.Some? { BeforeTotal(plan.previous.value, plan.file); }
    if NewSurvives(plan, k) && k < 3 && Moves(plan) {
      forall q | q in st.disk && StaysBehind(st, plan, k, q) ensures Before(q, plan.file) {
        if q != plan.previous.value { BeforeTransitive(q, plan.previous.value, plan.file); }
      }
    }
  }

  /** Crash atomicity, on every store that crashes and raised rebuilds can leave, also one with stale
      rows, leftover files and files without rows. Whichever durable step the process dies after, the
      store opens again and is sound; the id denotes the complete old or the complete new record, as
      NewSurvives says, if its row named the last of its files, and a completed upsert (k = 3) unless
      something it leaves behind comes later. In general the new file, the old file, and the file of any
      other id are served exactly when they are the last of their id. */
  lemma CrashAtomic(st: State, payload: Payload, tier: Option<string>, now: Time, k: nat)
    requires Usable(st) && PlanUpsert(st, payload, tier, now).1.Ok? && k <= 3
    ensures var plan := PlanUpsert(st, payload, tier, now).1.value;
            Indexable(plan.record) && Reopened(st, plan, k)
  {
    hide Usable, PlanUpsert, FileOk, Recover, CrashAt, Indexable, ObjectOf, Latest, NewIsLast, OldIsLast, Supersedes;
    hide Sound, RowFile, NewSurvives, Moves;
    PlanIsOk(st, payload, tier, now);
    var plan := PlanUpsert(st, payload, tier, now).1.value;
    CrashUsable(st, plan, k);
    RecoverSound(CrashAt(st, plan, k));
    if k >= 1 { CrashNewExactly(st, plan, k); }
    if k == 0 || (k < 3 && Moves(plan)) { CrashOldExactly(st, plan, k); }
    if Latest(st, plan.file.name) && (k == 3 ==> NewIsLast(st, plan, k)) { SurvivorIsLast(st, plan, k); }
    forall other | other != plan.file.name
      ensures var r := Recover(CrashAt(st, plan, k)).0;
              && (RowFile(r, other) == RowFile(st, other) <==> Latest(st, other))
              && (Latest(st, other) ==> ObjectOf(r, other) == ObjectOf(st, other))
    {
      CrashOthersExactly(st, plan, k, other);
    }
  }

  ghost predicate Reopened(st: State, plan: Plan, k: nat)
    requires Indexable(plan.record) && k <= 3
  {
    var n := plan.file.name;
    var (r, ok) := Recover(CrashAt(st, plan, k));
    && ok.Ok? && r.disk == CrashAt(st, plan, k).disk && Sound(r)
    && (Latest(st, n) && (k == 3 ==> NewIsLast(st, plan, k)) ==>
          ObjectOf(r, n) == if NewSurvives(plan, k) then Some(plan.record) else ObjectOf(st, n))
    && (k >= 1 ==> (RowFile(r, n) == Some(plan.file) <==> NewIsLast(st, plan, k)))
    && (k == 0 || (k < 3 && Moves(plan)) ==> (RowFile(r, n) == plan.previous <==> OldIsLast(st, plan, k)))
    && (forall other :: other != n ==> (RowFile(r, other) == RowFile(st, other) <==> Latest(st, other)))
    && (forall other :: other != n && Latest(st, other) ==> ObjectOf(r, other) == ObjectOf(st, other))
  }

  /** The order in which tiers and, within a tier, types are walked. */
  const TIERS := [Canonical, Candidate, Deprecated]
  const TYPES := [Claim, Procedure, Case, Decision]

  /** Whether the new record survives a move of an id that is cut short: when its tier is walked later,
      or the same tier holds its type later. */
  lemma SurvivesExactly(plan: Plan, k: nat, i: nat, j: nat, a: nat, b: nat)
    requires 1 <= k <= 2 && Moves(plan) && plan.previous.value.name == plan.file.name
    requires i < |TIERS| && j < |TIERS| && a < |TYPES| && b < |TYPES|
    requires plan.previous.value.tier == TIERS[i] && plan.file.tier == TIERS[j]
    requires plan.previous.value.objectType == TYPES[a] && plan.file.objectType == TYPES[b]
    ensures NewSurvives(plan, k) <==> i < j || (i == j && a < b)
  {
    StringLessIrreflexive(FileName(plan.file));
  }

  // ---------------------------------------------------------------- one file per id

  /** An upsert that is about to write, in a store with one file per id. */
  ghost predicate Pending(st: State, plan: Plan) {
    Sound(st) && OneFile(st.disk) && PlanOk(st, plan)
  }

  lemma PlanIsPending(st: State, payload: Payload, tier: Option<string>, now: Time)
    requires Sound(st) && OneFile(st.disk) && PlanUpsert(st, payload, tier, now).1.Ok?
    ensures Pending(st, PlanUpsert(st, payload, tier, now).1.value)
  {
    hide Sound, OneFile, PlanUpsert, PlanOk;
    SoundParts(st);
    PlanIsOk(st, payload, tier, now);
  }

  lemma PendingIsLatest(st: State, plan: Plan)
    requires Pending(st, plan)
    ensures (forall id :: Latest(st, id)) && (forall q :: !Leftover(st, plan, q)) && NewIsLast(st, plan, 3)
  {
    hide FileOk, FtsCovers, Indexable, Before, WellFormed;
    forall id ensures Latest(st, id) {
      if id in st.manifest { assert RowPoints(st, id); }
    }
    OneFileIsOnly(st, plan.file.name);
  }

  /** With one file per id, atomicity holds of all ids after all steps; a second file is left behind
      exactly when a move was cut short; and an index that agreed agrees again unless only a file was
      replaced, which no later opening notices. */
  lemma CrashAtomicOneFile(st: State, payload: Payload, tier: Option<string>, now: Time, k: nat)
    requires Sound(st) && OneFile(st.disk) && PlanUpsert(st, payload, tier, now).1.Ok? && k <= 3
    ensures var plan := PlanUpsert(st, payload, tier, now).1.value;
            && Indexable(plan.record)
            && var (r, ok) := Recover(CrashAt(st, plan, k));
            && ok.Ok? && Sound(r)
            && ObjectOf(r, plan.file.name) ==
               (if NewSurvives(plan, k) then Some(plan.record) else ObjectOf(st, plan.file.name))
            && (forall other :: other != plan.file.name ==> ObjectOf(r, other) == ObjectOf(st, other))
            && (OneFile(r.disk) <==> !(1 <= k <= 2 && Moves(plan)))
            && (Synced(st) ==> (Synced(r) <==> !(k == 1 && plan.previous == Some(plan.file))))
  {
    hide Sound, PlanUpsert, OneFile, FileOk, Recover, CrashAt, Indexable, ObjectOf, Latest, NewIsLast, Synced;
    hide Supersedes;
    hide NewSurvives, Moves, Leftover, OldIsLast, RowFile, Usable;
    SoundParts(st);
    CrashAtomic(st, payload, tier, now, k);
    PlanIsOk(st, payload, tier, now);
    PlanIsPending(st, payload, tier, now);
    var plan := PlanUpsert(st, payload, tier, now).1.value;
    PendingIsLatest(st, plan);
    CrashOneFile(st, plan, k);
    if Synced(st) {
      CrashSynced(st, plan, k);
    }
  }

  lemma CrashOneFile(st: State, plan: Plan, k: nat)
    requires Pending(st, plan) && k <= 3
    ensures OneFile(Recover(CrashAt(st, plan, k)).0.disk) <==> !(1 <= k <= 2 && Moves(plan))
  {
    hide FileOk, Synced, Indexable, Before, CrashAt, Recover, FtsCovers, WellFormed;
    CrashFiles(st, plan, k);
    var c := CrashAt(st, plan, k);
    RecoverKeepsFiles(c);
    ObjectOfSound(st, plan.file.name);
    if 1 <= k <= 2 && Moves(plan) {
      assert plan.previous.value in c.disk && plan.file in c.disk;
    } else {
      forall p, q | p in c.disk && q in c.disk && p.name == q.name ensures p == q {
        if p.name != plan.file.name { assert p in st.disk && q in st.disk; }
      }
    }
  }

  // ---------------------------------------------------------------- when the index agrees again

  /** The two cases in which opening the store finds the same paths in both places and trusts the
      index: nothing happened or everything did, or only a file was replaced by its new contents. */
  predicate PathsAgree(plan: Plan, k: nat) {
    k == 0 || k == 3 || (k == 1 && plan.previous == Some(plan.file)) || (k == 2 && !Moves(plan))
  }

  lemma InvPaths(st: State)
    requires Inv(st)
    ensures ManifestFiles(st) == st.disk.Keys
  {
    hide FileOk, Synced, Before, OneFile;
    SyncedPointsInv(st);
    forall p | p in st.disk ensures p in ManifestFiles(st) {
      OnlyRowFile(st, p.name);
    }
    forall p | p in ManifestFiles(st) ensures p in st.disk {
      var id :| id in st.manifest && st.manifest[id].file == p;
      assert RowPoints(st, id);
    }
  }

  lemma NewFileUnnamed(st: State, plan: Plan)
    requires Pointing(st) && PlanOk(st, plan) && plan.previous != Some(plan.file)
    ensures plan.file !in ManifestFiles(CrashAt(st, plan, 1))
  {
    hide FileOk, RowOf, Indexable;
    assert CrashAt(st, plan, 1).manifest == st.manifest;
    forall id | id in st.manifest ensures st.manifest[id].file != plan.file {
      assert RowPoints(st, id);
    }
  }

  lemma OldFileUnnamed(st: State, plan: Plan)
    requires Pointing(st) && PlanOk(st, plan) && Moves(plan)
    ensures plan.previous.value !in ManifestFiles(CrashAt(st, plan, 2))
  {
    hide FileOk, Indexable, Without, CrashAt;
    CrashRows(st, plan, 2);
    assert RowPoints(st, plan.file.name);
    var c := CrashAt(st, plan, 2);
    forall id | id in c.manifest ensures c.manifest[id].file != plan.previous.value {
      assert id != plan.file.name ==> RowPoints(st, id);
    }
  }

  lemma CrashPathsDiffer(st: State, plan: Plan, k: nat)
    requires Sound(st) && PlanOk(st, plan) && k <= 3 && !PathsAgree(plan, k)
    ensures CrashAt(st, plan, k).disk.Keys != ManifestFiles(CrashAt(st, plan, k))
  {
    hide ManifestFiles, Indexable, FileOk, CrashAt, FtsCovers, WellFormed;
    CrashFiles(st, plan, k);
    ObjectOfSound(st, plan.file.name);
    if k == 1 {
      NewFileUnnamed(st, plan);
    } else {
      OldFileUnnamed(st, plan);
      assert plan.previous.value in CrashAt(st, plan, 2).disk;
    }
  }

  /** Reopened with a rebuild: the index agrees with the files, and the id is served whole. */
  lemma ReopenRebuilds(st: State, plan: Plan, k: nat)
    requires Pending(st, plan) && 1 <= k <= 2 && !PathsAgree(plan, k)
    ensures var (r, ok) := Recover(CrashAt(st, plan, k));
            && ok.Ok? && r.disk == CrashAt(st, plan, k).disk && WellFormed(r.disk) && Synced(r)
            && ObjectOf(r, plan.file.name) ==
               (if NewSurvives(plan, k) then Some(plan.record) else ObjectOf(st, plan.file.name))
  {
    hide FileOk, Synced, Indexable, Before, CrashAt, Recover, OneFile, NewSurvives, ObjectOf, Latest, NewIsLast, Moves;
    hide Usable, AllNamed, OldIsLast;
    SoundParts(st);
    CrashFiles(st, plan, k);
    CrashPathsDiffer(st, plan, k);
    RecoverKeepsFiles(CrashAt(st, plan, k));
    PendingIsLatest(st, plan);
    SurvivorIsLast(st, plan, k);
    CrashNewExactly(st, plan, k);
    if !NewSurvives(plan, k) { CrashOldExactly(st, plan, k); }
  }

  /** The row left behind by a replaced file still names the revision before, and the paths agree. */
  lemma StaleRow(st: State, plan: Plan)
    requires Inv(st) && PlanOk(st, plan) && Supersedes(st, plan) && plan.previous == Some(plan.file)
    ensures !Synced(CrashAt(st, plan, 1))
  {
    hide FileOk, FtsAll, Before, Without, Synced, OneFile;
    var c := CrashAt(st, plan, 1);
    assert WellFormed(c.disk);
    PlainIff(st);
    PlainIff(c);
    assert RowPlain(st, plan.file.name);
    assert st.manifest[plan.file.name].revision == st.disk[plan.file].revision.GetOr(1);
    assert plan.record.revision != Some(st.disk[plan.file].revision.GetOr(1));
    assert !RowPlain(c, plan.file.name);
  }

  lemma ReplacedPaths(st: State, plan: Plan)
    requires Inv(st) && PlanOk(st, plan) && plan.previous == Some(plan.file)
    ensures Recover(CrashAt(st, plan, 1)) == (CrashAt(st, plan, 1), Ok(0))
  {
    hide FileOk, Indexable, Before, Synced, Rebuild, OneFile;
    InvPaths(st);
    SyncedPointsInv(st);
    assert RowPoints(st, plan.file.name);
    var c := Write(st, plan.file, plan.record);
    assert c.disk.Keys == st.disk.Keys;
    assert c.manifest == st.manifest;
  }

  lemma CrashSynced(st: State, plan: Plan, k: nat)
    requires Pending(st, plan) && Synced(st) && Supersedes(st, plan) && k <= 3
    ensures Synced(Recover(CrashAt(st, plan, k)).0) <==> !(k == 1 && plan.previous == Some(plan.file))
  {
    hide FileOk, Synced, Indexable, Recover, OneFile, Supersedes, WellFormed, FtsCovers, CrashAt, Commit;
    if k == 0 {
      Untouched(st, plan);
    } else if k == 3 || (k == 2 && !Moves(plan)) {
      CommittedState(st, plan, k);
      CommitSyncs(st, plan);
      InvReopens(Commit(st, plan));
    } else if k == 1 && plan.previous == Some(plan.file) {
      ReplacedPaths(st, plan);
      StaleRow(st, plan);
    } else {
      ReopenRebuilds(st, plan, k);
    }
  }

  lemma InvReopens(st: State)
    requires Inv(st)
    ensures Recover(st) == (st, Ok(0)) && Synced(st)
  {
    InvPaths(st);
  }

  lemma Untouched(st: State, plan: Plan)
    requires Inv(st) && PlanOk(st, plan)
    ensures CrashAt(st, plan, 0) == st && Recover(st) == (st, Ok(0)) && Synced(st)
  {
    InvReopens(st);
  }

  // ---------------------------------------------------------------- after a cut-short move

  /** Whether a completed upsert is still what the store serves after the next opening, on every store
      that crashes and raised rebuilds can leave: exactly when no leftover file of the id comes after the
      new one in walking order. */
  lemma UpsertDurableExactly(st: State, plan: Plan)
    requires Usable(st) && PlanOk(st, plan)
    ensures var c := Commit(st, plan);
            && ObjectOf(c, plan.file.name) == Some(plan.record)
            && (RowFile(Recover(c).0, plan.file.name) == Some(plan.file)
                <==> forall q :: Leftover(st, plan, q) ==> Before(q, plan.file))
  {
    hide Usable, FileOk, Indexable, Before, Recover, Commit, CrashAt, RowFile;
    CommitServes(st, plan);
    CommittedState(st, plan, 3);
    CrashNewExactly(st, plan, 3);
    assert forall q :: q in st.disk && StaysBehind(st, plan, 3, q) <==> Leftover(st, plan, q);
  }

  /** The plan of a promotion of n, in a store that serves `item` for it. */
  function PromotionPlan(st: State, item: Payload, n: string, actor: string, reason: Option<string>, now: Time)
    : Result<Plan>
  {
    PlanUpsert(st, Promoted(item, n, actor, reason, now), Some("canonical"), now).1
  }

  /** A promotion cut short before its unlink comes back as the candidate it was, beside a canonical
      file. Promoting again, whoever does it and whenever, goes through, leaves one file per id, and an
      index that agrees with the files even if it did not before. */
  lemma CrashedPromote(st: State, n: string, actor: string, reason: Option<string>, now: Time, k: nat,
                       other: string, why: Option<string>, later: Time)
    requires Sound(st) && OneFile(st.disk) && 1 <= k <= 2 && Validate(n) == Some(n)
    requires Promote(st, n, actor, reason, now, true).1.Ok? && Promote(st, n, other, why, later, true).1.Ok?
    ensures n in st.manifest && st.manifest[n].file in st.disk
    ensures var item := st.disk[st.manifest[n].file];
            && PromotionPlan(st, item, n, actor, reason, now).Ok? && PromotionPlan(st, item, n, other, why, later).Ok?
            && var plan := PromotionPlan(st, item, n, actor, reason, now).value;
            && var again := PromotionPlan(st, item, n, other, why, later).value;
            && Indexable(plan.record) && Indexable(again.record)
            && var r := Recover(CrashAt(st, plan, k)).0;
            && ObjectOf(r, n) == Some(item) && !OneFile(r.disk)
            && Promote(r, n, other, why, later, true) == (Commit(r, again), Ok(again.record))
            && Inv(Commit(r, again))
  {
    hide Sound, Inv, FileOk, Synced, PlanUpsert, Promoted, Commit, Indexable, Before, RowOf, Recover, CrashAt;
    SoundRow(st, n);
    var item := st.disk[st.manifest[n].file];
    PromotionIsPending(st, n, item, actor, reason, now);
    PromotionIsPending(st, n, item, other, why, later);
    var plan := PromotionPlan(st, item, n, actor, reason, now).value;
    var again := PromotionPlan(st, item, n, other, why, later).value;
    CanonicalIsFirst(plan);
    ReopenRebuilds(st, plan, k);
    CrashOneFile(st, plan, k);
    assert ObjectOf(st, n) == Some(item);
    RetryPromote(st, plan, k, item, other, why, later, again);
  }

  lemma PromotionIsPending(st: State, n: string, item: Payload, actor: string, reason: Option<string>, now: Time)
    requires Sound(st) && OneFile(st.disk) && Validate(n) == Some(n) && Promote(st, n, actor, reason, now, true).1.Ok?
    requires n in st.manifest && st.manifest[n].file in st.disk && st.disk[st.manifest[n].file] == item
    ensures st.manifest[n].file.tier == Candidate && st.manifest[n].tier == Candidate && item.objectType.Some?
    ensures var plan := PromotionPlan(st, item, n, actor, reason, now);
            && PlanUpsert(st, Promoted(item, n, actor, reason, now), Some("canonical"), now) == (st, plan)
            && plan.Ok? && Pending(st, plan.value) && PlanOk(st, plan.value)
            && plan.value.previous == Some(st.manifest[n].file) && plan.value.file.tier == Canonical
            && plan.value.file.name == n && ParseType(Trim(item.objectType.value)) == Some(plan.value.file.objectType)
  {
    hide Sound, FileOk, PlanUpsert, Promoted, Commit, Indexable, OneFile;
    SoundRow(st, n);
    SoundParts(st);
    var p := Promoted(item, n, actor, reason, now);
    PromotedId(item, n, actor, reason, now);
    PromotedType(item, n, actor, reason, now);
    PlanIsPure(st, p, Some("canonical"), now);
    PlanIsRecord(st, p, Some("canonical"), now);
    PlanIsPending(st, p, Some("canonical"), now);
  }

  lemma PromotedType(item: Payload, n: string, actor: string, reason: Option<string>, now: Time)
    ensures Promoted(item, n, actor, reason, now).objectType == item.objectType
  {
  }

  lemma CanonicalIsFirst(plan: Plan)
    requires plan.file.tier == Canonical && plan.previous.Some? && plan.previous.value.tier != Canonical
    ensures Moves(plan) && !Before(plan.previous.value, plan.file)
  {
  }

  /** Two stores that serve the same object from the same file plan the same upsert. */
  lemma SamePlan(a: State, b: State, payload: Payload, tier: Option<string>, now: Time, n: string)
    requires WellFormed(a.disk) && Pointing(a) && WellFormed(b.disk) && Pointing(b)
    requires payload.id == Some(n) && Validate(n) == Some(n) && n != "" && n in a.manifest && n in b.manifest
    requires a.manifest[n].file == b.manifest[n].file && ObjectOf(a, n) == ObjectOf(b, n)
    ensures PlanUpsert(b, payload, tier, now) == (b, PlanUpsert(a, payload, tier, now).1)
  {
    hide FileOk, ValidateAs, Prepare, Load;
    assert RowPoints(a, n) && RowPoints(b, n);
    LoadIsPure(a, a.manifest[n]);
    LoadIsPure(b, b.manifest[n]);
  }

  predicate OneFileBut(disk: map<Path, Payload>, id: string) {
    forall p, q :: p in disk && q in disk && p.name == q.name && p.name != id ==> p == q
  }

  lemma RecoveredRow(st: State, plan: Plan, k: nat)
    requires Pending(st, plan) && 1 <= k <= 2 && plan.file.tier == Canonical
    requires plan.previous.Some? && plan.previous.value.tier == Candidate
    ensures var r := Recover(CrashAt(st, plan, k)).0;
            && WellFormed(r.disk) && Synced(r) && Pointing(r)
            && RowFile(r, plan.file.name) == plan.previous
            && ObjectOf(r, plan.file.name) == ObjectOf(st, plan.file.name)
            && (forall q :: q in r.disk && q.name == plan.file.name ==> q == plan.file || Some(q) == plan.previous)
            && OneFileBut(r.disk, plan.file.name)
  {
    hide FileOk, Synced, RowOf, Indexable, Without, CrashAt, Recover, Before, FtsCovers, WellFormed;
    CanonicalIsFirst(plan);
    ReopenRebuilds(st, plan, k);
    PendingIsLatest(st, plan);
    SurvivorIsLast(st, plan, k);
    CrashOldExactly(st, plan, k);
    SyncedPoints(Recover(CrashAt(st, plan, k)).0);
    CrashFiles(st, plan, k);
    assert forall q :: q in st.disk && q.name == plan.file.name && q != plan.file && plan.previous != Some(q)
                       ==> Leftover(st, plan, q);
  }

  lemma RetryPromote(st: State, plan: Plan, k: nat, item: Payload, actor: string, reason: Option<string>, now: Time,
                     again: Plan)
    requires Pending(st, plan) && 1 <= k <= 2 && plan.file.tier == Canonical
    requires plan.file.name in st.manifest && st.manifest[plan.file.name].tier == Candidate
    requires ObjectOf(st, plan.file.name) == Some(item) && plan.previous == again.previous && plan.file == again.file
    requires PlanUpsert(st, Promoted(item, plan.file.name, actor, reason, now), Some("canonical"), now)
             == (st, Ok(again))
    requires PlanOk(st, again)
    ensures var r := Recover(CrashAt(st, plan, k)).0;
            && Promote(r, plan.file.name, actor, reason, now, true) == (Commit(r, again), Ok(again.record))
            && Inv(Commit(r, again))
  {
    hide Inv, FileOk, Synced, PlanUpsert, Promoted, Commit, Indexable, Before, RowOf, Recover, CrashAt, WellFormed;
    hide FtsCovers;
    var n := plan.file.name;
    var r := Recover(CrashAt(st, plan, k)).0;
    SoundRow(st, n);
    RecoveredRow(st, plan, k);
    PromotedId(item, n, actor, reason, now);
    var p := Promoted(item, n, actor, reason, now);
    assert n != "" by { ValidIsNonEmpty(n); }
    SamePlan(st, r, p, Some("canonical"), now, n);
    assert RowPoints(r, n);
    LoadIsPure(r, r.manifest[n]);
    assert Upsert(r, p, Some("canonical"), now, true) == (Commit(r, again), Ok(again.record));
    MoveUnlinks(r, n, p, "canonical", now, true);
    CommitHeals(r, again);
  }

  lemma ValidIsNonEmpty(n: string)
    requires Validate(n) == Some(n)
    ensures n != ""
  {
  }

  /** Without leftovers a completed upsert restores the invariant for its id. */
  lemma CommitHeals(r: State, plan: Plan)
    requires WellFormed(r.disk) && Synced(r) && FileOk(plan.file, plan.record) && Indexable(plan.record)
    requires plan.previous == RowFile(r, plan.file.name)
    requires forall q :: !Leftover(r, plan, q)
    requires OneFileBut(r.disk, plan.file.name)
    ensures Inv(Commit(r, plan))
  {
    hide FileOk, Synced, RowOf, Indexable, Without, Before;
    CommitWellFormed(r, plan);
    CommitSyncsExactly(r, plan);
    var c := Commit(r, plan);
    forall p, q | p in c.disk && q in c.disk && p.name == q.name ensures p == q {
      assert !Leftover(r, plan, p) && !Leftover(r, plan, q);
    }
  }

  /** A deprecation cut short before its unlink comes back deprecated, since its tier is walked last.
      It cannot be retried, so the old file stays beside the new one. */
  lemma CrashedDeprecate(st: State, n: string, actor: string, reason: string, supersededBy: Option<string>,
                         now: Time, k: nat)
    requires Sound(st) && OneFile(st.disk) && 1 <= k <= 2 && Validate(n) == Some(n)
    requires Deprecate(st, n, actor, reason, supersededBy, now, true).1.Ok?
    ensures n in st.manifest && st.manifest[n].file in st.disk
    ensures var p := DeprecatedForm(st.disk[st.manifest[n].file], actor, reason, supersededBy, now);
            && PlanUpsert(st, p, Some("deprecated"), now).1.Ok?
            && var plan := PlanUpsert(st, p, Some("deprecated"), now).1.value;
            && Indexable(plan.record)
            && var r := Recover(CrashAt(st, plan, k)).0;
            && ObjectOf(r, n) == Some(plan.record) && Synced(r)
            && Deprecate(r, n, actor, reason, supersededBy, now, true) == (r, Err(Invalid))
            && st.manifest[n].file in r.disk && plan.file in r.disk && st.manifest[n].file != plan.file
  {
    hide Usable, Sound, OneFile, FileOk, Synced, PlanUpsert, DeprecatedForm, Indexable, RowOf, CrashAt, Recover, Before;
    hide WellFormed, Latest, NewIsLast, OldIsLast;
    SoundRow(st, n);
    SoundParts(st);
    var item := st.disk[st.manifest[n].file];
    var p := DeprecatedForm(item, actor, reason, supersededBy, now);
    DeprecatedId(item, actor, reason, supersededBy, now);
    PlanIsPure(st, p, Some("deprecated"), now);
    var plan := PlanUpsert(st, p, Some("deprecated"), now).1.value;
    PlanIsPending(st, p, Some("deprecated"), now);
    PlanIsRecord(st, p, Some("deprecated"), now);
    DeprecatedIsLast(plan);
    ReopenRebuilds(st, plan, k);
    PendingIsLatest(st, plan);
    CrashFiles(st, plan, k);
    SurvivorIsLast(st, plan, k);
    CrashNewExactly(st, plan, k);
    var r := Recover(CrashAt(st, plan, k)).0;
    SyncedPoints(r);
    assert RowPoints(r, n);
  }

  lemma DeprecatedIsLast(plan: Plan)
    requires plan.file.tier == Deprecated && plan.previous.Some? && plan.previous.value.tier != Deprecated
    ensures Moves(plan) && Before(plan.previous.value, plan.file)
  {
  }
}
