/**
 What promotion and deprecation are for: when they succeed, what they leave of an object, and what a
 second accident can undo.
 */
module KbMoves {
  import opened Wrappers
  import opened Identifiers
  import opened Text
  import opened Listing
  import opened KbModel
  import opened KbSpec
  import opened KbIndex
  import opened KbRuns
  import opened KbSound
  import opened KbCrash

  /** A stored record, given another status, provenance, reason and tier, still validates, and differs
      from before in those fields, its revision and its update time only. */
  lemma RestampedRecord(t: ObjectType, x: Payload, y: Payload, tier: Tier, now: Time)
    requires IsRecord(t, x)
    requires y == x.(status := y.status, promotionSource := y.promotionSource, deprecatedReason := y.deprecatedReason)
    requires y.promotionSource.Some? && y.deprecatedReason.Some?
    ensures ValidateAs(t, Prepare(y, Some(x), tier, now)).Some?
    ensures SameContent(x, ValidateAs(t, Prepare(y, Some(x), tier, now)).value, now)
  {
    ValidatedIsRecord(t, x);
    hide TrimAll, NormalizeBody, BodyAccepted, TrimOption;
  }

  /** z is x with a new stamp: nothing a reader of the object sees has changed. */
  predicate SameContent(x: Payload, z: Payload, now: Time) {
    && z.id == x.id && z.objectType == x.objectType && z.createdAt == x.createdAt && z.body == x.body
    && z.supersedes == x.supersedes && z.schemaVersion == x.schemaVersion
    && z.updatedAt == Some(now) && z.revision == Some(x.revision.GetOr(1) + 1)
  }

  lemma TypeTrims(t: ObjectType)
    ensures ParseType(Trim(TypeName(t))) == Some(t)
  {
    TrimFixed(TypeName(t));
  }

  lemma RecordNames(p: Path, x: Payload)
    requires FileOk(p, x)
    ensures IsRecord(p.objectType, x) && x.id == Some(p.name) && x.objectType == Some(TypeName(p.objectType))
    ensures Validate(p.name) == Some(p.name) && p.name != ""
    ensures x.promotionSource.Some?
  {
    RecordIsIndexable(p.objectType, x);
  }

  /** Re-stamping the object n through upsert plans a record with the same content. */
  lemma RestampPlans(st: State, n: string, y: Payload, tierName: string, now: Time)
    requires WellFormed(st.disk) && Pointing(st) && n in st.manifest && st.manifest[n].file in st.disk
    requires var x := st.disk[st.manifest[n].file];
             y == x.(status := y.status, promotionSource := y.promotionSource, deprecatedReason := y.deprecatedReason)
    requires y.promotionSource.Some? && y.deprecatedReason.Some? && ParseTier(tierName).Some? && tierName != ""
    ensures var plan := PlanUpsert(st, y, Some(tierName), now);
            plan.0 == st && plan.1.Ok? && SameContent(st.disk[st.manifest[n].file], plan.1.value.record, now)
  {
    hide FileOk, ValidateAs, Prepare, IsRecord, ParseTier, Load, SameContent;
    assert RowPoints(st, n);
    var row := st.manifest[n];
    LoadIsPure(st, row);
    var x := st.disk[row.file];
    RecordNames(row.file, x);
    TypeTrims(row.file.objectType);
    RestampedRecord(row.file.objectType, x, y, ParseTier(tierName).value, now);
  }

  lemma PromotedShape(x: Payload, n: string, actor: string, reason: Option<string>, now: Time)
    ensures var y := Promoted(x, n, actor, reason, now);
            && y == x.(status := y.status, promotionSource := y.promotionSource, deprecatedReason := y.deprecatedReason)
            && y.promotionSource.Some? && y.deprecatedReason.Some?
  {
  }

  lemma DeprecatedShape(x: Payload, actor: string, reason: string, by_: Option<string>, now: Time)
    ensures var y := DeprecatedForm(x, actor, reason, by_, now);
            && y == x.(status := y.status, promotionSource := y.promotionSource, deprecatedReason := y.deprecatedReason)
            && y.promotionSource.Some? && y.deprecatedReason.Some?
  {
  }

  /** Promotion, on every store a crash can leave, succeeds exactly for an existing candidate whose index transaction
      goes through, and the published object has the candidate's content. */
  lemma PromoteExactly(st: State, id: string, actor: string, reason: Option<string>, now: Time, indexOk: bool)
    requires Sound(st)
    ensures var r := Promote(st, id, actor, reason, now, indexOk).1;
            && (r.Ok? <==> indexOk && Validate(id).Some? && Validate(id).value in st.manifest
                           && st.manifest[Validate(id).value].tier == Candidate)
            && (r.Ok? ==> ObjectOf(st, Validate(id).value).Some?
                          && SameContent(ObjectOf(st, Validate(id).value).value, r.value, now))
  {
    hide Sound, PlanUpsert, Promoted, SameContent, Commit, RollBack, Indexable, Load;
    if Validate(id).Some? && Validate(id).value in st.manifest && st.manifest[Validate(id).value].tier == Candidate {
      var n := Validate(id).value;
      SoundRow(st, n);
      var x := st.disk[st.manifest[n].file];
      SoundParts(st);
      PromotedShape(x, n, actor, reason, now);
      RestampPlans(st, n, Promoted(x, n, actor, reason, now), "canonical", now);
    }
  }

  /** Deprecation succeeds exactly for an existing object of another tier, and keeps its content. */
  lemma DeprecateExactly(st: State, id: string, actor: string, reason: string, by_: Option<string>, now: Time,
                         indexOk: bool)
    requires Sound(st)
    ensures var r := Deprecate(st, id, actor, reason, by_, now, indexOk).1;
            && (r.Ok? <==> indexOk && Validate(id).Some? && Validate(id).value in st.manifest
                           && st.manifest[Validate(id).value].tier != Deprecated)
            && (r.Ok? ==> ObjectOf(st, Validate(id).value).Some?
                          && SameContent(ObjectOf(st, Validate(id).value).value, r.value, now))
  {
    hide Sound, PlanUpsert, DeprecatedForm, SameContent, Commit, RollBack, Indexable, Load;
    if Validate(id).Some? && Validate(id).value in st.manifest && st.manifest[Validate(id).value].tier != Deprecated {
      var n := Validate(id).value;
      SoundRow(st, n);
      var x := st.disk[st.manifest[n].file];
      SoundParts(st);
      DeprecatedShape(x, actor, reason, by_, now);
      RestampPlans(st, n, DeprecatedForm(x, actor, reason, by_, now), "deprecated", now);
    }
  }

  /** Any deprecation of a candidate that was cut short, and any later upsert of that id into the canonical
      tier: the next opening undoes the upsert. */
  lemma UpsertUndoneByReopening(st: State, plan: Plan, k: nat, next: Plan)
    requires Pending(st, plan) && 1 <= k <= 2
    requires plan.file.tier == Deprecated && plan.previous.Some? && plan.previous.value.tier == Candidate
    requires FileOk(next.file, next.record) && Indexable(next.record)
    requires next.file.tier == Canonical && next.file.name == plan.file.name && next.previous == Some(plan.file)
    ensures var r := Recover(CrashAt(st, plan, k)).0;
            && RowFile(r, plan.file.name) == Some(plan.file)
            && ObjectOf(Commit(r, next), plan.file.name) == Some(next.record)
            && ObjectOf(Recover(Commit(r, next)).0, plan.file.name) == ObjectOf(st, plan.file.name)
  {
    hide FileOk, Synced, RowOf, Indexable, Without, CrashAt, Recover, Commit, FtsCovers, Pointing, AllNamed, WellFormed;
    DeprecatedIsLast(plan);
    ReopenRebuilds(st, plan, k);
    CrashFiles(st, plan, k);
    PendingIsLatest(st, plan);
    SurvivorIsLast(st, plan, k);
    CrashNewExactly(st, plan, k);
    var r := Recover(CrashAt(st, plan, k)).0;
    SyncedIsSound(r);
    UpsertDurableExactly(r, next);
    PreviousIsServed(st, plan);
    StaleFile(r, next, plan.previous.value);
  }

  lemma PreviousIsServed(st: State, plan: Plan)
    requires Pending(st, plan) && plan.previous.Some?
    ensures plan.previous.value in st.disk && plan.previous.value.name == plan.file.name
    ensures ObjectOf(st, plan.file.name) == Some(st.disk[plan.previous.value])
  {
    hide FileOk, Indexable, FtsCovers;
    ObjectOfSound(st, plan.file.name);
  }

  /** With one leftover, and that after the new file, the leftover is what the next opening serves. */
  lemma StaleFile(r: State, next: Plan, q: Path)
    requires Usable(r) && PlanOk(r, next)
    requires Leftover(r, next, q) && Before(next.file, q) && forall p :: Leftover(r, next, p) ==> p == q
    ensures ObjectOf(Recover(Commit(r, next)).0, next.file.name) == Some(r.disk[q])
  {
    hide FileOk, Usable, Indexable, Before, Recover, Commit;
    CommitServes(r, next);
    CommitParts(r, next);
    var c := Commit(r, next);
    ReopenedRow(c, next.file.name);
    forall p | p in c.disk && p.name == q.name ensures p == q || Before(p, q) {
      assert p == next.file || Leftover(r, next, p);
    }
    assert LastOfName(c.disk, q);
  }

  /** What a deprecation of the candidate n is about to do. */
  lemma DeprecationPlan(st: State, n: string, actor: string, reason: string, by_: Option<string>, now: Time)
    requires Sound(st) && OneFile(st.disk) && Validate(n) == Some(n) && n in st.manifest
    requires st.manifest[n].tier == Candidate
    ensures st.manifest[n].file in st.disk
    ensures var made := PlanUpsert(st, DeprecatedForm(st.disk[st.manifest[n].file], actor, reason, by_, now),
                                   Some("deprecated"), now).1;
            && made.Ok? && Pending(st, made.value)
            && made.value.file.tier == Deprecated && made.value.file.name == n
            && made.value.previous == Some(st.manifest[n].file) && st.manifest[n].file.tier == Candidate
  {
    hide Sound, FileOk, PlanUpsert, DeprecatedForm, Indexable, SameContent, Load, OneFile;
    SoundRow(st, n);
    SoundParts(st);
    var x := st.disk[st.manifest[n].file];
    var y := DeprecatedForm(x, actor, reason, by_, now);
    DeprecatedShape(x, actor, reason, by_, now);
    RestampPlans(st, n, y, "deprecated", now);
    PlanIsPending(st, y, Some("deprecated"), now);
    PlanIsRecord(st, y, Some("deprecated"), now);
    assert y.id == x.id;
  }

  /** After a deprecation of a candidate was cut short, every upsert of that id into the canonical tier
      is lost: it answers with its record and get returns it, but the next opening serves the candidate
      from before the deprecation. There is always such an upsert. */
  lemma CompletedUpsertIsLost(st: State, n: string, actor: string, reason: string, by_: Option<string>, now: Time,
                              k: nat, y: Payload, later: Time)
    requires Sound(st) && OneFile(st.disk) && Validate(n) == Some(n) && n in st.manifest
    requires st.manifest[n].tier == Candidate
    requires 1 <= k <= 2
    ensures st.manifest[n].file in st.disk
    ensures var item := st.disk[st.manifest[n].file];
            var made := PlanUpsert(st, DeprecatedForm(item, actor, reason, by_, now), Some("deprecated"), now).1;
            && made.Ok? && Indexable(made.value.record)
            && var r := Recover(CrashAt(st, made.value, k)).0;
            && Upsert(r, made.value.record, Some("canonical"), later, true).1.Ok?
            && (y.id.Some? && Validate(y.id.value) == Some(n) && Upsert(r, y, Some("canonical"), later, true).1.Ok? ==>
                  && var (s2, answer) := Upsert(r, y, Some("canonical"), later, true);
                  && ObjectOf(s2, n) == Some(answer.value)
                  && ObjectOf(Recover(s2).0, n) == Some(item))
  {
    hide Inv, FileOk, PlanUpsert, DeprecatedForm, Indexable, CrashAt, Recover, Commit, Synced;
    DeprecationPlan(st, n, actor, reason, by_, now);
    var item := st.disk[st.manifest[n].file];
    var plan := PlanUpsert(st, DeprecatedForm(item, actor, reason, by_, now), Some("deprecated"), now).1.value;
    var r := Recover(CrashAt(st, plan, k)).0;
    DeprecationReopens(st, plan, k);
    RecordNames(plan.file, plan.record);
    RecordIsIndexable(plan.file.objectType, plan.record);
    RestampPlans(r, n, plan.record, "canonical", later);
    PlanIsPure(r, y, Some("canonical"), later);
    if PlanUpsert(r, y, Some("canonical"), later).1.Ok? && y.id.Some? && Validate(y.id.value) == Some(n) {
      var next := PlanUpsert(r, y, Some("canonical"), later).1.value;
      PlanIsRecord(r, y, Some("canonical"), later);
      UpsertUndoneByReopening(st, plan, k, next);
    }
  }

  lemma DeprecationReopens(st: State, plan: Plan, k: nat)
    requires Pending(st, plan) && 1 <= k <= 2
    requires plan.file.tier == Deprecated && plan.previous.Some? && plan.previous.value.tier == Candidate
    ensures var r := Recover(CrashAt(st, plan, k)).0;
            && WellFormed(r.disk) && Pointing(r) && plan.file.name in r.manifest
            && r.manifest[plan.file.name].file == plan.file && plan.file in r.disk && r.disk[plan.file] == plan.record
  {
    hide FileOk, Synced, Indexable, CrashAt, Recover, FtsCovers, WellFormed;
    DeprecatedIsLast(plan);
    ReopenRebuilds(st, plan, k);
    PendingIsLatest(st, plan);
    SurvivorIsLast(st, plan, k);
    CrashNewExactly(st, plan, k);
    CrashFiles(st, plan, k);
    SyncedPoints(Recover(CrashAt(st, plan, k)).0);
  }

  // ---------------------------------------------------------------- after a rebuild that raised

  /** When the first transaction of a rebuild raises, the rows are gone and the files are all there. */
  lemma RaisedAtFirst(st: State)
    requires WellFormed(st.disk) && st.disk != map[]
    ensures RebuildUntil(st, Some(0)) == (Cleared(st), Err(Database))
  {
    hide FileOk, Walk, IndexFile, Migrate;
    WellFormedLoads(st.disk);
    RaisesExactly(st, 0);
    var files := Walk(st.disk.Keys);
    assert files[0] in files;
    assert files[..0] == [];
    assert MigrateAll(st.disk)[files[0]] == st.disk[files[0]];
    assert Cleared(st).disk[files[0] := st.disk[files[0]]] == st.disk;
  }

  lemma RevalidatedRecord(t: ObjectType, x: Payload, tier: Tier, now: Time)
    requires IsRecord(t, x)
    ensures var z := ValidateAs(t, Prepare(x, None, tier, now)); z.Some? && z.value.id == x.id
  {
    ValidatedIsRecord(t, x);
    hide TrimAll, NormalizeBody, BodyAccepted, TrimOption;
  }

  /** Without its row a stored object is planned as a new one. */
  lemma PlanWithoutRows(st: State, p: Path, tierName: string, now: Time)
    requires WellFormed(st.disk) && p in st.disk && ParseTier(tierName).Some? && tierName != ""
    ensures var plan := PlanUpsert(Cleared(st), st.disk[p], Some(tierName), now);
            && plan.0 == Cleared(st) && plan.1.Ok? && PlanOk(Cleared(st), plan.1.value)
            && plan.1.value.file == Path(ParseTier(tierName).value, p.objectType, p.name)
            && plan.1.value.previous == None
  {
    hide FileOk, ValidateAs, Prepare, IsRecord, ParseTier, Indexable;
    var x := st.disk[p];
    RecordNames(p, x);
    TypeTrims(p.objectType);
    RevalidatedRecord(p.objectType, x, ParseTier(tierName).value, now);
    PlanIsPure(Cleared(st), x, Some(tierName), now);
  }

  lemma ClearedIsUsable(st: State)
    requires WellFormed(st.disk)
    ensures Usable(Cleared(st))
  {
  }

  /** After a rebuild that raised: the upsert of a candidate into the canonical tier
      goes through, finds no row and so leaves the candidate's file, and is lost at the next opening. */
  lemma RaisedThenUpsertIsLost(st: State, p: Path, now: Time)
    requires WellFormed(st.disk) && OneFile(st.disk) && p in st.disk && p.tier == Candidate
    ensures var raised := RebuildUntil(st, Some(0)).0;
            var (s2, r) := Upsert(raised, st.disk[p], Some("canonical"), now, true);
            && r.Ok? && ObjectOf(s2, p.name) == Some(r.value)
            && !OneFile(s2.disk) && ObjectOf(Recover(s2).0, p.name) == Some(st.disk[p])
  {
    hide FileOk, PlanUpsert, Indexable, Commit, Recover, RebuildUntil, IsRecord, TierAgrees, Usable, ObjectOf;
    RaisedAtFirst(st);
    ClearedIsUsable(st);
    PlanWithoutRows(st, p, "canonical", now);
    var plan := PlanUpsert(Cleared(st), st.disk[p], Some("canonical"), now).1.value;
    CommitServes(Cleared(st), plan);
    CommitParts(Cleared(st), plan);
    var s2 := Commit(Cleared(st), plan);
    assert p in s2.disk && plan.file in s2.disk && p != plan.file;
    assert LastOfName(s2.disk, p);
    ReopenedRow(s2, p.name);
  }

  /** And an upsert into the object's own file that fails takes the file away: to the rollback it looks
      like one the upsert has made. */
  lemma RaisedThenFailureDeletes(st: State, p: Path, now: Time)
    requires WellFormed(st.disk) && OneFile(st.disk) && p in st.disk && p.tier == Candidate
    ensures var raised := RebuildUntil(st, Some(0)).0;
            var (s2, r) := Upsert(raised, st.disk[p], Some("candidate"), now, false);
            && r == Err(Database) && s2.disk == st.disk - {p} && ObjectOf(Recover(s2).0, p.name) == None
  {
    hide FileOk, PlanUpsert, Indexable, Recover, RebuildUntil, Usable, ObjectOf;
    RaisedAtFirst(st);
    ClearedIsUsable(st);
    PlanWithoutRows(st, p, "candidate", now);
    var plan := PlanUpsert(Cleared(st), st.disk[p], Some("candidate"), now).1.value;
    RollBackServes(Cleared(st), plan);
    assert plan.file == p;
    ReopenedRow(RollBack(Cleared(st), plan), p.name);
  }
}
