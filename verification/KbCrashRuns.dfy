/**
 Runs in which the process may die at any moment and the store is opened again: each operation either
 runs to its end, which may be an error, or is cut short after some of its durable steps. Whatever the
 history, what can be read is a complete record that some operation of the run planned for that id; and
 every id that has a file can be read, unless a rebuild has raised and the store has not been opened or
 rebuilt since.
 */
module KbCrashRuns {
  import opened Wrappers
  import opened Identifiers
  import opened Listing
  import opened KbModel
  import opened KbSpec
  import opened KbIndex
  import opened KbRuns
  import opened KbSound
  import opened KbCrash

  /** An operation, and, when the process dies in it, after how many of its durable steps. */
  datatype Event = Event(op: Op, dies: Option<nat>)

  /** The upsert an operation comes down to, once its own checks have passed. */
  function PlanOf(st: State, op: Op): Option<Plan> {
    match op
    case OpUpsert(p, tier, now, _) => ToOption(PlanUpsert(st, p, tier, now).1)
    case OpCreate(p, now, _) => ToOption(PlanUpsert(st, p.(status := Some(CANDIDATE)), Some("candidate"), now).1)
    case OpPromote(id, actor, note, now, _) =>
      if Validate(id).Some? && Validate(id).value in st.manifest && st.manifest[Validate(id).value].tier == Candidate
         && ObjectOf(st, Validate(id).value).Some?
      then
        var n := Validate(id).value;
        ToOption(PlanUpsert(st, Promoted(ObjectOf(st, n).value, n, actor, note, now), Some("canonical"), now).1)
      else None
    case OpDeprecate(id, actor, reason, by_, now, _) =>
      if Validate(id).Some? && Validate(id).value in st.manifest && st.manifest[Validate(id).value].tier != Deprecated
         && ObjectOf(st, Validate(id).value).Some?
      then
        var n := Validate(id).value;
        var p := DeprecatedForm(ObjectOf(st, n).value, actor, reason, by_, now);
        ToOption(PlanUpsert(st, p, Some("deprecated"), now).1)
      else None
    case _ => None
  }

  function ToOption(r: Result<Plan>): Option<Plan> {
    match r case Ok(plan) => Some(plan) case Err(_) => None
  }

  predicate Commits(op: Op) {
    match op
    case OpUpsert(_, _, _, ok) => ok
    case OpCreate(_, _, ok) => ok
    case OpPromote(_, _, _, _, ok) => ok
    case OpDeprecate(_, _, _, _, _, ok) => ok
    case _ => false
  }

  /** What is durable when the process dies after k steps. An upsert whose transaction raises has only
      its file written, until the handler has taken it back; a rebuild has indexed k files. */
  function DiesAt(st: State, op: Op, k: nat): State {
    var plan := PlanOf(st, op);
    if plan.Some? && Indexable(plan.value.record) then
      (if Commits(op) then CrashAt(st, plan.value, if k <= 3 then k else 3)
       else if k <= 1 then CrashAt(st, plan.value, k)
       else RollBack(st, plan.value))
    else if op.OpRebuild? then DiesInRebuild(st, op.failAt, k)
    else if op.OpReopen? && st.disk.Keys != ManifestFiles(st) then DiesInRebuild(st, None, k)
    else st
  }

  /** A rebuild gets no further than the file whose transaction raises. */
  function DiesInRebuild(st: State, failAt: Option<nat>, k: nat): State {
    var n := |Walk(st.disk.Keys)|;
    var m := if failAt.Some? && failAt.value < k then failAt.value else k;
    Interrupted(st, if m <= n then m else n, failAt == Some(m))
  }

  function EventStep(st: State, e: Event): State {
    match e.dies
    case None => Step(st, e.op)
    case Some(k) => Recover(DiesAt(st, e.op, k)).0
  }

  function Live(events: seq<Event>): State {
    if events == [] then EMPTY else EventStep(Live(events[..|events| - 1]), events[|events| - 1])
  }

  // ---------------------------------------------------------------- the run's invariant

  /** The plan of a promotion or deprecation, as of any other upsert. */
  lemma PlanOfIsOk(st: State, op: Op)
    requires Usable(st) && PlanOf(st, op).Some?
    ensures PlanOk(st, PlanOf(st, op).value)
  {
    hide Usable, PlanUpsert, PlanOk, Promoted, DeprecatedForm, Supersedes, ObjectOf;
    match op
    case OpUpsert(p, tier, now, _) => PlanIsOk(st, p, tier, now);
    case OpCreate(p, now, _) => PlanIsOk(st, p.(status := Some(CANDIDATE)), Some("candidate"), now);
    case OpPromote(id, actor, note, now, _) =>
      var n := Validate(id).value;
      PlanIsOk(st, Promoted(ObjectOf(st, n).value, n, actor, note, now), Some("canonical"), now);
    case OpDeprecate(id, actor, reason, by_, now, _) =>
      var n := Validate(id).value;
      PlanIsOk(st, DeprecatedForm(ObjectOf(st, n).value, actor, reason, by_, now), Some("deprecated"), now);
    case _ =>
  }

  /** The store is usable in whatever state a death finds it, so the next opening is sound. */
  lemma DeathIsUsable(st: State, op: Op, k: nat)
    requires Usable(st)
    ensures Usable(DiesAt(st, op, k))
  {
    hide Usable, CrashAt, RollBack, PlanOf, ManifestFiles, Interrupted, Indexable, PlanOk;
    UsableParts(st);
    var plan := PlanOf(st, op);
    if plan.Some? && Indexable(plan.value.record) {
      PlanOfIsOk(st, op);
      CrashUsable(st, plan.value, if k <= 3 then k else 3);
      RollBackServes(st, plan.value);
    } else {
      if op.OpRebuild? { RebuildDeathUsable(st, op.failAt, k); }
      RebuildDeathUsable(st, None, k);
    }
  }

  lemma RebuildDeathUsable(st: State, failAt: Option<nat>, k: nat)
    requires WellFormed(st.disk)
    ensures Usable(DiesInRebuild(st, failAt, k)) && DiesInRebuild(st, failAt, k).disk == st.disk
  {
    hide Usable, Interrupted, WellFormed;
    var n := |Walk(st.disk.Keys)|;
    var m := if failAt.Some? && failAt.value < k then failAt.value else k;
    InterruptedUsable(st, if m <= n then m else n, failAt == Some(m));
  }

  /** After this event the store has been opened, or rebuilt to the end. */
  predicate Mends(st: State, e: Event) {
    e.dies.Some? || Names(st, e.op)
  }

  predicate Hurts(st: State, e: Event) {
    e.dies.None? && Raising(st, e.op)
  }

  /** A rebuild has raised, and the store has not been opened or rebuilt since. */
  predicate Hurt(events: seq<Event>) {
    events != [] &&
    var n := |events| - 1;
    var st := Live(events[..n]);
    Hurts(st, events[n]) || (!Mends(st, events[n]) && Hurt(events[..n]))
  }

  lemma EventKeepsUsable(st: State, e: Event)
    requires Usable(st)
    ensures Usable(EventStep(st, e))
    ensures !Hurts(st, e) && (AllNamed(st) || Mends(st, e)) ==> Sound(EventStep(st, e))
  {
    hide Usable, AllNamed, Step, Recover, DiesAt, Raising, Names;
    if e.dies.None? {
      StepKeepsUsable(st, e.op);
    } else {
      DeathIsUsable(st, e.op, e.dies.value);
      RecoverSound(DiesAt(st, e.op, e.dies.value));
    }
  }

  lemma {:induction false} LiveIsUsable(events: seq<Event>)
    ensures Usable(Live(events)) && (!Hurt(events) ==> Sound(Live(events)))
  {
    hide Usable, AllNamed, EventStep, Hurts, Mends;
    if events == [] {
      EmptyInv();
      InvIsSound(EMPTY);
    } else {
      LiveIsUsable(events[..|events| - 1]);
      EventKeepsUsable(Live(events[..|events| - 1]), events[|events| - 1]);
    }
  }

  // ---------------------------------------------------------------- no torn record

  /** The files of s2 are files of st, except that the planned one may hold the planned record. */
  predicate FilesFrom(st: State, s2: State, plan: Option<Plan>) {
    forall p :: p in s2.disk ==>
      || (p in st.disk && s2.disk[p] == st.disk[p])
      || (plan.Some? && p == plan.value.file && s2.disk[p] == plan.value.record)
  }

  lemma CommitFilesFrom(st: State, plan: Plan)
    requires PlanOk(st, plan)
    ensures FilesFrom(st, Commit(st, plan), Some(plan)) && FilesFrom(st, RollBack(st, plan), Some(plan))
  {
    hide FileOk, Indexable, Commit, Without;
    CommitParts(st, plan);
  }

  lemma UpsertFilesFrom(st: State, payload: Payload, tier: Option<string>, now: Time, indexOk: bool)
    requires Usable(st)
    ensures FilesFrom(st, Upsert(st, payload, tier, now, indexOk).0, ToOption(PlanUpsert(st, payload, tier, now).1))
  {
    hide Usable, PlanUpsert, Commit, RollBack, FileOk, PlanOk, Indexable, IsRecord, TierAgrees, WellFormed, Pointing;
    hide Supersedes;
    UsableParts(st);
    PlanIsPure(st, payload, tier, now);
    if PlanUpsert(st, payload, tier, now).1.Ok? {
      PlanIsOk(st, payload, tier, now);
      CommitFilesFrom(st, PlanUpsert(st, payload, tier, now).1.value);
    }
  }

  lemma FewerFilesFrom(st: State, s2: State, plan: Option<Plan>, p: Path)
    requires FilesFrom(st, s2, plan)
    ensures FilesFrom(st, Unlink(s2, p), plan)
  {
  }

  lemma PromoteFilesFrom(st: State, id: string, actor: string, note: Option<string>, now: Time, ok: bool)
    requires Usable(st)
    ensures FilesFrom(st, Promote(st, id, actor, note, now, ok).0, PlanOf(st, OpPromote(id, actor, note, now, ok)))
  {
    hide Usable, Upsert, PlanUpsert, Promoted, WellFormed, Pointing, FtsCovers, FilesFrom, Load;
    NothingFrom(st, None);
    if Validate(id).Some? && Validate(id).value in st.manifest && st.manifest[Validate(id).value].tier == Candidate {
      var n := Validate(id).value;
      UsableRow(st, n);
      var p := Promoted(ObjectOf(st, n).value, n, actor, note, now);
      var plan := ToOption(PlanUpsert(st, p, Some("canonical"), now).1);
      UpsertFilesFrom(st, p, Some("canonical"), now, ok);
      FewerFilesFrom(st, Upsert(st, p, Some("canonical"), now, ok).0, plan, st.manifest[n].file);
    }
  }

  lemma DeprecateFilesFrom(st: State, id: string, actor: string, reason: string, by_: Option<string>, now: Time,
                           ok: bool)
    requires Usable(st)
    ensures FilesFrom(st, Deprecate(st, id, actor, reason, by_, now, ok).0,
                      PlanOf(st, OpDeprecate(id, actor, reason, by_, now, ok)))
  {
    hide Usable, Upsert, PlanUpsert, DeprecatedForm, WellFormed, Pointing, FtsCovers, FilesFrom, Load;
    NothingFrom(st, None);
    if Validate(id).Some? && Validate(id).value in st.manifest && st.manifest[Validate(id).value].tier != Deprecated {
      var n := Validate(id).value;
      UsableRow(st, n);
      var p := DeprecatedForm(ObjectOf(st, n).value, actor, reason, by_, now);
      var plan := ToOption(PlanUpsert(st, p, Some("deprecated"), now).1);
      UpsertFilesFrom(st, p, Some("deprecated"), now, ok);
      FewerFilesFrom(st, Upsert(st, p, Some("deprecated"), now, ok).0, plan, st.manifest[n].file);
    }
  }

  lemma StepFilesFrom(st: State, op: Op)
    requires Usable(st)
    ensures FilesFrom(st, Step(st, op), PlanOf(st, op))
  {
    hide Usable, Upsert, PlanUpsert, Promote, Deprecate, RebuildUntil, Recover, Get, WellFormed, Pointing, FtsCovers;
    hide FilesFrom;
    UsableParts(st);
    match op
    case OpUpsert(p, tier, now, ok) => UpsertFilesFrom(st, p, tier, now, ok);
    case OpCreate(p, now, ok) => UpsertFilesFrom(st, p.(status := Some(CANDIDATE)), Some("candidate"), now, ok);
    case OpPromote(id, actor, note, now, ok) => PromoteFilesFrom(st, id, actor, note, now, ok);
    case OpDeprecate(id, actor, reason, by_, now, ok) => DeprecateFilesFrom(st, id, actor, reason, by_, now, ok);
    case OpGet(id) => GetIsPure(st, id); NothingFrom(st, None);
    case OpRebuild(failAt) => RebuildUntilUsable(st, failAt); SameFiles(st, RebuildUntil(st, failAt).0, None);
    case OpReopen => RecoverSound(st); SameFiles(st, Recover(st).0, None);
  }

  lemma NothingFrom(st: State, plan: Option<Plan>)
    ensures FilesFrom(st, st, plan)
  {
  }

  lemma EventFilesFrom(st: State, e: Event)
    requires Usable(st)
    ensures FilesFrom(st, EventStep(st, e), PlanOf(st, e.op))
  {
    hide Usable, Step, Recover, DiesAt, PlanOf;
    if e.dies.None? {
      StepFilesFrom(st, e.op);
    } else {
      var c := DiesAt(st, e.op, e.dies.value);
      DeathIsUsable(st, e.op, e.dies.value);
      RecoverSound(c);
      DeathFilesFrom(st, e.op, e.dies.value);
    }
  }

  lemma DeathFilesFrom(st: State, op: Op, k: nat)
    requires Usable(st)
    ensures FilesFrom(st, DiesAt(st, op, k), PlanOf(st, op))
  {
    hide Usable, CrashAt, RollBack, PlanOf, ManifestFiles, DiesInRebuild, PlanOk, FilesFrom;
    UsableParts(st);
    NothingFrom(st, PlanOf(st, op));
    var plan := PlanOf(st, op);
    if plan.Some? && Indexable(plan.value.record) {
      PlanOfIsOk(st, op);
      CrashFilesFrom(st, plan.value, if k <= 3 then k else 3);
      CommitFilesFrom(st, plan.value);
    } else {
      if op.OpRebuild? {
        RebuildDeathUsable(st, op.failAt, k);
        SameFiles(st, DiesInRebuild(st, op.failAt, k), plan);
      }
      RebuildDeathUsable(st, None, k);
      SameFiles(st, DiesInRebuild(st, None, k), plan);
    }
  }

  lemma SameFiles(st: State, s2: State, plan: Option<Plan>)
    requires s2.disk == st.disk
    ensures FilesFrom(st, s2, plan)
  {
  }

  lemma CrashFilesFrom(st: State, plan: Plan, k: nat)
    requires Usable(st) && PlanOk(st, plan) && k <= 3
    ensures FilesFrom(st, CrashAt(st, plan, k), Some(plan))
  {
    hide Usable, CrashAt, Indexable, FileOk, WellFormed;
    CrashFiles(st, plan, k);
  }

  /** Event number i of the run planned to write x to p. */
  predicate Planned(events: seq<Event>, i: nat, p: Path, x: Payload) {
    && i < |events|
    && var plan := PlanOf(Live(events[..i]), events[i].op);
    && plan.Some? && plan.value.file == p && plan.value.record == x
  }

  lemma PlannedEarlier(events: seq<Event>, n: nat, i: nat, p: Path, x: Payload)
    requires n <= |events| && Planned(events[..n], i, p, x)
    ensures Planned(events, i, p, x)
  {
    hide PlanOf, Live;
    assert events[..n][..i] == events[..i];
  }

  lemma {:induction false} NoTornFile(events: seq<Event>, p: Path) returns (i: nat)
    requires p in Live(events).disk
    ensures Planned(events, i, p, Live(events).disk[p])
  {
    hide EventStep, PlanOf, Usable, AllNamed, Hurt;
    assert events != [];
    var n := |events| - 1;
    var st := Live(events[..n]);
    assert Live(events) == EventStep(st, events[n]);
    hide Live;
    LiveIsUsable(events[..n]);
    EventFilesFrom(st, events[n]);
    if p in st.disk && st.disk[p] == Live(events).disk[p] {
      i := NoTornFile(events[..n], p);
      PlannedEarlier(events, n, i, p, st.disk[p]);
    } else {
      i := n;
    }
  }

  /** After any run with any crashes and any errors: the store opens, and after that every id that has a
      file can be read; the FTS table has one row for each id of the manifest; reading changes nothing;
      and get answers with a record exactly for the ids of the manifest, complete, of that id, in a tier
      its status fits, and planned as a whole for that very file by some operation of the run. Unless a
      rebuild has raised since the last opening, those ids are the ids that have files. */
  lemma ReadsAreComplete(events: seq<Event>, id: string)
    ensures var st := Live(events);
            && Recover(st).1.Ok? && Recover(st).0.disk == st.disk && Sound(Recover(st).0)
            && FtsCovers(st)
            && (Validate(id) == Some(id) ==> Get(st, id).0 == st && (Get(st, id).1.Ok? <==> id in st.manifest))
            && (id in st.manifest ==>
                  && Validate(id) == Some(id) && Get(st, id).1.Ok?
                  && var x := Get(st, id).1.value;
                  && FileOk(st.manifest[id].file, x) && x.id == Some(id)
                  && exists i :: Planned(events, i, st.manifest[id].file, x))
            && (id in st.manifest ==> exists p :: p in st.disk && p.name == id)
            && (!Hurt(events) ==> (id in st.manifest <==> exists p :: p in st.disk && p.name == id))
  {
    hide FtsCovers, FileOk, Recover, Planned, Live, Load, Hurt;
    LiveIsUsable(events);
    var st := Live(events);
    RecoverSound(st);
    if id in st.manifest {
      UsableRow(st, id);
      var i := NoTornFile(events, st.manifest[id].file);
      assert FileOk(st.manifest[id].file, st.disk[st.manifest[id].file]);
    }
  }

  // ---------------------------------------------------------------- one crash after another

  lemma OpenedIsLatest(st: State, e: Event, id: string)
    requires Usable(st) && (e.dies.Some? || e.op.OpReopen?)
    ensures Latest(EventStep(st, e), id)
  {
    hide Usable, DiesAt, Recover, Latest;
    UsableParts(st);
    ReopenedIsLatest(st, id);
    if e.dies.Some? {
      DeathIsUsable(st, e.op, e.dies.value);
      UsableParts(DiesAt(st, e.op, e.dies.value));
      ReopenedIsLatest(DiesAt(st, e.op, e.dies.value), id);
    }
  }

  /** Crash upon crash: after any history that ends in an opening, an upsert cut short before its unlink
      is atomic again, for every id, whatever leftovers the store holds. */
  lemma CrashAfterOpening(events: seq<Event>, payload: Payload, tier: Option<string>, now: Time, k: nat)
    requires events != [] && (events[|events| - 1].dies.Some? || events[|events| - 1].op.OpReopen?)
    requires PlanUpsert(Live(events), payload, tier, now).1.Ok? && k <= 2
    ensures var st := Live(events);
            var plan := PlanUpsert(st, payload, tier, now).1.value;
            && Indexable(plan.record)
            && var r := Recover(CrashAt(st, plan, k)).0;
            && ObjectOf(r, plan.file.name) ==
               (if NewSurvives(plan, k) then Some(plan.record) else ObjectOf(st, plan.file.name))
            && (forall other :: other != plan.file.name ==> ObjectOf(r, other) == ObjectOf(st, other))
  {
    hide Usable, AllNamed, EventStep, PlanUpsert, Recover, CrashAt, ObjectOf, Latest, NewSurvives, Indexable, RowFile;
    hide OldIsLast, NewIsLast, Moves, Hurt;
    LiveIsUsable(events);
    var n := |events| - 1;
    LiveIsUsable(events[..n]);
    forall id ensures Latest(Live(events), id) {
      OpenedIsLatest(Live(events[..n]), events[n], id);
    }
    CrashAtomic(Live(events), payload, tier, now, k);
  }
}
