/**
 ThinKBService (packages/core/services/thin_kb_service.py): every store operation followed by its
 ledger events, and what the ledger then says about the objects.
 */
module KbService {
  import opened Wrappers
  import opened Identifiers
  import opened Text
  import opened Listing
  import opened KbModel
  import opened KbSpec
  import opened KbRuns
  import opened KbSound
  import opened KbCrash
  import opened KbStore
  import opened Ledger

  datatype KbEvent =
    | CandidateCreated(objectType: string, status: string)
    | CandidatePromoted(promotion: Option<string>, status: string)
    | ObjectDeprecated(reason: string, supersededBy: Option<string>)
    | ObjectSuperseded(successor: string)

  datatype World = World(kb: State, ledger: map<string, seq<KbEvent>>)

  function ServiceCreate(w: World, payload: Payload, now: Time, indexOk: bool): (World, Result<Payload>) {
    var (kb, r) := CreateCandidate(w.kb, payload, now, indexOk);
    if r.Err? then (World(kb, w.ledger), r)
    else
      var (ledger, noted) := Append(w.ledger, r.value.id.GetOr(""),
                                    CandidateCreated(r.value.objectType.GetOr(""), r.value.status.GetOr("")));
      (World(kb, ledger), if noted.Ok? then r else Err(noted.error))
  }

  function ServicePromote(w: World, id: string, actor: string, reason: Option<string>, now: Time, indexOk: bool)
    : (World, Result<Payload>)
  {
    var (kb, r) := Promote(w.kb, id, actor, reason, now, indexOk);
    if r.Err? then (World(kb, w.ledger), r)
    else
      var (ledger, noted) := Append(w.ledger, id, CandidatePromoted(reason, r.value.status.GetOr("")));
      (World(kb, ledger), if noted.Ok? then r else Err(noted.error))
  }

  function ServiceDeprecate(w: World, id: string, actor: string, reason: string, supersededBy: Option<string>,
                            now: Time, indexOk: bool): (World, Result<Payload>)
  {
    var (kb, r) := Deprecate(w.kb, id, actor, reason, supersededBy, now, indexOk);
    if r.Err? then (World(kb, w.ledger), r)
    else
      var (ledger, noted) := Append(w.ledger, id, ObjectDeprecated(reason, supersededBy));
      if noted.Err? then (World(kb, ledger), Err(noted.error))
      else if Given(supersededBy) then
        var (ledger2, noted2) := Append(ledger, id, ObjectSuperseded(supersededBy.value));
        (World(kb, ledger2), if noted2.Ok? then r else Err(noted2.error))
      else (World(kb, ledger), r)
  }

  class ThinKBService {
    const store: ThinKBStore
    const ledger: LedgerStore<KbEvent>

    constructor (store: ThinKBStore, ledger: LedgerStore<KbEvent>)
      ensures this.store == store && this.ledger == ledger
    {
      this.store, this.ledger := store, ledger;
    }

    ghost function View(): World
      reads store, ledger
    {
      World(store.View(), ledger.files)
    }

    method CreateCandidateObject(payload: Payload, now: Time, indexOk: bool) returns (r: Result<Payload>)
      modifies store, ledger
      ensures (View(), r) == ServiceCreate(old(View()), payload, now, indexOk)
    {
      r := store.CreateCandidateObject(payload, now, indexOk);
      if r.Ok? {
        var noted := ledger.AppendEvent(
          r.value.id.GetOr(""), CandidateCreated(r.value.objectType.GetOr(""), r.value.status.GetOr("")));
        if noted.Err? {
          return Err(noted.error);
        }
      }
    }

    method PromoteCandidate(id: string, promotedBy: string, reason: Option<string>, now: Time, indexOk: bool)
      returns (r: Result<Payload>)
      modifies store, ledger
      ensures (View(), r) == ServicePromote(old(View()), id, promotedBy, reason, now, indexOk)
      ensures ledger.audits == old(ledger.audits) +
              if r.Ok? then [(id, CandidatePromoted(reason, r.value.status.GetOr("")))] else []
    {
      r := store.PromoteCandidate(id, promotedBy, reason, now, indexOk);
      if r.Ok? {
        var event := CandidatePromoted(reason, r.value.status.GetOr(""));
        var noted := ledger.AppendEvent(id, event);
        if noted.Err? {
          return Err(noted.error);
        }
        ledger.AppendAudit(id, event);
      }
    }

    method DeprecateObject(id: string, deprecatedBy: string, reason: string, supersededBy: Option<string>,
                           now: Time, indexOk: bool) returns (r: Result<Payload>)
      modifies store, ledger
      ensures (View(), r) == ServiceDeprecate(old(View()), id, deprecatedBy, reason, supersededBy, now, indexOk)
      ensures ledger.audits == old(ledger.audits) +
              if r.Ok? then [(id, ObjectDeprecated(reason, supersededBy))] else []
    {
      r := store.DeprecateObject(id, deprecatedBy, reason, supersededBy, now, indexOk);
      if r.Ok? {
        var noted := ledger.AppendEvent(id, ObjectDeprecated(reason, supersededBy));
        if noted.Err? {
          return Err(noted.error);
        }
        if Given(supersededBy) {
          noted := ledger.AppendEvent(id, ObjectSuperseded(supersededBy.value));
          if noted.Err? {
            return Err(noted.error);
          }
        }
        ledger.AppendAudit(id, ObjectDeprecated(reason, supersededBy));
      }
    }
  }

  // ---------------------------------------------------------------- what the ledger says

  /** The number of events that record a new revision. */
  function Revisions(events: seq<KbEvent>): nat {
    if events == [] then 0
    else Revisions(events[..|events| - 1]) + if events[|events| - 1].ObjectSuperseded? then 0 else 1
  }

  /** The tier the events leave the object in. */
  function TierAfter(events: seq<KbEvent>): Option<Tier> {
    if events == [] then None
    else match events[|events| - 1]
         case CandidateCreated(_, _) => Some(Candidate)
         case CandidatePromoted(_, _) => Some(Canonical)
         case ObjectDeprecated(_, _) => Some(Deprecated)
         case ObjectSuperseded(_) => TierAfter(events[..|events| - 1])
  }

  predicate Told(w: World, n: string) {
    var events := History(w.ledger, n);
    if n in w.kb.manifest then
      w.kb.manifest[n].revision == Revisions(events) && TierAfter(events) == Some(w.kb.manifest[n].tier)
    else Revisions(events) == 0 && TierAfter(events) == None
  }

  /** Every object's revision is its number of recorded changes, and its tier the last one recorded. */
  ghost predicate Conserved(w: World) {
    forall n :: Told(w, n)
  }

  /** A canonical object is trusted and names itself as the candidate it was promoted from. */
  predicate Published(kb: State) {
    forall p :: p in kb.disk && p.tier == Canonical ==> PublishedFile(p, kb.disk[p])
  }

  predicate PublishedFile(p: Path, x: Payload) {
    && x.status == Some(TRUSTED) && x.promotionSource.Some?
    && "source_candidate_id" in x.promotionSource.value
    && x.promotionSource.value["source_candidate_id"] == Some(p.name)
  }

  // ---------------------------------------------------------------- effects of one upsert

  /** A store before and after a successful upsert of id n with result x: one row and one file are
      new, the other rows are the same and no other file appeared or changed. */
  predicate Replaced(st: State, s2: State, n: string, x: Payload, tier: Tier) {
    && s2.manifest.Keys == st.manifest.Keys + {n}
    && (forall m :: m in st.manifest && m != n ==> s2.manifest[m] == st.manifest[m])
    && var f := s2.manifest[n].file;
    && f.name == n && f.tier == tier && s2.manifest[n].tier == tier && f in s2.disk && s2.disk[f] == x
    && (forall p :: p in s2.disk && p != f ==> p in st.disk && s2.disk[p] == st.disk[p])
    && x.id == Some(n)
    && s2.manifest[n].revision == x.revision.GetOr(1)
  }

  lemma CommitReplaces(st: State, plan: Plan)
    requires Indexable(plan.record) && plan.record.id == Some(plan.file.name)
    ensures Replaced(st, Commit(st, plan), plan.file.name, plan.record, plan.file.tier)
  {
    hide Without;
  }

  /** The revision a successful upsert gives: the next one of the object, or the payload's own. */
  lemma PlanNewRevision(st: State, payload: Payload, tier: Option<string>, now: Time)
    requires Inv(st) && PlanUpsert(st, payload, tier, now).1.Ok?
    ensures var pl := PlanUpsert(st, payload, tier, now).1.value;
            pl.record.revision == Some(if pl.file.name in st.manifest then st.manifest[pl.file.name].revision + 1
                                       else payload.revision.GetOr(1))
  {
    hide Inv, FileOk, ValidateAs, Prepare, Load, Indexable, ChooseTier, Sound;
    SyncedPointsInv(st);
    PlanIsPure(st, payload, tier, now);
    InvIsSound(st);
    PlanIsOk(st, payload, tier, now);
    var pl := PlanUpsert(st, payload, tier, now).1.value;
    if pl.file.name in st.manifest {
      RowItem(st, pl.file.name);
      RowRevision(st, pl.file.name);
    } else {
      PlanFile(st, payload, tier, now);
      FreshRevision(payload, ParseType(Trim(payload.objectType.GetOr(""))).value, ChooseTier(payload, tier).value, now);
    }
  }

  lemma RowRevision(st: State, n: string)
    requires Inv(st) && n in st.manifest
    ensures st.manifest[n].file in st.disk
    ensures st.manifest[n].revision == st.disk[st.manifest[n].file].revision.GetOr(1)
  {
    hide FileOk, FtsAll;
    PlainIff(st);
    assert RowPlain(st, n);
  }

  lemma FreshRevision(payload: Payload, t: ObjectType, tier: Tier, now: Time)
    requires ValidateAs(t, Prepare(payload, None, tier, now)).Some?
    ensures ValidateAs(t, Prepare(payload, None, tier, now)).value.revision == Some(payload.revision.GetOr(1))
  {
    ValidatedRevision(t, Prepare(payload, None, tier, now));
  }

  /** What a successful upsert replaces, whether its tier is given or inferred. */
  lemma UpsertReplaces(st: State, payload: Payload, tier: Option<string>, now: Time, indexOk: bool)
    requires Inv(st)
    ensures var (s2, r) := Upsert(st, payload, tier, now, indexOk);
            && (r.Err? ==> s2 == st)
            && (r.Ok? ==>
                  && payload.id.Some? && Validate(payload.id.value).Some?
                  && var n := Validate(payload.id.value).value;
                  && ChooseTier(payload, tier).Some? && Replaced(st, s2, n, r.value, ChooseTier(payload, tier).value)
                  && r.value.revision == Some(if n in st.manifest then st.manifest[n].revision + 1
                                              else payload.revision.GetOr(1)))
  {
    hide Inv, PlanUpsert, Indexable, FileOk, Commit, RollBack, Replaced, IsRecord, TierAgrees, ChooseTier, Get;
    if PlanUpsert(st, payload, tier, now).1.Ok? {
      PlanReplaces(st, payload, tier, now);
    }
    if !indexOk {
      FailedUpsertIsNoop(st, payload, tier, now);
    }
    SyncedPointsInv(st);
    PlanIsPure(st, payload, tier, now);
  }

  lemma PlanReplaces(st: State, payload: Payload, tier: Option<string>, now: Time)
    requires Inv(st) && PlanUpsert(st, payload, tier, now).1.Ok?
    ensures payload.id.Some? && Validate(payload.id.value).Some? && ChooseTier(payload, tier).Some?
    ensures var (n, pl) := (Validate(payload.id.value).value, PlanUpsert(st, payload, tier, now).1.value);
            && Indexable(pl.record) && Replaced(st, Commit(st, pl), n, pl.record, ChooseTier(payload, tier).value)
            && pl.record.revision == Some(if n in st.manifest then st.manifest[n].revision + 1
                                          else payload.revision.GetOr(1))
  {
    hide Inv, PlanUpsert, Indexable, FileOk, Commit, Replaced, IsRecord, TierAgrees, ChooseTier;
    PlanIsRecord(st, payload, tier, now);
    CommitReplaces(st, PlanUpsert(st, payload, tier, now).1.value);
    PlanNewRevision(st, payload, tier, now);
  }

  // ---------------------------------------------------------------- service operations

  datatype ServiceOp =
    | SvcCreate(payload: Payload, now: Time, indexOk: bool)
    | SvcPromote(id: string, actor: string, note: Option<string>, now: Time, indexOk: bool)
    | SvcDeprecate(id: string, actor: string, reason: string, supersededBy: Option<string>, now: Time, indexOk: bool)

  function ServiceStep(w: World, op: ServiceOp): World {
    match op
    case SvcCreate(p, now, ok) => ServiceCreate(w, p, now, ok).0
    case SvcPromote(id, actor, note, now, ok) => ServicePromote(w, id, actor, note, now, ok).0
    case SvcDeprecate(id, actor, reason, by_, now, ok) => ServiceDeprecate(w, id, actor, reason, by_, now, ok).0
  }

  /** The store half of the operation, without the ledger. */
  function StoreHalf(w: World, op: ServiceOp): (State, Result<Payload>) {
    match op
    case SvcCreate(p, now, ok) => CreateCandidate(w.kb, p, now, ok)
    case SvcPromote(id, actor, note, now, ok) => Promote(w.kb, id, actor, note, now, ok)
    case SvcDeprecate(id, actor, reason, by_, now, ok) => Deprecate(w.kb, id, actor, reason, by_, now, ok)
  }

  function TargetTier(op: ServiceOp): Tier {
    match op
    case SvcCreate(_, _, _) => Candidate
    case SvcPromote(_, _, _, _, _) => Canonical
    case SvcDeprecate(_, _, _, _, _, _) => Deprecated
  }

  /** The id as the caller spells it when the ledger is told. */
  function SpelledId(w: World, op: ServiceOp): string {
    match op
    case SvcCreate(p, _, _) => Validate(p.id.GetOr("")).GetOr("")
    case SvcPromote(id, _, _, _, _) => id
    case SvcDeprecate(id, _, _, _, _, _) => id
  }

  /** A create that leaves object_revision to the store, or starts it at 1. */
  predicate CountsRevisions(op: ServiceOp) {
    op.SvcCreate? ==> op.payload.revision.GetOr(1) == 1
  }

  /** A new object that starts at a revision of its own. */
  predicate ForeignRevision(w: World, op: ServiceOp) {
    !CountsRevisions(op) && Validate(SpelledId(w, op)).GetOr("") !in w.kb.manifest
  }

  ghost predicate StoreHalfOk(w: World, op: ServiceOp) {
    var (kb, r) := StoreHalf(w, op);
    && Inv(kb)
    && (r.Err? ==> kb == w.kb)
    && (r.Ok? ==>
          && Validate(SpelledId(w, op)).Some?
          && var n := Validate(SpelledId(w, op)).value;
          && Replaced(w.kb, kb, n, r.value, TargetTier(op))
          && (n !in w.kb.manifest ==> op.SvcCreate? && kb.manifest[n].revision == op.payload.revision.GetOr(1))
          && (n in w.kb.manifest ==> kb.manifest[n].revision == w.kb.manifest[n].revision + 1))
  }

  lemma CreateHalf(w: World, p: Payload, now: Time, ok: bool)
    requires Inv(w.kb)
    ensures StoreHalfOk(w, SvcCreate(p, now, ok))
  {
    hide Inv, Upsert, Replaced;
    var payload := p.(status := Some(CANDIDATE));
    UpsertKeepsInv(w.kb, payload, Some("candidate"), now, ok);
    UpsertReplaces(w.kb, payload, Some("candidate"), now, ok);
    if StoreHalf(w, SvcCreate(p, now, ok)).1.Ok? {
      var n := Validate(p.id.value).value;
      ValidateNormalises(p.id.value);
      var (kb, r) := StoreHalf(w, SvcCreate(p, now, ok));
      ReplacedRevision(w.kb, kb, n, r.value, Candidate);
    }
  }

  lemma ReplacedRevision(st: State, s2: State, n: string, x: Payload, tier: Tier)
    requires Replaced(st, s2, n, x, tier)
    ensures n in s2.manifest && s2.manifest[n].revision == x.revision.GetOr(1) && x.id == Some(n)
  {
  }

  lemma MoveHalf(st: State, n: string, p: Payload, tier: string, now: Time, ok: bool)
    requires Inv(st) && n in st.manifest && p.id == Some(n) && tier != ""
    requires ParseTier(tier).Some? && ParseTier(tier) != Some(st.manifest[n].tier)
    ensures var (s2, r) := Upsert(st, p, Some(tier), now, ok);
            r.Ok? ==> Unlink(s2, st.manifest[n].file) == s2 && Replaced(st, s2, n, r.value, ParseTier(tier).value)
                      && n in s2.manifest && s2.manifest[n].revision == st.manifest[n].revision + 1
  {
    hide Inv, Upsert, Replaced, ParseTier;
    MoveKeepsInv(st, n, p, tier, now, ok);
    UpsertReplaces(st, p, Some(tier), now, ok);
    IdIsNameInv(st, n);
    var (s2, r) := Upsert(st, p, Some(tier), now, ok);
    if r.Ok? {
      ReplacedRevision(st, s2, n, r.value, ParseTier(tier).value);
    }
  }

  lemma PromoteHalf(w: World, id: string, actor: string, note: Option<string>, now: Time, ok: bool)
    requires Inv(w.kb)
    ensures StoreHalfOk(w, SvcPromote(id, actor, note, now, ok))
  {
    hide Inv, Upsert, Replaced, Promoted;
    PromoteKeepsInv(w.kb, id, actor, note, now, ok);
    if Promote(w.kb, id, actor, note, now, ok).1.Ok? {
      var n := Validate(id).value;
      RowItem(w.kb, n);
      PromotedId(w.kb.disk[w.kb.manifest[n].file], n, actor, note, now);
      MoveHalf(w.kb, n, Promoted(w.kb.disk[w.kb.manifest[n].file], n, actor, note, now), "canonical", now, ok);
    }
  }

  lemma DeprecateHalf(w: World, id: string, actor: string, reason: string, by_: Option<string>, now: Time, ok: bool)
    requires Inv(w.kb)
    ensures StoreHalfOk(w, SvcDeprecate(id, actor, reason, by_, now, ok))
  {
    hide Inv, Upsert, Replaced, DeprecatedForm;
    DeprecateKeepsInv(w.kb, id, actor, reason, by_, now, ok);
    if Deprecate(w.kb, id, actor, reason, by_, now, ok).1.Ok? {
      var n := Validate(id).value;
      RowItem(w.kb, n);
      DeprecatedId(w.kb.disk[w.kb.manifest[n].file], actor, reason, by_, now);
      var item := w.kb.disk[w.kb.manifest[n].file];
      MoveHalf(w.kb, n, DeprecatedForm(item, actor, reason, by_, now), "deprecated", now, ok);
    }
  }

  lemma HalfHolds(w: World, op: ServiceOp)
    requires Inv(w.kb)
    ensures StoreHalfOk(w, op)
  {
    hide *;
    match op
    case SvcCreate(p, now, ok) => CreateHalf(w, p, now, ok);
    case SvcPromote(id, actor, note, now, ok) => PromoteHalf(w, id, actor, note, now, ok);
    case SvcDeprecate(id, actor, reason, by_, now, ok) => DeprecateHalf(w, id, actor, reason, by_, now, ok);
  }

  // ---------------------------------------------------------------- conservation

  /** The events an operation adds when the ledger accepts the id. */
  function Recorded(w: World, op: ServiceOp): seq<KbEvent> {
    var r := StoreHalf(w, op).1;
    if r.Err? then []
    else match op
         case SvcCreate(_, _, _) => [CandidateCreated(r.value.objectType.GetOr(""), r.value.status.GetOr(""))]
         case SvcPromote(_, _, note, _, _) => [CandidatePromoted(note, r.value.status.GetOr(""))]
         case SvcDeprecate(_, _, reason, by_, _, _) =>
           [ObjectDeprecated(reason, by_)] + if Given(by_) then [ObjectSuperseded(by_.value)] else []
  }

  /** The store is changed in both cases, the ledger only when the id has no trailing whitespace. */
  lemma StepHistory(w: World, op: ServiceOp, n: string)
    requires Inv(w.kb)
    ensures var w2 := ServiceStep(w, op);
            && w2.kb == StoreHalf(w, op).0
            && History(w2.ledger, n) == History(w.ledger, n) +
                 (if StoreHalf(w, op).1.Ok? && !EndsInSpace(SpelledId(w, op)) && Validate(SpelledId(w, op)) == Some(n)
                  then Recorded(w, op) else [])
  {
    hide Inv, CreateCandidate, Promote, Deprecate, Append, Replaced, History;
    HalfHolds(w, op);
    var (kb, r) := StoreHalf(w, op);
    if r.Ok? {
      var id := SpelledId(w, op);
      match op {
        case SvcCreate(p, now, ok) =>
          ReplacedRevision(w.kb, kb, Validate(id).value, r.value, Candidate);
          IdentifierIsTrimmed(Validate(p.id.GetOr("")).value);
          AppendHistory(w.ledger, id, CandidateCreated(r.value.objectType.GetOr(""), r.value.status.GetOr("")), n);
        case SvcPromote(_, _, note, _, _) =>
          AppendHistory(w.ledger, id, CandidatePromoted(note, r.value.status.GetOr("")), n);
        case SvcDeprecate(_, _, reason, by_, _, _) =>
          AppendHistory(w.ledger, id, ObjectDeprecated(reason, by_), n);
          if Given(by_) {
            AppendHistory(Append(w.ledger, id, ObjectDeprecated(reason, by_)).0, id, ObjectSuperseded(by_.value), n);
          }
      }
    }
  }

  lemma RecordedSays(events: seq<KbEvent>, w: World, op: ServiceOp)
    requires StoreHalf(w, op).1.Ok?
    ensures Revisions(events + Recorded(w, op)) == Revisions(events) + 1
    ensures TierAfter(events + Recorded(w, op)) == Some(TargetTier(op))
  {
    hide CreateCandidate, Promote, Deprecate;
    var first := Recorded(w, op)[0];
    assert (events + [first])[..|events|] == events;
    if |Recorded(w, op)| == 2 {
      var all := events + Recorded(w, op);
      assert all[..|all| - 1] == events + [first];
    } else {
      assert Recorded(w, op) == [first];
    }
  }

  /** One service call keeps the ledger's account of the store exactly unless it changes the store and
      either spells the id with trailing whitespace, so that the ledger refuses the event, or creates a
      new object at a revision of its own. */
  lemma StepConservesExactly(w: World, op: ServiceOp)
    requires Inv(w.kb) && Conserved(w)
    ensures Inv(ServiceStep(w, op).kb)
    ensures Conserved(ServiceStep(w, op))
            <==> !(StoreHalf(w, op).1.Ok? && (EndsInSpace(SpelledId(w, op)) || ForeignRevision(w, op)))
  {
    hide Inv, StoreHalf, ServiceStep, Replaced, History, Recorded, SpelledId, Revisions, TierAfter;
    HalfHolds(w, op);
    var w2 := ServiceStep(w, op);
    StepHistory(w, op, "");
    var r := StoreHalf(w, op).1;
    if r.Ok? {
      var id := Validate(SpelledId(w, op)).value;
      ReplacedRows(w.kb, w2.kb, id, r.value, TargetTier(op));
      var kept := !EndsInSpace(SpelledId(w, op)) && !ForeignRevision(w, op);
      forall n ensures Told(w2, n) <==> n != id || kept {
        StepHistory(w, op, n);
        assert Told(w, n);
        if n == id {
          RecordedSays(History(w.ledger, n), w, op);
        }
        assert History(w.ledger, n) + [] == History(w.ledger, n);
      }
      assert Told(w2, id) <==> kept;
    } else {
      forall n ensures Told(w2, n) {
        StepHistory(w, op, n);
        assert Told(w, n);
        assert History(w.ledger, n) + [] == History(w.ledger, n);
      }
    }
  }

  lemma ReplacedRows(st: State, s2: State, n: string, x: Payload, tier: Tier)
    requires Replaced(st, s2, n, x, tier)
    ensures s2.manifest.Keys == st.manifest.Keys + {n} && s2.manifest[n].tier == tier
    ensures forall m :: m in st.manifest && m != n ==> s2.manifest[m] == st.manifest[m]
  {
  }

  // ---------------------------------------------------------------- runs

  function ServiceRun(ops: seq<ServiceOp>): World {
    if ops == [] then World(EMPTY, map[]) else ServiceStep(ServiceRun(ops[..|ops| - 1]), ops[|ops| - 1])
  }

  /** What a caller can see to: no revision of its own but 1, and no blank after the id. */
  predicate Clean(op: ServiceOp) {
    CountsRevisions(op) && (op.SvcPromote? || op.SvcDeprecate? ==> !EndsInSpace(op.id))
  }

  lemma CleanSpelling(w: World, op: ServiceOp)
    requires Clean(op) && Validate(SpelledId(w, op)).Some?
    ensures !EndsInSpace(SpelledId(w, op))
  {
    hide CountsRevisions;
    if op.SvcCreate? && Validate(op.payload.id.GetOr("")).Some? {
      IdentifierIsTrimmed(Validate(op.payload.id.GetOr("")).value);
    }
  }

  /** Conservation over whole service runs: revisions and tiers can be read off the ledger. */
  lemma {:induction false} RunConserves(ops: seq<ServiceOp>)
    requires forall i :: 0 <= i < |ops| ==> Clean(ops[i])
    ensures Inv(ServiceRun(ops).kb) && Conserved(ServiceRun(ops))
  {
    hide Inv, ServiceStep, StoreHalf, SpelledId, Replaced;
    if ops == [] {
      EmptyInv();
    } else {
      var n := |ops| - 1;
      assert forall i :: 0 <= i < n ==> ops[..n][i] == ops[i];
      RunConserves(ops[..n]);
      var w := ServiceRun(ops[..n]);
      HalfHolds(w, ops[n]);
      if StoreHalf(w, ops[n]).1.Ok? {
        CleanSpelling(w, ops[n]);
      }
      StepConservesExactly(w, ops[n]);
    }
  }

  /** The blank that breaks it: whenever promoting n works, promoting n followed by a space works on
      the store just the same, answers with an error, and leaves the ledger behind. */
  lemma PaddedPromoteBreaks(w: World, n: string, actor: string, note: Option<string>, now: Time)
    requires Inv(w.kb) && Conserved(w) && IsIdentifier(n) && Promote(w.kb, n, actor, note, now, true).1.Ok?
    ensures var (w2, r) := ServicePromote(w, n + " ", actor, note, now, true);
            && w2.kb == Promote(w.kb, n, actor, note, now, true).0 && r == Err(Invalid)
            && w2.ledger == w.ledger && !Conserved(w2)
  {
    hide Inv, Upsert, Promoted, Replaced, Conserved, IsIdentifier;
    IdentifierIsTrimmed(n);
    assert n + " " == [] + n + " ";
    TrimIs(n + " ", [], n, " ");
    assert Validate(n + " ") == Some(n);
    LedgerFileExact(n + " ");
    var op := SvcPromote(n + " ", actor, note, now, true);
    assert ServiceStep(w, op) == ServicePromote(w, n + " ", actor, note, now, true).0;
    StepConservesExactly(w, op);
  }

  lemma PromotedRecord(st: State, item: Payload, n: string, actor: string, reason: Option<string>, now: Time)
    requires PlanUpsert(st, Promoted(item, n, actor, reason, now), Some("canonical"), now).1.Ok?
    ensures var pl := PlanUpsert(st, Promoted(item, n, actor, reason, now), Some("canonical"), now).1.value;
            && pl.record.status == Some(TRUSTED)
            && pl.record.promotionSource ==
               Some(PromotionNote(item.promotionSource.GetOr(map[]), n, actor, reason, now))
  {
    var p := Promoted(item, n, actor, reason, now);
    assert p.status == Some(TRUSTED);
    assert p.promotionSource == Some(PromotionNote(item.promotionSource.GetOr(map[]), n, actor, reason, now));
    PlanCarries(st, p, now);
  }

  lemma PlanCarries(st: State, p: Payload, now: Time)
    requires PlanUpsert(st, p, Some("canonical"), now).1.Ok? && p.status == Some(TRUSTED) && p.promotionSource.Some?
    ensures var pl := PlanUpsert(st, p, Some("canonical"), now).1.value;
            pl.record.status == Some(TRUSTED) && pl.record.promotionSource == p.promotionSource
  {
    hide Load, LookUp, ValidateAs, Prepare;
    var t := ParseType(Trim(p.objectType.GetOr(""))).value;
    var row := LookUp(st, p.id).value;
    var existing := if row.None? then None else Some(Load(st, row.value).1.value);
    RecordCarries(t, p, existing, now);
  }

  predicate CarriedBy(p: Payload, x: Payload) {
    x.status == Some(TRUSTED) && x.promotionSource == p.promotionSource
  }

  lemma RecordCarries(t: ObjectType, p: Payload, existing: Option<Payload>, now: Time)
    requires p.status == Some(TRUSTED) && p.promotionSource.Some?
    requires ValidateAs(t, Prepare(p, existing, Canonical, now)).Some?
    ensures CarriedBy(p, ValidateAs(t, Prepare(p, existing, Canonical, now)).value)
  {
    hide BodyAccepted, NormalizeBody, TrimAll, TrimOption, Validate;
  }

  lemma PromotePublishes(st: State, id: string, actor: string, reason: Option<string>, now: Time, ok: bool)
    requires Inv(st) && Promote(st, id, actor, reason, now, ok).1.Ok?
    ensures Validate(id).Some?
    ensures var x := Promote(st, id, actor, reason, now, ok).1.value;
            PublishedFile(Path(Canonical, Claim, Validate(id).value), x)
  {
    hide Inv, Promoted, PlanUpsert, Indexable, Commit, FileOk, Load;
    PromoteKeepsInv(st, id, actor, reason, now, ok);
    var n := Validate(id).value;
    RowItem(st, n);
    var item := st.disk[st.manifest[n].file];
    PromotedRecord(st, item, n, actor, reason, now);
  }

  /** In a service-only run only promotion publishes. */
  lemma StepPublishes(w: World, op: ServiceOp)
    requires Inv(w.kb) && Published(w.kb)
    ensures Published(ServiceStep(w, op).kb)
  {
    hide Inv, CreateCandidate, Promote, Deprecate, PublishedFile;
    HalfHolds(w, op);
    StepHistory(w, op, "");
    var (kb, r) := StoreHalf(w, op);
    if r.Ok? {
      if op.SvcPromote? {
        PromotePublishes(w.kb, op.id, op.actor, op.note, op.now, op.indexOk);
        SamePublished(Path(Canonical, Claim, Validate(op.id).value), kb.manifest[Validate(op.id).value].file, r.value);
      }
    }
  }

  lemma SamePublished(p: Path, q: Path, x: Payload)
    requires PublishedFile(p, x) && p.name == q.name
    ensures PublishedFile(q, x)
  {
  }

  lemma {:induction false} RunPublishes(ops: seq<ServiceOp>)
    ensures Inv(ServiceRun(ops).kb) && Published(ServiceRun(ops).kb)
  {
    hide Inv, ServiceStep, StoreHalf, PublishedFile;
    if ops == [] {
      EmptyInv();
    } else {
      RunPublishes(ops[..|ops| - 1]);
      var w := ServiceRun(ops[..|ops| - 1]);
      HalfHolds(w, ops[|ops| - 1]);
      StepHistory(w, ops[|ops| - 1], "");
      StepPublishes(w, ops[|ops| - 1]);
    }
  }
}
