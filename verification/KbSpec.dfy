/**
 What each operation of ThinKBStore does to the durable state: the object files and the two index
 tables. The operations are total: they are defined on every state, also on one whose index does
 not match its files, and say which error the caller sees.
 */
module KbSpec {
  import opened Wrappers
  import opened Identifiers
  import opened Text
  import opened Listing
  import opened KbModel

  /** The files under the tier roots, the kb_objects table (its key is the id) and the rows of
      kb_objects_fts, which no constraint keeps unique. */
  datatype State = State(disk: map<Path, Payload>, manifest: map<string, Row>, fts: seq<FtsRow>)

  const EMPTY := State(map[], map[], [])

  // ---------------------------------------------------------------- single steps

  function Write(st: State, file: Path, p: Payload): State {
    st.(disk := st.disk[file := p])
  }

  function Unlink(st: State, file: Path): State {
    st.(disk := st.disk - {file})
  }

  /** DELETE FROM kb_objects_fts WHERE id = ? */
  function Without(rows: seq<FtsRow>, id: string): seq<FtsRow> {
    if rows == [] then []
    else if rows[|rows| - 1].id == id then Without(rows[..|rows| - 1], id)
    else Without(rows[..|rows| - 1], id) + [rows[|rows| - 1]]
  }

  /** _sync_object: replace the two rows of an object in one transaction. */
  function Sync(st: State, p: Payload, file: Path, tier: Tier): State
    requires Indexable(p)
  {
    State(st.disk,
          st.manifest[p.id.value := RowOf(p, file, tier)],
          Without(st.fts, p.id.value) + [FtsRow(p.id.value, p)])
  }

  // ---------------------------------------------------------------- reading

  function Fetch(st: State, id: string): Option<Row> {
    if id in st.manifest then Some(st.manifest[id]) else None
  }

  /** _load_object_from_row: read the file of a row, migrating it in place when it is old. */
  function Load(st: State, row: Row): (State, Result<Payload>) {
    if row.file !in st.disk then (st, Err(NotFound))
    else
      var p := st.disk[row.file];
      var m := Migrate(p);
      if Current(p) then (st, Ok(p))
      else if Indexable(m) then (Sync(Write(st, row.file, m), m, row.file, row.tier), Ok(m))
      else (Write(st, row.file, m), Err(MissingKey))
  }

  function Get(st: State, id: string): (State, Result<Payload>) {
    match Validate(id)
    case None => (st, Err(Invalid))
    case Some(n) =>
      match Fetch(st, n)
      case None => (st, Err(NotFound))
      case Some(row) => Load(st, row)
  }

  // ---------------------------------------------------------------- upsert

  /** The payload upsert hands to validation, given the stored object of the same id. */
  function Prepare(payload: Payload, existing: Option<Payload>, tier: Tier, now: Time): Payload {
    var item := Migrate(payload);
    var dated :=
      if existing.Some? && existing.value.createdAt.Some? then
        item.(createdAt := Some(item.createdAt.GetOr(existing.value.createdAt.value)),
              revision := Some(existing.value.revision.GetOr(1) + 1))
      else
        item.(createdAt := Some(item.createdAt.GetOr(now)));
    dated.(updatedAt := Some(now),
           status := Some(NormalizeStatus(item.status, tier)),
           deprecatedReason := if tier != Deprecated then Some(None) else item.deprecatedReason)
  }

  /** Everything upsert settles before its first write: the record, its file, and the file of the
      id's current row. */
  datatype Plan = Plan(record: Payload, file: Path, previous: Option<Path>)

  function ChooseTier(payload: Payload, tier: Option<string>): Option<Tier> {
    if tier.Some? && tier.value != "" then ParseTier(tier.value) else Some(InferTier(Migrate(payload)))
  }

  /** The id's row, when the payload has an id: the manifest lookup itself refuses a bad one. */
  function LookUp(st: State, id: Option<string>): Result<Option<Row>> {
    if id.None? || id.value == "" then Ok(None)
    else match Validate(id.value)
         case None => Err(Invalid)
         case Some(n) => Ok(Fetch(st, n))
  }

  function PlanWith(payload: Payload, t: ObjectType, existing: Option<Payload>, previous: Option<Path>,
                    tier: Tier, now: Time): Result<Plan>
  {
    match ValidateAs(t, Prepare(payload, existing, tier, now))
    case None => Err(Invalid)
    case Some(record) =>
      ValidatedIsRecord(t, Prepare(payload, existing, tier, now));
      Ok(Plan(record, Path(tier, t, record.id.value), previous))
  }

  function PlanUpsert(st: State, payload: Payload, tier: Option<string>, now: Time): (State, Result<Plan>) {
    match ParseType(Trim(payload.objectType.GetOr("")))
    case None => (st, Err(Invalid))
    case Some(t) =>
      match ChooseTier(payload, tier)
      case None => (st, Err(Invalid))
      case Some(tr) =>
        match LookUp(st, payload.id)
        case Err(e) => (st, Err(e))
        case Ok(None) => (st, PlanWith(payload, t, None, None, tr, now))
        case Ok(Some(row)) =>
          var (st1, existing) := Load(st, row);
          match existing
          case Err(e) => (st1, Err(e))
          case Ok(p) => (st1, PlanWith(payload, t, Some(p), Some(row.file), tr, now))
  }

  /** A completed upsert: the new file and index rows, and no file where the row was before. */
  function Commit(st: State, plan: Plan): State
    requires Indexable(plan.record)
  {
    var kept := if plan.previous.Some? && plan.previous.value != plan.file
                then st.disk - {plan.previous.value} else st.disk;
    Sync(st.(disk := kept[plan.file := plan.record]), plan.record, plan.file, plan.file.tier)
  }

  /** An upsert whose index transaction raised, after the handler ran: the target file is gone
      unless it was the row's own. */
  function RollBack(st: State, plan: Plan): State {
    if plan.previous == Some(plan.file) then st else Unlink(st, plan.file)
  }

  /** upsert; indexOk is false when the index transaction raises. */
  function Upsert(st: State, payload: Payload, tier: Option<string>, now: Time, indexOk: bool)
    : (State, Result<Payload>)
  {
    var (st1, plan) := PlanUpsert(st, payload, tier, now);
    match plan
    case Err(e) => (st1, Err(e))
    case Ok(pl) =>
      if indexOk then
        PlanIsRecord(st, payload, tier, now);
        (Commit(st1, pl), Ok(pl.record))
      else (RollBack(st1, pl), Err(Database))
  }

  lemma PlanIsRecord(st: State, payload: Payload, tier: Option<string>, now: Time)
    requires PlanUpsert(st, payload, tier, now).1.Ok?
    ensures var pl := PlanUpsert(st, payload, tier, now).1.value;
            && IsRecord(pl.file.objectType, pl.record) && Indexable(pl.record)
            && pl.record.id == Some(pl.file.name)
            && payload.id.Some? && Validate(payload.id.value) == pl.record.id
            && TierAgrees(pl.file.tier, pl.record)
            && Some(pl.file.tier) == ChooseTier(payload, tier)
            && (payload.objectType.Some? && ParseType(Trim(payload.objectType.value)) == Some(pl.file.objectType))
  {
    var t := ParseType(Trim(payload.objectType.GetOr(""))).value;
    var tr := ChooseTier(payload, tier).value;
    var row := LookUp(st, payload.id).value;
    var existing := if row.None? then None else Some(Load(st, row.value).1.value);
    var item := Prepare(payload, existing, tr, now);
    ValidatedIsRecord(t, item);
    RecordIsIndexable(t, ValidateAs(t, item).value);
  }

  // ---------------------------------------------------------------- candidates

  function CreateCandidate(st: State, payload: Payload, now: Time, indexOk: bool): (State, Result<Payload>) {
    Upsert(st, payload.(status := Some(CANDIDATE)), Some("candidate"), now, indexOk)
  }

  function PromotionNote(note: map<string, Option<string>>, id: string, actor: string, reason: Option<string>,
                         now: Time)
    : map<string, Option<string>>
  {
    note["promoted_by" := Some(actor)]["promoted_at" := Some(now)]
        ["promotion_reason" := reason]["source_candidate_id" := Some(id)]
  }

  function Promoted(item: Payload, id: string, actor: string, reason: Option<string>, now: Time): Payload {
    item.(promotionSource := Some(PromotionNote(item.promotionSource.GetOr(map[]), id, actor, reason, now)),
          status := Some(TRUSTED),
          deprecatedReason := Some(None))
  }

  function Promote(st: State, id: string, actor: string, reason: Option<string>, now: Time, indexOk: bool)
    : (State, Result<Payload>)
  {
    match Validate(id)
    case None => (st, Err(Invalid))
    case Some(n) =>
      match Fetch(st, n)
      case None => (st, Err(NotFound))
      case Some(row) =>
        if row.tier != Candidate then (st, Err(Invalid)) else
        var (st1, loaded) := Load(st, row);
        match loaded
        case Err(e) => (st1, Err(e))
        case Ok(item) =>
          var (st2, r) := Upsert(st1, Promoted(item, n, actor, reason, now), Some("canonical"), now, indexOk);
          (if r.Ok? then Unlink(st2, row.file) else st2, r)
  }

  function DeprecationNote(note: map<string, Option<string>>, actor: string, supersededBy: Option<string>, now: Time)
    : map<string, Option<string>>
  {
    var dated := note["deprecated_by" := Some(actor)]["deprecated_at" := Some(now)];
    if supersededBy.Some? && supersededBy.value != "" then dated["superseded_by" := supersededBy] else dated
  }

  function DeprecatedForm(item: Payload, actor: string, reason: string, supersededBy: Option<string>,
                          now: Time): Payload {
    item.(promotionSource := Some(DeprecationNote(item.promotionSource.GetOr(map[]), actor, supersededBy, now)),
          status := Some(DEPRECATED),
          deprecatedReason := Some(Some(reason)))
  }

  function Deprecate(st: State, id: string, actor: string, reason: string, supersededBy: Option<string>,
                     now: Time, indexOk: bool): (State, Result<Payload>)
  {
    match Validate(id)
    case None => (st, Err(Invalid))
    case Some(n) =>
      match Fetch(st, n)
      case None => (st, Err(NotFound))
      case Some(row) =>
        if row.tier == Deprecated then (st, Err(Invalid)) else
        var (st1, loaded) := Load(st, row);
        match loaded
        case Err(e) => (st1, Err(e))
        case Ok(item) =>
          var deprecated := DeprecatedForm(item, actor, reason, supersededBy, now);
          var (st2, r) := Upsert(st1, deprecated, Some("deprecated"), now, indexOk);
          (if r.Ok? then Unlink(st2, row.file) else st2, r)
  }

  // ---------------------------------------------------------------- rebuild and recovery

  /** One turn of the rebuild loop: migrate the file in place, validate it, index it. */
  function IndexFile(st: State, file: Path): (State, bool)
    requires file in st.disk
  {
    var m := Migrate(st.disk[file]);
    var st1 := if Current(st.disk[file]) then st else Write(st, file, m);
    match ValidateAs(file.objectType, m)
    case None => (st1, false)
    case Some(record) =>
      ValidatedIsRecord(file.objectType, m);
      RecordIsIndexable(file.objectType, record);
      (Sync(st1, record, file, file.tier), true)
  }

  /** The loop over the files so far; it stops at the first file validation refuses. */
  function IndexFiles(st: State, files: seq<Path>): (r: (State, bool))
    requires forall f :: f in files ==> f in st.disk
    ensures r.0.disk.Keys == st.disk.Keys
  {
    if files == [] then (st, true)
    else
      var (st1, ok) := IndexFiles(st, files[..|files| - 1]);
      if ok then IndexFile(st1, files[|files| - 1]) else (st1, false)
  }

  function Cleared(st: State): State {
    State(st.disk, map[], [])
  }

  function Rebuild(st: State): (State, Result<nat>) {
    var files := Walk(st.disk.Keys);
    var (st1, ok) := IndexFiles(Cleared(st), files);
    (st1, if ok then Ok(|files|) else Err(Invalid))
  }

  function ManifestFiles(st: State): set<Path> {
    set id | id in st.manifest :: st.manifest[id].file
  }

  /** _recover_manifest_if_needed, run when a store is opened. */
  function Recover(st: State): (State, Result<nat>) {
    if st.disk.Keys == ManifestFiles(st) then (st, Ok(0)) else Rebuild(st)
  }
}
