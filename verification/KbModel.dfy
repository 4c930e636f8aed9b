/**
 Knowledge-base payloads: the JSON objects on disk, the schema migrations applied on read
 (packages/core/migrations/registry.py), schema validation (packages/core/schemas/thin_kb.py) and
 the index rows computed from a validated payload.
 */
module KbModel {
  import opened Wrappers
  import opened Text
  import opened Identifiers
  import opened Listing

  type Time = string

  /** The fields of an object that the store carries without reading them to decide anything
      about storage; search reads some of them. Absent keys are None. */
  datatype Body = Body(
    title: Option<string>, scope: Option<string>, trustLevel: Option<string>,
    domainTags: seq<string>, version: Option<string>, metadataVersion: Option<string>,
    env: map<string, string>, texts: map<string, string>)

  /** A payload as a JSON object: None is an absent key; Some(None) is a key holding null. */
  datatype Payload = Payload(
    id: Option<string>, objectType: Option<string>, status: Option<string>,
    createdAt: Option<Time>, updatedAt: Option<Time>,
    schemaVersion: Option<string>, revision: Option<int>, supersedes: Option<seq<string>>,
    deprecatedReason: Option<Option<string>>,
    promotionSource: Option<map<string, Option<string>>>,
    body: Body)

  function TypeName(t: ObjectType): string {
    match t case Claim => "claim" case Procedure => "procedure" case Case => "case" case Decision => "decision"
  }

  function ParseType(s: string): (t: Option<ObjectType>)
    ensures t.Some? ==> TypeName(t.value) == s
    ensures t.None? ==> forall k :: TypeName(k) != s
  {
    if s == "claim" then Some(Claim) else if s == "procedure" then Some(Procedure)
    else if s == "case" then Some(Case) else if s == "decision" then Some(Decision) else None
  }

  function ParseTier(s: string): Option<Tier> {
    if s == "canonical" then Some(Canonical) else if s == "candidate" then Some(Candidate)
    else if s == "deprecated" then Some(Deprecated) else None
  }

  const RAW := "raw"
  const CANDIDATE := "candidate"
  const TRUSTED := "trusted"
  const DEPRECATED := "deprecated"

  predicate IsStatus(s: string) {
    s == RAW || s == CANDIDATE || s == TRUSTED || s == DEPRECATED
  }

  // ---------------------------------------------------------------- migrations

  /** No migration applies: the five keys of schema version 1.0 are present. */
  predicate Current(p: Payload) {
    && p.schemaVersion.Some? && p.revision.Some? && p.supersedes.Some?
    && p.deprecatedReason.Some? && p.promotionSource.Some?
  }

  function Migrate(p: Payload): Payload {
    p.(schemaVersion := Some(p.schemaVersion.GetOr("1.0")),
       revision := Some(p.revision.GetOr(1)),
       supersedes := Some(p.supersedes.GetOr([])),
       deprecatedReason := Some(p.deprecatedReason.GetOr(None)),
       promotionSource := Some(p.promotionSource.GetOr(map[])))
  }

  /** apply_kb_payload_migrations: set the missing keys one by one and record which were set. */
  method ApplyMigrations(payload: Payload) returns (migrated: Payload, applied: seq<string>)
    ensures migrated == Migrate(payload)
    ensures applied == [] <==> Current(payload)
  {
    migrated, applied := payload, [];
    if migrated.schemaVersion.None? {
      migrated := migrated.(schemaVersion := Some("1.0"));
      applied := applied + ["schema_version@1.0"];
    }
    if migrated.revision.None? {
      migrated := migrated.(revision := Some(1));
      applied := applied + ["object_revision@1"];
    }
    if migrated.supersedes.None? {
      migrated := migrated.(supersedes := Some([]));
      applied := applied + ["supersedes@[]"];
    }
    if migrated.deprecatedReason.None? {
      migrated := migrated.(deprecatedReason := Some(None));
      applied := applied + ["deprecated_reason@null"];
    }
    if migrated.promotionSource.None? {
      migrated := migrated.(promotionSource := Some(map[]));
      applied := applied + ["promotion_source@{}"];
    }
  }

  // ---------------------------------------------------------------- validation

  function TrimOption(s: Option<string>): Option<string> {
    match s case None => None case Some(v) => Some(Trim(v))
  }

  function TrimAll(s: seq<string>): (r: seq<string>)
    ensures |r| == |s| && forall i :: 0 <= i < |s| ==> r[i] == Trim(s[i])
  {
    seq(|s|, i requires 0 <= i < |s| => Trim(s[i]))
  }

  function TrimValues(m: map<string, string>): map<string, string> {
    map k | k in m :: Trim(m[k])
  }

  const SCOPES: set<string> := {"user", "project", "session", "task", "global", "domain"}
  const TRUST_LEVELS: set<string> := {"low", "medium", "high"}

  /** The text fields a model requires and, with extra="forbid", the only ones it allows. */
  function RequiredTexts(t: ObjectType): set<string> {
    match t
    case Claim => {"subject", "predicate", "statement"}
    case Procedure => {"goal"}
    case Case => {"case_type"}
    case Decision => {"context", "decision"}
  }

  function AllowedTexts(t: ObjectType): set<string> {
    {"summary"} + RequiredTexts(t) +
    match t
    case Claim => {"object", "object_value", "condition"}
    case Procedure => {}
    case Case => {"symptom", "root_cause", "resolution", "outcome"}
    case Decision => {}
  }

  predicate BodyAccepted(t: ObjectType, b: Body) {
    && b.title.Some?
    && b.scope.GetOr("domain") in SCOPES
    && b.trustLevel.GetOr("medium") in TRUST_LEVELS
    && RequiredTexts(t) <= b.texts.Keys <= AllowedTexts(t)
    && (t == Procedure || t == Decision ==> b.env == map[])
  }

  function NormalizeBody(b: Body): Body {
    b.(title := TrimOption(b.title),
       scope := Some(b.scope.GetOr("domain")),
       trustLevel := Some(b.trustLevel.GetOr("medium")),
       domainTags := TrimAll(b.domainTags),
       version := TrimOption(b.version),
       env := TrimValues(b.env),
       texts := TrimValues(b.texts))
  }

  /** OBJECT_MODELS[t].model_validate(p).model_dump(): None when validation raises. */
  function ValidateAs(t: ObjectType, p: Payload): Option<Payload> {
    if && p.id.Some? && Validate(p.id.value).Some?
       && p.objectType.GetOr(TypeName(t)) == TypeName(t)
       && IsStatus(p.status.GetOr(CANDIDATE))
       && p.createdAt.Some? && p.updatedAt.Some?
       && p.revision.GetOr(1) >= 1
       && BodyAccepted(t, p.body)
    then
      Some(Payload(
        Validate(p.id.value), Some(TypeName(t)), Some(p.status.GetOr(CANDIDATE)),
        p.createdAt, p.updatedAt,
        Some(p.schemaVersion.GetOr("1.0")), Some(p.revision.GetOr(1)),
        Some(TrimAll(p.supersedes.GetOr([]))),
        Some(TrimOption(p.deprecatedReason.GetOr(None))),
        Some(p.promotionSource.GetOr(map[])),
        NormalizeBody(p.body)))
    else None
  }

  /** What validation leaves alone: a record as the store writes it. */
  predicate IsRecord(t: ObjectType, p: Payload) {
    ValidateAs(t, p) == Some(p)
  }

  lemma TrimAllIdempotent(s: seq<string>)
    ensures TrimAll(TrimAll(s)) == TrimAll(s)
  {
    forall i | 0 <= i < |s| ensures Trim(Trim(s[i])) == Trim(s[i]) {
      TrimIdempotent(s[i]);
    }
  }

  lemma TrimValuesIdempotent(m: map<string, string>)
    ensures TrimValues(TrimValues(m)) == TrimValues(m)
  {
    forall k | k in m ensures Trim(Trim(m[k])) == Trim(m[k]) {
      TrimIdempotent(m[k]);
    }
  }

  lemma TrimOptionIdempotent(s: Option<string>)
    ensures TrimOption(TrimOption(s)) == TrimOption(s)
  {
    if s.Some? {
      TrimIdempotent(s.value);
    }
  }

  lemma NormalizeBodyIdempotent(t: ObjectType, b: Body)
    requires BodyAccepted(t, b)
    ensures BodyAccepted(t, NormalizeBody(b)) && NormalizeBody(NormalizeBody(b)) == NormalizeBody(b)
  {
    TrimOptionIdempotent(b.title);
    TrimAllIdempotent(b.domainTags);
    TrimOptionIdempotent(b.version);
    TrimValuesIdempotent(b.env);
    TrimValuesIdempotent(b.texts);
    assert NormalizeBody(b).texts.Keys == b.texts.Keys;
    assert NormalizeBody(b).env.Keys == b.env.Keys;
  }

  /** Validation is idempotent, and its result carries the stripped id, the model's own type and
      every key of the current schema. */
  lemma ValidatedIsRecord(t: ObjectType, p: Payload)
    requires ValidateAs(t, p).Some?
    ensures var r := ValidateAs(t, p).value;
            && IsRecord(t, r) && Current(r) && r.revision.value >= 1
            && r.id == Some(Trim(p.id.value)) && IsIdentifier(r.id.value)
            && r.objectType == Some(TypeName(t)) && IsStatus(r.status.value)
  {
    ValidateNormalises(p.id.value);
    TrimAllIdempotent(p.supersedes.GetOr([]));
    TrimOptionIdempotent(p.deprecatedReason.GetOr(None));
    NormalizeBodyIdempotent(t, p.body);
  }

  // ---------------------------------------------------------------- index rows

  /** The columns of kb_objects the store or search reads back. */
  datatype Row = Row(
    id: string, objectType: string, title: string, scope: string, status: string, trustLevel: string,
    schemaVersion: string, revision: int, supersedes: seq<string>, deprecatedReason: Option<string>,
    promotionSource: map<string, Option<string>>, updatedAt: Time,
    tier: Tier, file: Path)

  /** A row of kb_objects_fts: its text columns are functions of the payload, kept here whole. */
  datatype FtsRow = FtsRow(id: string, document: Payload)

  /** The keys an index row is built from without a default. */
  predicate Indexable(p: Payload) {
    && p.id.Some? && p.objectType.Some? && p.status.Some? && p.updatedAt.Some?
    && p.body.title.Some? && p.body.scope.Some? && p.body.trustLevel.Some?
  }

  function RowOf(p: Payload, file: Path, tier: Tier): Row
    requires Indexable(p)
  {
    Row(p.id.value, p.objectType.value, p.body.title.value, p.body.scope.value, p.status.value,
        p.body.trustLevel.value, p.schemaVersion.GetOr("1.0"), p.revision.GetOr(1),
        p.supersedes.GetOr([]), p.deprecatedReason.GetOr(None), p.promotionSource.GetOr(map[]),
        p.updatedAt.value, tier, file)
  }

  lemma RecordIsIndexable(t: ObjectType, p: Payload)
    requires IsRecord(t, p)
    ensures Indexable(p) && Current(p) && Migrate(p) == p
    ensures IsIdentifier(p.id.value) && Validate(p.id.value) == p.id
    ensures p.objectType == Some(TypeName(t))
  {
    ValidatedIsRecord(t, p);
    IdentifierIsTrimmed(p.id.value);
  }

  // ---------------------------------------------------------------- tier and status

  function InferTier(p: Payload): Tier {
    var status := Trim(p.status.GetOr(""));
    if status == CANDIDATE then Candidate else if status == DEPRECATED then Deprecated else Canonical
  }

  function NormalizeStatus(status: Option<string>, tier: Tier): string {
    match tier
    case Candidate => CANDIDATE
    case Deprecated => DEPRECATED
    case Canonical => if status.Some? && IsStatus(status.value) then status.value else CANDIDATE
  }

  /** What a tier says about the status of every object in it; the canonical tier says nothing. */
  predicate TierAgrees(tier: Tier, p: Payload) {
    && (tier == Candidate ==> p.status == Some(CANDIDATE))
    && (tier == Deprecated ==> p.status == Some(DEPRECATED))
    && (tier != Deprecated ==> p.deprecatedReason == Some(None))
  }
}
