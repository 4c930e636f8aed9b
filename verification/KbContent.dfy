/**
 What an upsert, a promotion and a deprecation make of the fields of an object, said field by field of
 the answer, the caller's payload and the object stored before; and which payloads an upsert accepts.
 */
module KbContent {
  import opened Wrappers
  import opened Identifiers
  import opened Text
  import opened Listing
  import opened KbModel
  import opened KbSpec
  import opened KbRuns
  import opened KbSound
  import opened KbCrash

  /** x is t stripped, or absent with it. */
  predicate StrippedFrom(x: Option<string>, t: Option<string>) {
    x.Some? == t.Some? && (t.Some? ==> x.value == Trim(t.value))
  }

  predicate AllStripped(xs: seq<string>, ts: seq<string>) {
    |xs| == |ts| && forall i :: 0 <= i < |ts| ==> xs[i] == Trim(ts[i])
  }

  predicate ValuesStripped(xs: map<string, string>, ts: map<string, string>) {
    xs.Keys == ts.Keys && forall k :: k in ts ==> xs[k] == Trim(ts[k])
  }

  /** The content of the record is the content of the payload, stripped, with two defaults. */
  predicate ContentFrom(x: Body, p: Body) {
    && StrippedFrom(x.title, p.title) && p.title.Some?
    && x.scope == Some(if p.scope.Some? then p.scope.value else "domain")
    && x.trustLevel == Some(if p.trustLevel.Some? then p.trustLevel.value else "medium")
    && AllStripped(x.domainTags, p.domainTags)
    && StrippedFrom(x.version, p.version) && x.metadataVersion == p.metadataVersion
    && ValuesStripped(x.env, p.env) && ValuesStripped(x.texts, p.texts)
  }

  /** When the record was made and changed, and its number, given the object stored before. */
  predicate StampsFrom(x: Payload, p: Payload, stored: Option<Payload>, now: Time) {
    && x.updatedAt == Some(now)
    && x.createdAt == (if p.createdAt.Some? then p.createdAt
                       else if stored.Some? then stored.value.createdAt else Some(now))
    && x.revision == Some(if stored.Some? then stored.value.revision.GetOr(1) + 1
                          else if p.revision.Some? then p.revision.value else 1)
    && x.schemaVersion == Some(if p.schemaVersion.Some? then p.schemaVersion.value else "1.0")
  }

  /** The rest of the record; a status the store does not know becomes "candidate". */
  predicate StandingFrom(x: Payload, p: Payload, tier: Tier) {
    && x.status == Some(
         match tier
         case Candidate => "candidate"
         case Deprecated => "deprecated"
         case Canonical =>
           if p.status in {Some("raw"), Some("candidate"), Some("trusted"), Some("deprecated")} then p.status.value
           else "candidate")
    && (tier != Deprecated ==> x.deprecatedReason == Some(None))
    && (tier == Deprecated ==>
          x.deprecatedReason.Some? && StrippedFrom(x.deprecatedReason.value, p.deprecatedReason.GetOr(None)))
    && x.promotionSource == Some(if p.promotionSource.Some? then p.promotionSource.value else map[])
    && x.supersedes.Some? && AllStripped(x.supersedes.value, p.supersedes.GetOr([]))
  }

  /** The tier an upsert goes to: the one named, or the one the payload's status suggests. */
  predicate GoesTo(tier: Tier, p: Payload, tierName: Option<string>) {
    if Given(tierName) then
      tier == (match tierName.value case "candidate" => Candidate case "deprecated" => Deprecated case _ => Canonical)
    else if p.status.Some? && Trim(p.status.value) == "candidate" then tier == Candidate
    else if p.status.Some? && Trim(p.status.value) == "deprecated" then tier == Deprecated
    else tier == Canonical
  }

  // ---------------------------------------------------------------- upsert

  lemma BodyTaken(b: Body)
    requires b.title.Some?
    ensures ContentFrom(NormalizeBody(b), b)
  {
    hide Trim;
  }

  lemma RecordTakes(t: ObjectType, p: Payload, stored: Option<Payload>, tier: Tier, now: Time)
    requires stored.Some? ==> stored.value.createdAt.Some?
    requires ValidateAs(t, Prepare(p, stored, tier, now)).Some?
    ensures var x := ValidateAs(t, Prepare(p, stored, tier, now)).value;
            ContentFrom(x.body, p.body) && StampsFrom(x, p, stored, now) && StandingFrom(x, p, tier)
  {
    hide Trim, NormalizeBody, ContentFrom, Validate;
    BodyTaken(p.body);
  }

  lemma StoredIsDated(st: State, n: string)
    requires Usable(st) && ObjectOf(st, n).Some?
    ensures ObjectOf(st, n).value.createdAt.Some? && ObjectOf(st, n).value.revision.Some?
    ensures ObjectOf(st, n).value.revision.value >= 1
  {
    hide FtsCovers, FileOk;
    assert RowPoints(st, n);
    StoredFileIsDated(st.manifest[n].file, st.disk[st.manifest[n].file]);
  }

  lemma StoredFileIsDated(p: Path, x: Payload)
    requires FileOk(p, x)
    ensures x.createdAt.Some? && x.revision.Some? && x.revision.value >= 1
  {
    ValidatedIsRecord(p.objectType, x);
  }

  /** The record of a plan is validated from the payload and what the id denotes. */
  lemma PlanTakes(st: State, p: Payload, tierName: Option<string>, now: Time)
    requires Usable(st) && PlanUpsert(st, p, tierName, now).1.Ok?
    ensures p.id.Some? && Validate(p.id.value).Some?
    ensures var plan := PlanUpsert(st, p, tierName, now).1.value;
            var item := Prepare(p, ObjectOf(st, Validate(p.id.value).value), plan.file.tier, now);
            && ValidateAs(plan.file.objectType, item) == Some(plan.record)
            && GoesTo(plan.file.tier, p, tierName)
  {
    hide ValidateAs, Prepare, FtsCovers, FileOk, Load, IsRecord, TierAgrees, Indexable, IsIdentifier, Trim;
    PlanIsRecord(st, p, tierName, now);
    var n := Validate(p.id.value).value;
    ValidNonEmpty(p.id.value);
    if n in st.manifest {
      assert RowPoints(st, n);
      LoadIsPure(st, st.manifest[n]);
    }
    TierGoes(p, tierName);
  }

  lemma ValidNonEmpty(id: string)
    requires Validate(id).Some?
    ensures id != ""
  {
  }

  lemma TierGoes(p: Payload, tierName: Option<string>)
    requires ChooseTier(p, tierName).Some?
    ensures GoesTo(ChooseTier(p, tierName).value, p, tierName)
  {
    hide Trim;
    EmptyStatus();
  }

  lemma EmptyStatus()
    ensures Trim("") == ""
  {
  }

  /** Whatever was stored, a successful upsert on any usable store answers, stores and indexes the
      caller's content. */
  lemma UpsertTakesPayload(st: State, p: Payload, tierName: Option<string>, now: Time)
    requires Usable(st) && Upsert(st, p, tierName, now, true).1.Ok?
    ensures p.id.Some? && Validate(p.id.value).Some?
    ensures var n := Validate(p.id.value).value;
            var (s2, r) := Upsert(st, p, tierName, now, true);
            var x := r.value;
            && ObjectOf(s2, n) == Some(x) && n in s2.manifest
            && GoesTo(s2.manifest[n].tier, p, tierName) && s2.manifest[n].file.tier == s2.manifest[n].tier
            && x.id == Some(Trim(p.id.value)) && x.objectType == p.objectType && p.objectType.Some?
            && ContentFrom(x.body, p.body)
            && StampsFrom(x, p, ObjectOf(st, n), now)
            && StandingFrom(x, p, s2.manifest[n].tier)
            && RowSays(s2.manifest[n], x) && FtsRow(n, x) in s2.fts
  {
    hide Usable, PlanUpsert, Commit, RollBack, FileOk, Indexable, Prepare, ContentFrom, StampsFrom, StandingFrom;
    hide GoesTo, ValidateAs, RowSays, RowOf, IsRecord, TierAgrees, ObjectOf;
    var plan := PlanUpsert(st, p, tierName, now).1.value;
    UsableParts(st);
    PlanTakes(st, p, tierName, now);
    PlanIsPure(st, p, tierName, now);
    PlanIsRecord(st, p, tierName, now);
    var n := Validate(p.id.value).value;
    if ObjectOf(st, n).Some? { StoredIsDated(st, n); }
    RecordTakes(plan.file.objectType, p, ObjectOf(st, n), plan.file.tier, now);
    CommitServes(st, plan);
    CommitParts(st, plan);
    CommittedRow(st, plan);
    PreparedType(p, ObjectOf(st, n), plan.file.tier, now);
    TypeTaken(plan.file.objectType, Prepare(p, ObjectOf(st, n), plan.file.tier, now), p);
  }

  lemma PreparedType(p: Payload, stored: Option<Payload>, tier: Tier, now: Time)
    ensures Prepare(p, stored, tier, now).objectType == p.objectType && Prepare(p, stored, tier, now).id == p.id
    ensures Prepare(p, stored, tier, now).body == p.body
  {
  }

  lemma TypeTaken(t: ObjectType, item: Payload, p: Payload)
    requires ValidateAs(t, item).Some?
    requires p.objectType.Some? && ParseType(Trim(p.objectType.value)) == Some(t)
    requires item.objectType == p.objectType
    ensures ValidateAs(t, item).value.objectType == p.objectType
  {
  }

  /** The columns of the index row are the fields of the record. */
  predicate RowSays(row: Row, x: Payload) {
    && x.id == Some(row.id) && x.objectType == Some(row.objectType) && x.status == Some(row.status)
    && x.body.title == Some(row.title) && x.body.scope == Some(row.scope) && x.body.trustLevel == Some(row.trustLevel)
    && x.schemaVersion == Some(row.schemaVersion) && x.revision == Some(row.revision)
    && x.supersedes == Some(row.supersedes) && x.deprecatedReason == Some(row.deprecatedReason)
    && x.promotionSource == Some(row.promotionSource) && x.updatedAt == Some(row.updatedAt)
  }

  lemma CommittedRow(st: State, plan: Plan)
    requires PlanOk(st, plan)
    ensures plan.file.name in Commit(st, plan).manifest
    ensures RowSays(Commit(st, plan).manifest[plan.file.name], plan.record)
    ensures FtsRow(plan.file.name, plan.record) in Commit(st, plan).fts
  {
    RecordIsIndexable(plan.file.objectType, plan.record);
    hide IsRecord, Without;
  }

  // ---------------------------------------------------------------- what is accepted

  /** The fields a payload of this type must have, and the only texts it may have. */
  predicate BodyAsked(objectType: string, b: Body) {
    && b.title.Some?
    && b.scope in {None, Some("user"), Some("project"), Some("session"), Some("task"), Some("global"), Some("domain")}
    && b.trustLevel in {None, Some("low"), Some("medium"), Some("high")}
    && match objectType
       case "claim" =>
         && {"subject", "predicate", "statement"} <= b.texts.Keys
         && b.texts.Keys <= {"subject", "predicate", "statement", "summary", "object", "object_value", "condition"}
       case "procedure" => {"goal"} <= b.texts.Keys <= {"goal", "summary"} && b.env == map[]
       case "case" =>
         && {"case_type"} <= b.texts.Keys
         && b.texts.Keys <= {"case_type", "summary", "symptom", "root_cause", "resolution", "outcome"}
       case "decision" =>
         {"context", "decision"} <= b.texts.Keys <= {"context", "decision", "summary"} && b.env == map[]
       case _ => false
  }

  lemma BodyAcceptedExactly(t: ObjectType, b: Body)
    ensures BodyAccepted(t, b) <==> BodyAsked(TypeName(t), b)
  {
    ScopesExactly(b);
    match t case Claim => case Procedure => case Case => case Decision =>
  }

  lemma ScopesExactly(b: Body)
    ensures b.scope.GetOr("domain") in SCOPES
            <==> b.scope in {None, Some("user"), Some("project"), Some("session"), Some("task"), Some("global"),
                             Some("domain")}
    ensures b.trustLevel.GetOr("medium") in TRUST_LEVELS <==>
            b.trustLevel in {None, Some("low"), Some("medium"), Some("high")}
  {
  }

  /** The payload itself is in order: an acceptable id, a known type spelled exactly, a body of that type,
      and for a new object a revision of its own of at least 1. */
  predicate Acceptable(p: Payload, isNew: bool) {
    && p.id.Some? && Validate(p.id.value).Some?
    && p.objectType in {Some("claim"), Some("procedure"), Some("case"), Some("decision")}
    && BodyAsked(p.objectType.value, p.body)
    && (isNew && p.revision.Some? ==> p.revision.value >= 1)
  }

  lemma TypeExactly(p: Payload, t: ObjectType)
    ensures p.objectType == Some(TypeName(t)) ==> ParseType(Trim(p.objectType.value)) == Some(t)
    ensures p.objectType in {Some("claim"), Some("procedure"), Some("case"), Some("decision")} ==>
              exists k :: p.objectType == Some(TypeName(k))
  {
    TrimFixed(TypeName(t));
    hide Trim;
    if p.objectType == Some("claim") { assert p.objectType == Some(TypeName(Claim)); }
    if p.objectType == Some("procedure") { assert p.objectType == Some(TypeName(Procedure)); }
    if p.objectType == Some("case") { assert p.objectType == Some(TypeName(Case)); }
    if p.objectType == Some("decision") { assert p.objectType == Some(TypeName(Decision)); }
  }

  /** Validation of what upsert prepares: only the payload decides, and for a new object its revision. */
  lemma PreparedValidates(t: ObjectType, p: Payload, stored: Option<Payload>, tier: Tier, now: Time)
    requires stored.Some? ==> stored.value.createdAt.Some? && stored.value.revision.GetOr(1) >= 1
    requires p.objectType.Some?
    ensures ValidateAs(t, Prepare(p, stored, tier, now)).Some? <==>
            && p.id.Some? && Validate(p.id.value).Some? && p.objectType == Some(TypeName(t))
            && BodyAccepted(t, p.body) && (stored.None? && p.revision.Some? ==> p.revision.value >= 1)
  {
    hide BodyAccepted, Validate, NormalizeBody, TrimAll, TrimOption;
  }

  /** An upsert on a usable store succeeds if and only if the payload is acceptable, the tier it names, if
      any, is one of the three, and the index transaction goes through. */
  lemma UpsertSucceedsExactly(st: State, p: Payload, tierName: Option<string>, now: Time, indexOk: bool)
    requires Usable(st)
    ensures Upsert(st, p, tierName, now, indexOk).1.Ok? <==>
            && indexOk && Acceptable(p, p.id.Some? && ObjectOf(st, Validate(p.id.value).GetOr("")).None?)
            && (Given(tierName) ==> tierName.value in {"canonical", "candidate", "deprecated"})
  {
    hide Usable, PlanUpsert, Commit, RollBack, Acceptable, ObjectOf, IsRecord, Indexable, TierAgrees;
    PlanSucceedsExactly(st, p, tierName, now);
  }

  lemma PlanSucceedsExactly(st: State, p: Payload, tierName: Option<string>, now: Time)
    requires Usable(st)
    ensures PlanUpsert(st, p, tierName, now).1.Ok? <==>
            && Acceptable(p, p.id.Some? && ObjectOf(st, Validate(p.id.value).GetOr("")).None?)
            && (Given(tierName) ==> tierName.value in {"canonical", "candidate", "deprecated"})
  {
    hide FtsCovers, FileOk, Load, ValidateAs, Prepare, BodyAsked, BodyAccepted, IsIdentifier, Trim, InferTier;
    if p.objectType.Some? {
      var t := ParseType(Trim(p.objectType.value));
      if t.Some? {
        NamesExactly(p, t.value);
        BodyAcceptedExactly(t.value, p.body);
        PlanOfTypeExactly(st, p, t.value, tierName, now);
      } else {
        NoTypeNoPlan(p);
      }
    } else {
      EmptyStatus();
    }
  }

  lemma NoTypeNoPlan(p: Payload)
    requires p.objectType.Some? && ParseType(Trim(p.objectType.value)).None?
    ensures p.objectType !in {Some("claim"), Some("procedure"), Some("case"), Some("decision")}
  {
    TypeExactly(p, Claim);
    TypeExactly(p, Procedure);
    TypeExactly(p, Case);
    TypeExactly(p, Decision);
  }

  lemma NamesExactly(p: Payload, t: ObjectType)
    requires p.objectType.Some? && ParseType(Trim(p.objectType.value)) == Some(t)
    ensures p.objectType in {Some("claim"), Some("procedure"), Some("case"), Some("decision")}
            <==> p.objectType == Some(TypeName(t))
  {
    TypeExactly(p, Claim);
    TypeExactly(p, Procedure);
    TypeExactly(p, Case);
    TypeExactly(p, Decision);
  }

  lemma PlanOfTypeExactly(st: State, p: Payload, t: ObjectType, tierName: Option<string>, now: Time)
    requires Usable(st) && p.objectType.Some? && ParseType(Trim(p.objectType.value)) == Some(t)
    ensures PlanUpsert(st, p, tierName, now).1.Ok? <==>
            && p.id.Some? && Validate(p.id.value).Some? && p.objectType == Some(TypeName(t))
            && BodyAccepted(t, p.body)
            && (ObjectOf(st, Validate(p.id.value).GetOr("")).None? && p.revision.Some? ==> p.revision.value >= 1)
            && (Given(tierName) ==> tierName.value in {"canonical", "candidate", "deprecated"})
  {
    hide FtsCovers, FileOk, Load, ValidateAs, Prepare, BodyAccepted, IsIdentifier, Trim, InferTier;
    if ChooseTier(p, tierName).Some? {
      var tier := ChooseTier(p, tierName).value;
      if p.id.Some? && Validate(p.id.value).Some? {
        var n := Validate(p.id.value).value;
        ValidNonEmpty(p.id.value);
        if n in st.manifest {
          assert RowPoints(st, n);
          LoadIsPure(st, st.manifest[n]);
          StoredIsDated(st, n);
        }
        PreparedValidates(t, p, ObjectOf(st, n), tier, now);
      } else {
        PreparedValidates(t, p, None, tier, now);
      }
    }
  }

  // ---------------------------------------------------------------- promotion and deprecation

  /** Two provenance notes agree on every key but these. */
  ghost predicate AgreeBut(x: map<string, Option<string>>, y: map<string, Option<string>>, keys: set<string>) {
    && (forall k :: k !in keys ==> (k in x <==> k in y))
    && (forall k :: k !in keys && k in x ==> x[k] == y[k])
  }

  lemma StoredHasProvenance(st: State, n: string)
    requires Usable(st) && ObjectOf(st, n).Some?
    ensures ObjectOf(st, n).value.promotionSource.Some?
  {
    hide FtsCovers;
    assert RowPoints(st, n);
    ValidatedIsRecord(st.manifest[n].file.objectType, st.disk[st.manifest[n].file]);
  }

  /** What a promotion writes over, and what it keeps. */
  lemma PromoteSays(st: State, id: string, actor: string, reason: Option<string>, now: Time)
    requires Usable(st) && Promote(st, id, actor, reason, now, true).1.Ok?
    ensures Validate(id).Some? && ObjectOf(st, Validate(id).value).Some?
    ensures ObjectOf(st, Validate(id).value).value.promotionSource.Some?
    ensures var n := Validate(id).value;
            var x := Promote(st, id, actor, reason, now, true).1.value;
            var was := ObjectOf(st, n).value;
            && x.status == Some("trusted") && x.deprecatedReason == Some(None) && x.promotionSource.Some?
            && var note := x.promotionSource.value;
            && {"promoted_by", "promoted_at", "promotion_reason", "source_candidate_id"} <= note.Keys
            && note["promoted_by"] == Some(actor) && note["promoted_at"] == Some(now)
            && note["promotion_reason"] == reason && note["source_candidate_id"] == Some(n)
            && AgreeBut(note, was.promotionSource.value,
                        {"promoted_by", "promoted_at", "promotion_reason", "source_candidate_id"})
            && x.updatedAt == Some(now) && x.createdAt == was.createdAt
            && x.revision == Some(was.revision.GetOr(1) + 1)
  {
    hide Usable, Upsert, PromotionNote, ContentFrom, ObjectOf, RowSays, FileOk;
    UsableParts(st);
    var n := Validate(id).value;
    UsableRow(st, n);
    assert ObjectOf(st, n) == Some(st.disk[st.manifest[n].file]) by { ObjectThere(st, n); }
    var was := ObjectOf(st, n).value;
    StoredHasProvenance(st, n);
    StoredIsDated(st, n);
    var p := Promoted(was, n, actor, reason, now);
    UpsertTakesPayload(st, p, Some("canonical"), now);
    PromotionNoteSays(was.promotionSource.value, n, actor, reason, now);
    assert Validate(n) == Some(n);
    assert p.promotionSource == Some(PromotionNote(was.promotionSource.value, n, actor, reason, now));
  }

  lemma ObjectThere(st: State, n: string)
    requires n in st.manifest && st.manifest[n].file in st.disk
    ensures ObjectOf(st, n) == Some(st.disk[st.manifest[n].file])
  {
  }

  lemma PromotionNoteSays(was: map<string, Option<string>>, n: string, actor: string, reason: Option<string>, now: Time)
    ensures var note := PromotionNote(was, n, actor, reason, now);
            && {"promoted_by", "promoted_at", "promotion_reason", "source_candidate_id"} <= note.Keys
            && note["promoted_by"] == Some(actor) && note["promoted_at"] == Some(now)
            && note["promotion_reason"] == reason && note["source_candidate_id"] == Some(n)
            && AgreeBut(note, was, {"promoted_by", "promoted_at", "promotion_reason", "source_candidate_id"})
  {
  }

  /** What a deprecation writes over, and what it keeps: the successor is noted when one is given, and
      otherwise stays as it was. */
  lemma DeprecateSays(st: State, id: string, actor: string, reason: string, by_: Option<string>, now: Time)
    requires Usable(st) && Deprecate(st, id, actor, reason, by_, now, true).1.Ok?
    ensures Validate(id).Some? && ObjectOf(st, Validate(id).value).Some?
    ensures ObjectOf(st, Validate(id).value).value.promotionSource.Some?
    ensures var n := Validate(id).value;
            var x := Deprecate(st, id, actor, reason, by_, now, true).1.value;
            var was := ObjectOf(st, n).value;
            && x.status == Some("deprecated") && x.deprecatedReason == Some(Some(Trim(reason)))
            && x.promotionSource.Some?
            && var note := x.promotionSource.value;
            && {"deprecated_by", "deprecated_at"} <= note.Keys
            && note["deprecated_by"] == Some(actor) && note["deprecated_at"] == Some(now)
            && (Given(by_) ==> "superseded_by" in note && note["superseded_by"] == by_)
            && AgreeBut(note, was.promotionSource.value,
                        {"deprecated_by", "deprecated_at"} + if Given(by_) then {"superseded_by"} else {})
            && x.updatedAt == Some(now) && x.createdAt == was.createdAt
            && x.revision == Some(was.revision.GetOr(1) + 1)
  {
    hide Usable, Upsert, DeprecationNote, ContentFrom, ObjectOf, RowSays, FileOk, Trim;
    UsableParts(st);
    var n := Validate(id).value;
    UsableRow(st, n);
    assert ObjectOf(st, n) == Some(st.disk[st.manifest[n].file]) by { ObjectThere(st, n); }
    var was := ObjectOf(st, n).value;
    StoredHasProvenance(st, n);
    StoredIsDated(st, n);
    var p := DeprecatedForm(was, actor, reason, by_, now);
    UpsertTakesPayload(st, p, Some("deprecated"), now);
    DeprecationNoteSays(was.promotionSource.value, actor, by_, now);
    assert Validate(n) == Some(n);
    assert p.promotionSource == Some(DeprecationNote(was.promotionSource.value, actor, by_, now));
  }

  lemma DeprecationNoteSays(was: map<string, Option<string>>, actor: string, by_: Option<string>, now: Time)
    ensures var note := DeprecationNote(was, actor, by_, now);
            && {"deprecated_by", "deprecated_at"} <= note.Keys
            && note["deprecated_by"] == Some(actor) && note["deprecated_at"] == Some(now)
            && (Given(by_) ==> "superseded_by" in note && note["superseded_by"] == by_)
            && AgreeBut(note, was, {"deprecated_by", "deprecated_at"} + if Given(by_) then {"superseded_by"} else {})
  {
  }

  /** A creation takes the caller's content into the candidate tier, as a candidate whatever status the
      payload has. */
  lemma CreateTakesPayload(st: State, p: Payload, now: Time)
    requires Usable(st) && CreateCandidate(st, p, now, true).1.Ok?
    ensures p.id.Some? && Validate(p.id.value).Some?
    ensures var n := Validate(p.id.value).value;
            var (s2, r) := CreateCandidate(st, p, now, true);
            && ObjectOf(s2, n) == Some(r.value) && n in s2.manifest && s2.manifest[n].tier == Candidate
            && r.value.status == Some("candidate")
            && ContentFrom(r.value.body, p.body) && StampsFrom(r.value, p, ObjectOf(st, n), now)
  {
    hide Usable, Upsert, ContentFrom, ObjectOf, RowSays;
    UpsertTakesPayload(st, p.(status := Some(CANDIDATE)), Some("candidate"), now);
  }
}
