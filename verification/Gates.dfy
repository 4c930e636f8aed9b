/**
 Which transitions an update makes, said outright of the edges and of the files: what each gate asks for,
 and what the operations of the artifact store write.
 */
module Gates {
  import opened Wrappers
  import opened Identifiers
  import opened Text
  import opened Workflow
  import opened Artifacts

  // ---------------------------------------------------------------- edges

  /** The pairs of states a task may go back by. */
  predicate ListedRollback(current: TaskState, target: TaskState) {
    match target
    case EVIDENCE_READY => current == DESIGN_APPROVED
    case DESIGN_APPROVED =>
      current == TESTSPEC_FROZEN || current == VALIDATED || current == RELEASED || current == WRITTEN_BACK
    case TESTSPEC_FROZEN => current == VALIDATED || current == RELEASED || current == WRITTEN_BACK
    case IMPLEMENTED =>
      current == IMPL_APPROVED || current == VALIDATED || current == RELEASED || current == WRITTEN_BACK
    case VALIDATED => current == RELEASED || current == WRITTEN_BACK
    case RELEASED => current == WRITTEN_BACK
    case _ => false
  }

  lemma RollbacksExactly(current: TaskState, target: TaskState)
    ensures target in Rollbacks(current) <==> ListedRollback(current, target)
  {
  }

  /** The states in their order. */
  const ORDER := [NEW, EVIDENCE_READY, DESIGN_APPROVED, TESTSPEC_FROZEN, IMPLEMENTED,
                  IMPL_APPROVED, VALIDATED, RELEASED, WRITTEN_BACK]

  lemma OrderExactly(s: TaskState)
    ensures Rank(s) < |ORDER| && ORDER[Rank(s)] == s
    ensures NextState(s) == if Rank(s) + 1 < |ORDER| then Some(ORDER[Rank(s) + 1]) else None
  {
  }

  // ---------------------------------------------------------------- gates

  /** A JSON review that lets a task through: approved outright, or with conditions and no change asked
      for under required_changes. */
  predicate JsonApproves(doc: Doc) {
    doc.ReviewDoc? &&
    (Trim(doc.verdict) == "approve" || (Trim(doc.verdict) == "approve_with_conditions" && doc.requiredChanges == []))
  }

  /** And a markdown one: its conditions are resolved when a field of their own says "true". */
  predicate MarkdownApproves(doc: Doc) {
    doc.MarkdownDoc? &&
    (doc.verdictField == Some("approve")
     || (doc.verdictField == Some("approve_with_conditions") && doc.resolvedField == Some("true")))
  }

  /** The JSON review decides when there is one, and otherwise the markdown one, which there must be. */
  predicate ReviewApproves(files: Files, json: Slot, markdown: Slot) {
    if json in files then JsonApproves(files[json])
    else markdown in files && MarkdownApproves(files[markdown])
  }

  /** What a task must have to enter a state. */
  predicate Opens(files: Files, target: TaskState) {
    match target
    case NEW => true
    case EVIDENCE_READY =>
      Slot(Task, TaskBriefJson) in files && Slot(Evidence, EvidencePackJson) in files
    case DESIGN_APPROVED =>
      && (Slot(Design, DesignSpecJson) in files || Slot(Design, DesignSpecMd) in files)
      && ReviewApproves(files, Slot(Design, DesignReviewJson), Slot(Design, DesignReviewMd))
    case TESTSPEC_FROZEN => Slot(Test, TestSpecJson) in files && Slot(Test, AcceptanceJson) in files
    case IMPLEMENTED =>
      Slot(Dev, PatchDiff) in files && Slot(Dev, ChangedFilesJson) in files && Slot(Dev, SelftestJson) in files
    case IMPL_APPROVED => ReviewApproves(files, Slot(Review, ImplReviewJson), Slot(Review, ImplReviewMd))
    case VALIDATED =>
      && Slot(Validation, ValidationReportJson) in files && Slot(Validation, RegressionJson) in files
      && files[Slot(Validation, ValidationReportJson)] == ReportDoc(true)
    case RELEASED =>
      (Slot(Release, AdrJson) in files || Slot(Release, AdrMd) in files) && Slot(Release, ChangelogMd) in files
    case WRITTEN_BACK =>
      Slot(Writeback, ExperiencePacketJson) in files && Slot(Writeback, FinalizationJson) in files
  }

  lemma ReviewExactly(files: Files, stage: Stage, json: FileName, markdown: FileName)
    ensures ReviewPasses(files, stage, json, markdown)
            <==> ReviewApproves(files, Slot(stage, json), Slot(stage, markdown))
  {
    hide Trim;
  }

  lemma GateExactly(files: Files, target: TaskState)
    ensures GateOpen(files, target) <==> Opens(files, target)
  {
    hide ReviewPasses, ReviewApproves;
    ReviewExactly(files, Design, DesignReviewJson, DesignReviewMd);
    ReviewExactly(files, Review, ImplReviewJson, ImplReviewMd);
  }

  /** An update succeeds if and only if the task is there, the target is the next state or a listed
      rollback, and the files it then has let it in. */
  lemma UpdateSucceedsExactly(st: Store, id: string, target: TaskState, who: string, reason: Option<string>,
                              now: string)
    ensures UpdateState(st, id, target, who, reason, now).1.Ok? <==>
            && Validate(id).Some? && Validate(id).value in st.active
            && RecordOf(st.active[Validate(id).value]).Some?
            && var files := st.active[Validate(id).value];
               var current := RecordOf(files).value.state;
               (Rank(target) == Rank(current) + 1 || ListedRollback(current, target)) && Opens(files, target)
  {
    hide GateOpen, Opens, Rollbacks, NextState, ListedRollback, IsIdentifier, Trim, Rank;
    if GetState(st, id).Ok? {
      var files := st.active[Validate(id).value];
      var current := RecordOf(files).value.state;
      GateExactly(files, target);
      RollbacksExactly(current, target);
      NextIsSuccessor(current, target);
      NotItself(current);
    }
  }

  lemma NotItself(s: TaskState)
    ensures NextState(s) != Some(s) && s !in Rollbacks(s)
  {
  }

  /** A design review that asks for changes keeps a task out, and an implementation review that asks for
      fixes does not. */
  lemma FixesDoNotCount(files: Files, items: seq<string>)
    requires items != []
    ensures GateOpen(files[Slot(Review, ImplReviewJson) := ReviewDoc("approve_with_conditions", [], items)],
                     IMPL_APPROVED)
    ensures !GateOpen(files[Slot(Design, DesignReviewJson) := ReviewDoc("approve_with_conditions", items, [])],
                      DESIGN_APPROVED)
  {
    TrimFixed("approve_with_conditions");
    hide Trim;
    var (fixes, changes) :=
      (ReviewDoc("approve_with_conditions", [], items), ReviewDoc("approve_with_conditions", items, []));
    GateExactly(files[Slot(Review, ImplReviewJson) := fixes], IMPL_APPROVED);
    GateExactly(files[Slot(Design, DesignReviewJson) := changes], DESIGN_APPROVED);
  }

  // ---------------------------------------------------------------- what is written

  /** Only this task's tree has changed. */
  predicate OnlyTask(st: Store, s2: Store, n: string) {
    && s2.archived == st.archived && n in s2.active
    && s2.active.Keys == st.active.Keys + {n}
    && forall m :: m in st.active && m != n ==> s2.active[m] == st.active[m]
  }

  /** Only these files of it. */
  predicate OnlySlots(a: Files, b: Files, slots: set<Slot>) {
    && a.Keys + slots == b.Keys + slots
    && forall slot :: slot in a && slot !in slots ==> b[slot] == a[slot]
  }

  /** What an update writes: who, when, why, from where. */
  lemma UpdateSays(st: Store, id: string, target: TaskState, who: string, reason: Option<string>, now: string)
    requires UpdateState(st, id, target, who, reason, now).1.Ok?
    ensures Validate(id).Some? && Validate(id).value in st.active && RecordOf(st.active[Validate(id).value]).Some?
    ensures var n := Validate(id).value;
            var s2 := UpdateState(st, id, target, who, reason, now).0;
            var was := RecordOf(st.active[n]).value;
            && OnlyTask(st, s2, n) && OnlySlots(st.active[n], s2.active[n], {Slot(Task, StateJson)})
            && RecordOf(s2.active[n]).Some?
            && var record := RecordOf(s2.active[n]).value;
            && record.taskId == n && record.state == target && record.previous == Some(was.state)
            && record.changedBy == Trim(who) && record.createdAt == was.createdAt && record.updatedAt == now
            && record.reason.Some? == reason.Some? && (reason.Some? ==> record.reason.value == Trim(reason.value))
  {
    hide TransitionAllowed, IsIdentifier, Trim;
  }

  /** What a finalization writes: the marker, unless there is one, with the id as the caller spelled it,
      and the state record of a released task. */
  lemma FinalizeSays(st: Store, id: string, who: string, now: string)
    requires FinalizeExperience(st, id, who, now).1.Ok?
    ensures Validate(id).Some? && Validate(id).value in st.active && RecordOf(st.active[Validate(id).value]).Some?
    ensures var n := Validate(id).value;
            var (s2, r) := FinalizeExperience(st, id, who, now);
            var was := RecordOf(st.active[n]).value;
            var (a, b) := (st.active[n], s2.active[n]);
            && OnlyTask(st, s2, n)
            && OnlySlots(a, b, {Slot(Writeback, FinalizationJson), Slot(Task, StateJson)})
            && Slot(Writeback, FinalizationJson) in b && r.value.1 == b[Slot(Writeback, FinalizationJson)]
            && b[Slot(Writeback, FinalizationJson)] ==
               (if Slot(Writeback, FinalizationJson) in a then a[Slot(Writeback, FinalizationJson)]
                else MarkerDoc(Marker(id, now, who, was.state)))
            && RecordOf(b).Some?
            && RecordOf(b).value ==
               (if was.state == RELEASED
                then StateRecord(n, WRITTEN_BACK, Some(RELEASED), Trim(who), Some("Experience packet finalized"),
                                 was.createdAt, now)
                else was)
            && r.value.0 == RecordOf(b).value.state
  {
    TrimFixed("Experience packet finalized");
    hide IsIdentifier, Trim;
  }

  /** And when it succeeds. */
  lemma FinalizeSucceedsExactly(st: Store, id: string, who: string, now: string)
    ensures FinalizeExperience(st, id, who, now).1.Ok? <==>
            && Validate(id).Some? && Validate(id).value in st.active
            && RecordOf(st.active[Validate(id).value]).Some?
            && var files := st.active[Validate(id).value];
               RecordOf(files).value.state in {VALIDATED, RELEASED, WRITTEN_BACK}
               && Slot(Writeback, ExperiencePacketJson) in files
  {
    hide IsIdentifier, Trim, Finalized;
  }

  /** A created task has its brief and a state record, and nothing else. */
  lemma CreateSays(st: Store, id: string, brief: Doc, now: string)
    ensures CreateTask(st, id, brief, now).1.Ok? <==>
            Validate(id).Some? && Validate(id).value !in st.active && brief.JsonDoc? && brief.schema == TaskBriefJson
    ensures CreateTask(st, id, brief, now).1.Ok? ==>
              var n := Validate(id).value;
              var s2 := CreateTask(st, id, brief, now).0;
              && OnlyTask(st, s2, n) && s2.active[n].Keys == {Slot(Task, TaskBriefJson), Slot(Task, StateJson)}
              && s2.active[n][Slot(Task, TaskBriefJson)] == brief
              && s2.active[n][Slot(Task, StateJson)] ==
                 StateDoc(StateRecord(n, NEW, None, "system", Some("Task created"), now, now))
  {
    hide IsIdentifier, Trim;
  }

  // ---------------------------------------------------------------- artifacts

  /** The one stage a file belongs to. */
  function StageOf(name: FileName): Option<Stage> {
    match name
    case TaskBriefJson => Some(Task) case StateJson => Some(Task)
    case EvidencePackJson => Some(Evidence) case GapsJson => Some(Evidence)
    case DesignMainMd => Some(Design) case DesignAltMd => Some(Design) case DesignSpecMd => Some(Design)
    case DesignSpecJson => Some(Design) case DesignReviewMd => Some(Design) case DesignReviewJson => Some(Design)
    case TestSpecJson => Some(Test) case AcceptanceJson => Some(Test)
    case PatchDiff => Some(Dev) case PatchBundleJson => Some(Dev) case ChangedFilesJson => Some(Dev)
    case SelftestJson => Some(Dev) case DevNotesMd => Some(Dev)
    case ImplReviewMd => Some(Review) case ImplReviewJson => Some(Review)
    case ValidationReportJson => Some(Validation) case RegressionJson => Some(Validation)
    case PerfJson => Some(Validation)
    case AdrMd => Some(Release) case AdrJson => Some(Release) case ChangelogMd => Some(Release)
    case IncidentSummaryMd => Some(Release)
    case ExperiencePacketJson => Some(Writeback) case AttachmentsJson => Some(Writeback)
    case FinalizationJson => Some(Writeback)
    case OtherName(_) => None
  }

  lemma AllowedExactly(stage: Stage, name: FileName)
    ensures Allowed(stage, name) <==> StageOf(name) == Some(stage)
  {
  }

  /** The contents a file of this name takes: markdown, text, a review with the list its own model has, a
      report, any JSON for the generic ones, and otherwise JSON of its own schema. */
  predicate Takes(name: FileName, doc: Doc) {
    match name
    case DesignReviewJson =>
      && doc.ReviewDoc? && doc.verdict in {"approve", "approve_with_conditions", "reject"} && doc.requiredFixes == []
    case ImplReviewJson =>
      && doc.ReviewDoc? && doc.verdict in {"approve", "approve_with_conditions", "reject"} && doc.requiredChanges == []
    case ValidationReportJson => doc.ReportDoc?
    case PatchDiff => doc.TextDoc?
    case TaskBriefJson => doc.JsonDoc? && doc.schema == name
    case EvidencePackJson => doc.JsonDoc? && doc.schema == name
    case DesignSpecJson => doc.JsonDoc? && doc.schema == name
    case TestSpecJson => doc.JsonDoc? && doc.schema == name
    case PatchBundleJson => doc.JsonDoc? && doc.schema == name
    case SelftestJson => doc.JsonDoc? && doc.schema == name
    case AdrJson => doc.JsonDoc? && doc.schema == name
    case ExperiencePacketJson => doc.JsonDoc? && doc.schema == name
    case AcceptanceJson => doc.JsonDoc?
    case AttachmentsJson => doc.JsonDoc?
    case ChangedFilesJson => doc.JsonDoc?
    case GapsJson => doc.JsonDoc?
    case PerfJson => doc.JsonDoc?
    case RegressionJson => doc.JsonDoc?
    case _ => doc.MarkdownDoc?
  }

  predicate FormatIs(name: FileName, format: Format) {
    match name
    case PatchDiff => format == TextFormat
    case DesignMainMd => format == MarkdownFormat
    case DesignAltMd => format == MarkdownFormat
    case DesignSpecMd => format == MarkdownFormat
    case DesignReviewMd => format == MarkdownFormat
    case DevNotesMd => format == MarkdownFormat
    case ImplReviewMd => format == MarkdownFormat
    case AdrMd => format == MarkdownFormat
    case ChangelogMd => format == MarkdownFormat
    case IncidentSummaryMd => format == MarkdownFormat
    case _ => format == JsonFormat
  }

  lemma ContentExactly(name: FileName, format: Format, doc: Doc)
    requires !name.OtherName? && name != StateJson && name != FinalizationJson
    ensures ContentAccepted(name, format, doc) <==> FormatIs(name, format) && Takes(name, doc)
  {
    FormatExactly(name, format);
    hide FormatIs;
  }

  lemma FormatExactly(name: FileName, format: Format)
    requires !name.OtherName?
    ensures format == InferFormat(name) <==> FormatIs(name, format)
  {
  }

  /** An artifact is written in any state, exactly when the task is there, the file belongs to the stage
      and is not the service's own, and format and content are those of the file. */
  lemma PutSucceedsExactly(st: Store, id: string, stage: Stage, name: FileName, format: Format, content: Doc)
    ensures var (s2, r) := PutArtifact(st, id, stage, name, format, content);
            && (r.Err? ==> s2 == st)
            && (r.Ok? <==>
                  && Validate(id).Some? && Validate(id).value in st.active
                  && StageOf(name) == Some(stage) && name != StateJson && name != FinalizationJson
                  && FormatIs(name, format) && Takes(name, content))
  {
    hide IsIdentifier, Trim, Allowed, StageOf, ContentAccepted, Takes, FormatIs;
    AllowedExactly(stage, name);
    OtherHasNoStage(name);
    if !name.OtherName? && name != StateJson && name != FinalizationJson {
      ContentExactly(name, format, content);
    }
  }

  /** Then it reads back as it was put, and nothing else has changed. */
  lemma PutSays(st: Store, id: string, stage: Stage, name: FileName, format: Format, content: Doc)
    requires PutArtifact(st, id, stage, name, format, content).1.Ok?
    ensures Validate(id).Some? && Validate(id).value in st.active
    ensures var n := Validate(id).value;
            var s2 := PutArtifact(st, id, stage, name, format, content).0;
            && OnlyTask(st, s2, n) && OnlySlots(st.active[n], s2.active[n], {Slot(stage, name)})
            && Slot(stage, name) in s2.active[n] && s2.active[n][Slot(stage, name)] == content
            && GetState(s2, id) == GetState(st, id)
  {
    hide IsIdentifier, Trim, Allowed, ContentAccepted;
    assert Slot(stage, name) != STATE_SLOT;
  }

  lemma OtherHasNoStage(name: FileName)
    ensures name.OtherName? ==> StageOf(name) == None
  {
  }
}
