/**
 The task workflow (packages/core/storage/state_machine.py): nine states, their forward edges and
 rollbacks, and the gate each target state checks on the artifact files.
 */
module Workflow {
  import opened Wrappers
  import opened Text

  datatype TaskState =
    | NEW | EVIDENCE_READY | DESIGN_APPROVED | TESTSPEC_FROZEN | IMPLEMENTED
    | IMPL_APPROVED | VALIDATED | RELEASED | WRITTEN_BACK

  /** The position in STATE_ORDER. */
  function Rank(s: TaskState): nat {
    match s
    case NEW => 0 case EVIDENCE_READY => 1 case DESIGN_APPROVED => 2 case TESTSPEC_FROZEN => 3
    case IMPLEMENTED => 4 case IMPL_APPROVED => 5 case VALIDATED => 6 case RELEASED => 7 case WRITTEN_BACK => 8
  }

  predicate AtLeast(current: TaskState, minimum: TaskState) {
    Rank(current) >= Rank(minimum)
  }

  function NextState(s: TaskState): Option<TaskState> {
    match s
    case NEW => Some(EVIDENCE_READY)
    case EVIDENCE_READY => Some(DESIGN_APPROVED)
    case DESIGN_APPROVED => Some(TESTSPEC_FROZEN)
    case TESTSPEC_FROZEN => Some(IMPLEMENTED)
    case IMPLEMENTED => Some(IMPL_APPROVED)
    case IMPL_APPROVED => Some(VALIDATED)
    case VALIDATED => Some(RELEASED)
    case RELEASED => Some(WRITTEN_BACK)
    case WRITTEN_BACK => None
  }

  function Rollbacks(s: TaskState): set<TaskState> {
    match s
    case NEW => {} case EVIDENCE_READY => {} case IMPLEMENTED => {}
    case DESIGN_APPROVED => {EVIDENCE_READY}
    case TESTSPEC_FROZEN => {DESIGN_APPROVED}
    case IMPL_APPROVED => {IMPLEMENTED}
    case VALIDATED => {IMPLEMENTED, DESIGN_APPROVED, TESTSPEC_FROZEN}
    case RELEASED => {VALIDATED, IMPLEMENTED, DESIGN_APPROVED, TESTSPEC_FROZEN}
    case WRITTEN_BACK => {RELEASED, VALIDATED, IMPLEMENTED, DESIGN_APPROVED, TESTSPEC_FROZEN}
  }

  // ---------------------------------------------------------------- artifact files

  datatype Stage =
    | Task | Evidence | Design | Test | Dev | Review | Validation | Release | Writeback
    | OtherStage(text: string)

  datatype FileName =
    | TaskBriefJson | StateJson | EvidencePackJson | GapsJson
    | DesignMainMd | DesignAltMd | DesignSpecMd | DesignSpecJson | DesignReviewMd | DesignReviewJson
    | TestSpecJson | AcceptanceJson
    | PatchDiff | PatchBundleJson | ChangedFilesJson | SelftestJson | DevNotesMd
    | ImplReviewMd | ImplReviewJson
    | ValidationReportJson | RegressionJson | PerfJson
    | AdrMd | AdrJson | ChangelogMd | IncidentSummaryMd
    | ExperiencePacketJson | AttachmentsJson | FinalizationJson
    | OtherName(text: string)

  datatype Slot = Slot(stage: Stage, name: FileName)

  datatype StateRecord = StateRecord(
    taskId: string, state: TaskState, previous: Option<TaskState>, changedBy: string,
    reason: Option<string>, createdAt: string, updatedAt: string)

  datatype Marker = Marker(taskId: string, finalizedAt: string, finalizedBy: string, stateAtFinalize: TaskState)

  /** The contents of a file, as far as the workflow looks into it. A review carries the list its own
      schema has: required_changes for a design, required_fixes for an implementation. Of a markdown
      file the two fields the gates search for are given as found. */
  datatype Doc =
    | ReviewDoc(verdict: string, requiredChanges: seq<string>, requiredFixes: seq<string>)
    | ReportDoc(passed: bool)
    | StateDoc(record: StateRecord)
    | MarkerDoc(marker: Marker)
    | JsonDoc(schema: FileName, body: string)
    | MarkdownDoc(verdictField: Option<string>, resolvedField: Option<string>, body: string)
    | TextDoc(body: string)

  type Files = map<Slot, Doc>

  const STATE_SLOT := Slot(Task, StateJson)
  const PACKET_SLOT := Slot(Writeback, ExperiencePacketJson)
  const MARKER_SLOT := Slot(Writeback, FinalizationJson)
  const REPORT_SLOT := Slot(Validation, ValidationReportJson)

  predicate Has(files: Files, stage: Stage, name: FileName) {
    Slot(stage, name) in files
  }

  const APPROVE := "approve"
  const CONDITIONALLY := "approve_with_conditions"

  /** _review_gate: the verdict and whether its conditions are resolved; None when there is neither
      file. The JSON file wins, and it is always required_changes that is read from it. */
  function ReviewGate(files: Files, stage: Stage, json: FileName, markdown: FileName): Option<(Option<string>, bool)> {
    if Has(files, stage, json) then
      var doc := files[Slot(stage, json)];
      var verdict := if doc.ReviewDoc? then Trim(doc.verdict) else "";
      var changes := if doc.ReviewDoc? then doc.requiredChanges else [];
      Some((Some(verdict), verdict != CONDITIONALLY || |changes| == 0))
    else if Has(files, stage, markdown) then
      var doc := files[Slot(stage, markdown)];
      var verdict := if doc.MarkdownDoc? then doc.verdictField else None;
      var resolved := if doc.MarkdownDoc? then doc.resolvedField else None;
      Some((verdict, if verdict == Some(CONDITIONALLY) then resolved == Some("true") else verdict == Some(APPROVE)))
    else None
  }

  predicate ReviewPasses(files: Files, stage: Stage, json: FileName, markdown: FileName) {
    var r := ReviewGate(files, stage, json, markdown);
    r.Some? && (r.value.0 == Some(APPROVE) || r.value.0 == Some(CONDITIONALLY)) && r.value.1
  }

  /** _validate_gate: true when it returns, false when it raises. */
  predicate GateOpen(files: Files, target: TaskState) {
    match target
    case NEW => true
    case EVIDENCE_READY => Has(files, Task, TaskBriefJson) && Has(files, Evidence, EvidencePackJson)
    case DESIGN_APPROVED =>
      && (Has(files, Design, DesignSpecJson) || Has(files, Design, DesignSpecMd))
      && ReviewPasses(files, Design, DesignReviewJson, DesignReviewMd)
    case TESTSPEC_FROZEN => Has(files, Test, TestSpecJson) && Has(files, Test, AcceptanceJson)
    case IMPLEMENTED => Has(files, Dev, PatchDiff) && Has(files, Dev, ChangedFilesJson) && Has(files, Dev, SelftestJson)
    case IMPL_APPROVED => ReviewPasses(files, Review, ImplReviewJson, ImplReviewMd)
    case VALIDATED =>
      && REPORT_SLOT in files && Has(files, Validation, RegressionJson)
      && files[REPORT_SLOT].ReportDoc? && files[REPORT_SLOT].passed
    case RELEASED => (Has(files, Release, AdrJson) || Has(files, Release, AdrMd)) && Has(files, Release, ChangelogMd)
    case WRITTEN_BACK => PACKET_SLOT in files && MARKER_SLOT in files
  }

  /** validate_transition: the target is the next state or a listed rollback, and its gate is open. */
  predicate TransitionAllowed(files: Files, current: TaskState, target: TaskState) {
    && current != target
    && (NextState(current) == Some(target) || target in Rollbacks(current))
    && GateOpen(files, target)
  }

  // ---------------------------------------------------------------- what a gate asks for

  /** The part of a gate that only asks whether files exist. */
  predicate Present(files: Files, target: TaskState) {
    match target
    case DESIGN_APPROVED =>
      && (Has(files, Design, DesignSpecJson) || Has(files, Design, DesignSpecMd))
      && (Has(files, Design, DesignReviewJson) || Has(files, Design, DesignReviewMd))
    case IMPL_APPROVED => Has(files, Review, ImplReviewJson) || Has(files, Review, ImplReviewMd)
    case VALIDATED => REPORT_SLOT in files && Has(files, Validation, RegressionJson)
    case _ => GateOpen(files, target)
  }

  /** The states whose gate looks into a file. */
  predicate ReadsContents(target: TaskState) {
    target == DESIGN_APPROVED || target == IMPL_APPROVED || target == VALIDATED
  }

  /** An edge of the machine climbs by one or falls strictly, and none leads back to NEW. */
  lemma EdgesClimbByOne(files: Files, current: TaskState, target: TaskState)
    requires TransitionAllowed(files, current, target)
    ensures Rank(target) == Rank(current) + 1 || 1 <= Rank(target) < Rank(current)
    ensures target != NEW
  {
  }

  /** States are told apart by their rank, and exactly the successor in the order is the next state. */
  lemma NextIsSuccessor(s: TaskState, t: TaskState)
    ensures NextState(s) == Some(t) <==> Rank(t) == Rank(s) + 1
    ensures Rank(s) == Rank(t) <==> s == t
  {
  }

  predicate UpTo(files: Files, s: TaskState) {
    forall t :: Rank(t) <= Rank(s) ==> Present(files, t)
  }

  lemma GateNeedsPresence(files: Files, target: TaskState)
    ensures GateOpen(files, target) ==> Present(files, target)
    ensures !ReadsContents(target) ==> (GateOpen(files, target) <==> Present(files, target))
  {
  }

  /** More files never close the existence part of a gate. */
  lemma PresenceGrows(files: Files, more: Files, target: TaskState)
    requires files.Keys <= more.Keys && Present(files, target)
    ensures Present(more, target)
  {
  }

  /** The inner transition of a finalization is always allowed: both files of its gate are there. */
  lemma WritebackAllowed(files: Files)
    requires PACKET_SLOT in files && MARKER_SLOT in files
    ensures TransitionAllowed(files, RELEASED, WRITTEN_BACK)
  {
  }
}
