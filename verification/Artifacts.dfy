/**
 ArtifactStore (packages/core/storage/artifact_store.py): the task trees under active/ and archived/,
 what each operation does to them, and the store class.
 */
module Artifacts {
  import opened Wrappers
  import opened Identifiers
  import opened Text
  import opened Workflow

  /** Task trees by task id; a tree is its files. */
  datatype Store = Store(active: map<string, Files>, archived: map<string, Files>)

  datatype Format = JsonFormat | MarkdownFormat | TextFormat | OtherFormat(text: string)

  /** ALLOWED_STAGE_FILES */
  predicate Allowed(stage: Stage, name: FileName) {
    match stage
    case Task => name in {TaskBriefJson, StateJson}
    case Evidence => name in {EvidencePackJson, GapsJson}
    case Design => name in {DesignMainMd, DesignAltMd, DesignSpecMd, DesignSpecJson, DesignReviewMd, DesignReviewJson}
    case Test => name in {TestSpecJson, AcceptanceJson}
    case Dev => name in {PatchDiff, PatchBundleJson, ChangedFilesJson, SelftestJson, DevNotesMd}
    case Review => name in {ImplReviewMd, ImplReviewJson}
    case Validation => name in {ValidationReportJson, RegressionJson, PerfJson}
    case Release => name in {AdrMd, AdrJson, ChangelogMd, IncidentSummaryMd}
    case Writeback => name in {ExperiencePacketJson, AttachmentsJson, FinalizationJson}
    case OtherStage(_) => false
  }

  predicate InternalOnly(name: FileName) {
    name == StateJson || name == FinalizationJson
  }

  function InferFormat(name: FileName): Format {
    if name in {DesignMainMd, DesignAltMd, DesignSpecMd, DesignReviewMd, DevNotesMd, ImplReviewMd, AdrMd,
                ChangelogMd, IncidentSummaryMd} then MarkdownFormat
    else if name == PatchDiff then TextFormat
    else if name.OtherName? then OtherFormat(name.text)
    else JsonFormat
  }

  predicate IsVerdict(v: string) {
    v == APPROVE || v == CONDITIONALLY || v == "reject"
  }

  /** The generic JSON files take any object or array. */
  predicate Generic(name: FileName) {
    name in {AcceptanceJson, AttachmentsJson, ChangedFilesJson, GapsJson, PerfJson, RegressionJson}
  }

  /** Schema validation: the reviews keep to the list their own model has. */
  predicate Conforms(name: FileName, doc: Doc) {
    match InferFormat(name)
    case MarkdownFormat => doc.MarkdownDoc?
    case TextFormat => doc.TextDoc?
    case OtherFormat(_) => false
    case JsonFormat =>
      match name
      case DesignReviewJson => doc.ReviewDoc? && IsVerdict(doc.verdict) && doc.requiredFixes == []
      case ImplReviewJson => doc.ReviewDoc? && IsVerdict(doc.verdict) && doc.requiredChanges == []
      case ValidationReportJson => doc.ReportDoc?
      case StateJson => doc.StateDoc?
      case FinalizationJson => doc.MarkerDoc?
      case _ => doc.JsonDoc? && (Generic(name) || doc.schema == name)
  }

  /** What a client may write: an allowed name that the service does not keep for itself. */
  predicate Writable(stage: Stage, name: FileName) {
    Allowed(stage, name) && !InternalOnly(name)
  }

  predicate ContentAccepted(name: FileName, format: Format, content: Doc) {
    format == InferFormat(name) && Conforms(name, content)
  }

  // ---------------------------------------------------------------- operations

  function RecordOf(files: Files): Option<StateRecord> {
    if STATE_SLOT in files && files[STATE_SLOT].StateDoc? then Some(files[STATE_SLOT].record) else None
  }

  function StateOf(st: Store, n: string): Option<TaskState> {
    if n in st.active && RecordOf(st.active[n]).Some? then Some(RecordOf(st.active[n]).value.state) else None
  }

  function GetState(st: Store, id: string): Result<TaskState> {
    match Validate(id)
    case None => Err(Invalid)
    case Some(n) => if StateOf(st, n).Some? then Ok(StateOf(st, n).value) else Err(NotFound)
  }

  function FreshTask(n: string, brief: Doc, now: string): Files {
    map[Slot(Task, TaskBriefJson) := brief,
        STATE_SLOT := StateDoc(StateRecord(n, NEW, None, "system", Some("Task created"), now, now))]
  }

  function CreateTask(st: Store, id: string, brief: Doc, now: string): (Store, Result<()>) {
    match Validate(id)
    case None => (st, Err(Invalid))
    case Some(n) =>
      if n in st.active then (st, Err(Conflict))
      else if !Conforms(TaskBriefJson, brief) then (st, Err(Invalid))
      else (st.(active := st.active[n := FreshTask(n, brief, now)]), Ok(()))
  }

  function PutArtifact(st: Store, id: string, stage: Stage, name: FileName, format: Format, content: Doc)
    : (Store, Result<()>)
  {
    if !Writable(stage, name) || Validate(id).None? then (st, Err(Invalid))
    else
      var n := Validate(id).value;
      if n !in st.active then (st, Err(NotFound))
      else if !ContentAccepted(name, format, content) then (st, Err(Invalid))
      else (st.(active := st.active[n := st.active[n][Slot(stage, name) := content]]), Ok(()))
  }

  function TrimReason(reason: Option<string>): Option<string> {
    match reason case None => None case Some(v) => Some(Trim(v))
  }

  /** The validated state record: schema validation strips its strings. */
  function NextRecord(r: StateRecord, n: string, target: TaskState, changedBy: string, reason: Option<string>,
                      now: string)
    : StateRecord
  {
    StateRecord(n, target, Some(r.state), Trim(changedBy), TrimReason(reason), r.createdAt, now)
  }

  function UpdateState(st: Store, id: string, target: TaskState, changedBy: string, reason: Option<string>, now: string)
    : (Store, Result<()>)
  {
    match GetState(st, id)
    case Err(e) => (st, Err(e))
    case Ok(current) =>
      var n := Validate(id).value;
      var files := st.active[n];
      if !TransitionAllowed(files, current, target) then (st, Err(Conflict))
      else
        var record := NextRecord(RecordOf(files).value, n, target, changedBy, reason, now);
        (st.(active := st.active[n := files[STATE_SLOT := StateDoc(record)]]), Ok(()))
  }

  /** The marker is written once, as the caller spelled the id. */
  function Marked(id: string, files: Files, current: TaskState, by_: string, now: string): Files {
    if MARKER_SLOT in files then files else files[MARKER_SLOT := MarkerDoc(Marker(id, now, by_, current))]
  }

  /** The files after a finalization: marked, and a released task written back. */
  function Finalized(n: string, id: string, files: Files, current: TaskState, by_: string, now: string): Files
    requires RecordOf(files).Some?
  {
    WrittenBack(n, Marked(id, files, current, by_, now), by_, now)
  }

  /** What the transition leaves of the files. */
  function WrittenBack(n: string, files: Files, by_: string, now: string): Files
    requires RecordOf(files).Some?
  {
    if RecordOf(files).value.state == RELEASED then
      files[STATE_SLOT := StateDoc(NextRecord(RecordOf(files).value, n, WRITTEN_BACK, by_,
                                              Some("Experience packet finalized"), now))]
    else files
  }

  lemma FinalizedParts(n: string, id: string, files: Files, current: TaskState, by_: string, now: string)
    requires RecordOf(files).Some? && RecordOf(files).value.state == current
    ensures var (marked, done) := (Marked(id, files, current, by_, now), Finalized(n, id, files, current, by_, now));
            && RecordOf(marked) == RecordOf(files) && MARKER_SLOT in marked
            && done == WrittenBack(n, marked, by_, now) && RecordOf(done).Some?
            && RecordOf(done).value.state == (if current == RELEASED then WRITTEN_BACK else current)
            && MARKER_SLOT in done && done[MARKER_SLOT] == marked[MARKER_SLOT]
  {
    hide Trim;
  }

  function FinalizeExperience(st: Store, id: string, by_: string, now: string): (Store, Result<(TaskState, Doc)>) {
    match GetState(st, id)
    case Err(e) => (st, Err(e))
    case Ok(current) =>
      var n := Validate(id).value;
      if !AtLeast(current, VALIDATED) || PACKET_SLOT !in st.active[n] then (st, Err(Conflict))
      else
        var files := Finalized(n, id, st.active[n], current, by_, now);
        (st.(active := st.active[n := files]),
         Ok((if current == RELEASED then WRITTEN_BACK else current, files[MARKER_SLOT])))
  }

  function ArchiveTask(st: Store, id: string): (Store, Result<()>) {
    match Validate(id)
    case None => (st, Err(Invalid))
    case Some(n) =>
      if n !in st.active then (st, Err(NotFound))
      else if n in st.archived then (st, Err(Conflict))
      else (Store(st.active - {n}, st.archived[n := st.active[n]]), Ok(()))
  }

  // ---------------------------------------------------------------- the class

  class ArtifactStore {
    var active: map<string, Files>
    var archived: map<string, Files>

    constructor ()
      ensures View() == Store(map[], map[])
    {
      active, archived := map[], map[];
    }

    ghost function View(): Store
      reads this
    {
      Store(active, archived)
    }

    /** The tree is filled under a staging name and then renamed, so it appears complete or not at all. */
    method Create(id: string, brief: Doc, now: string) returns (r: Result<()>)
      modifies `active
      ensures (View(), r) == CreateTask(old(View()), id, brief, now)
    {
      var n := Validate(id);
      if n.None? {
        return Err(Invalid);
      }
      if n.value in active {
        return Err(Conflict);
      }
      if !Conforms(TaskBriefJson, brief) {
        return Err(Invalid);
      }
      var staging: Files := map[];
      staging := staging[Slot(Task, TaskBriefJson) := brief];
      var record := StateRecord(n.value, NEW, None, "system", Some("Task created"), now, now);
      staging := staging[STATE_SLOT := StateDoc(record)];
      active := active[n.value := staging];
      r := Ok(());
    }

    method WriteFile(n: string, slot: Slot, doc: Doc)
      requires n in active
      modifies `active
      ensures active == old(active)[n := old(active)[n][slot := doc]]
    {
      active := active[n := active[n][slot := doc]];
    }

    method Put(id: string, stage: Stage, name: FileName, format: Format, content: Doc) returns (r: Result<()>)
      modifies `active
      ensures View() == PutArtifact(old(View()), id, stage, name, format, content).0
      ensures r == PutArtifact(old(View()), id, stage, name, format, content).1
    {
      hide Writable, ContentAccepted, IsIdentifier;
      if !Writable(stage, name) {
        return Err(Invalid);
      }
      var n := Validate(id);
      if n.None? {
        return Err(Invalid);
      }
      if n.value !in active {
        return Err(NotFound);
      }
      if !ContentAccepted(name, format, content) {
        return Err(Invalid);
      }
      WriteFile(n.value, Slot(stage, name), content);
      r := Ok(());
    }

    method ReadState(id: string) returns (r: Result<TaskState>)
      ensures r == GetState(View(), id)
    {
      var n := Validate(id);
      if n.None? {
        return Err(Invalid);
      }
      if n.value !in active || RecordOf(active[n.value]).None? {
        return Err(NotFound);
      }
      r := Ok(RecordOf(active[n.value]).value.state);
    }

    method Update(id: string, target: TaskState, changedBy: string, reason: Option<string>, now: string)
      returns (r: Result<()>)
      modifies `active
      ensures (View(), r) == UpdateState(old(View()), id, target, changedBy, reason, now)
    {
      var current := ReadState(id);
      if current.Err? {
        return Err(current.error);
      }
      var n := Validate(id).value;
      if current.value == target {
        return Err(Conflict);
      }
      if !TransitionAllowed(active[n], current.value, target) {
        return Err(Conflict);
      }
      var record := NextRecord(RecordOf(active[n]).value, n, target, changedBy, reason, now);
      WriteFile(n, STATE_SLOT, StateDoc(record));
      r := Ok(());
    }

    /** Two durable steps, the marker and then the transition. */
    method Finalize(id: string, finalizedBy: string, now: string) returns (r: Result<(TaskState, Doc)>)
      modifies `active
      ensures (View(), r) == FinalizeExperience(old(View()), id, finalizedBy, now)
    {
      hide IsIdentifier, Trim, TransitionAllowed, RecordOf, NextRecord, Marked;
      var before := ReadState(id);
      if before.Err? {
        return Err(before.error);
      }
      var n := Validate(id).value;
      if !AtLeast(before.value, VALIDATED) {
        return Err(Conflict);
      }
      if PACKET_SLOT !in active[n] {
        return Err(Conflict);
      }
      WriteMarker(n, id, before.value, finalizedBy, now);
      var marker := active[n][MARKER_SLOT];
      WriteBack(n, id, before.value, finalizedBy, now);
      FinalizedParts(n, id, old(active)[n], before.value, finalizedBy, now);
      var after := ReadState(id);
      r := Ok((after.value, marker));
      assert active == old(active)[n := active[n]];
    }

    /** A marker that exists is kept. */
    method WriteMarker(n: string, id: string, current: TaskState, finalizedBy: string, now: string)
      requires n in active
      modifies `active
      ensures active == old(active)[n := Marked(id, old(active)[n], current, finalizedBy, now)]
      ensures MARKER_SLOT in active[n] && RecordOf(active[n]) == RecordOf(old(active)[n])
      ensures PACKET_SLOT in old(active)[n] ==> PACKET_SLOT in active[n]
    {
      if MARKER_SLOT !in active[n] {
        WriteFile(n, MARKER_SLOT, MarkerDoc(Marker(id, now, finalizedBy, current)));
      } else {
        assert active == active[n := active[n]];
      }
    }

    /** The transition of a released task goes through the same checks as any other and never fails. */
    method WriteBack(n: string, id: string, current: TaskState, finalizedBy: string, now: string)
      requires n in active && Validate(id) == Some(n)
      requires RecordOf(active[n]).Some? && RecordOf(active[n]).value.state == current && AtLeast(current, VALIDATED)
      requires MARKER_SLOT in active[n] && PACKET_SLOT in active[n]
      modifies `active
      ensures active == old(active)[n := WrittenBack(n, old(active)[n], finalizedBy, now)]
    {
      hide IsIdentifier, Trim, TransitionAllowed, NextRecord;
      if AtLeast(current, RELEASED) && current != WRITTEN_BACK {
        assert current == RELEASED;
        WritebackAllowed(active[n]);
        var moved := Update(id, WRITTEN_BACK, finalizedBy, Some("Experience packet finalized"), now);
        assert moved.Ok?;
      } else {
        assert active == active[n := active[n]];
      }
    }

    method Archive(id: string) returns (r: Result<()>)
      modifies this
      ensures (View(), r) == ArchiveTask(old(View()), id)
    {
      var n := Validate(id);
      if n.None? {
        return Err(Invalid);
      }
      if n.value !in active {
        return Err(NotFound);
      }
      if n.value in archived {
        return Err(Conflict);
      }
      var tree := active[n.value];
      active := active - {n.value};
      archived := archived[n.value := tree];
      r := Ok(());
    }
  }
}
