/**
 ArtifactService (packages/core/services/artifact_service.py): each store step with its ledger event,
 rejections included.
 */
module TaskService {
  import opened Wrappers
  import opened Identifiers
  import opened Text
  import opened Workflow
  import opened Artifacts
  import opened Ledger

  datatype TaskEvent =
    | TaskCreated
    | TaskCreateRejected(error: Error)
    | ArtifactWritten(stage: Stage, name: FileName)
    | StateTransitioned(previous: TaskState, target: TaskState)
    | StateTransitionRejected(previous: TaskState, target: TaskState, error: Error)
    | WritebackFinalized(finalization: Doc)
    | WritebackFinalizeRejected(error: Error)
    | TaskArchived

  datatype World = World(store: Store, ledger: map<string, seq<TaskEvent>>)

  const EMPTY_WORLD := World(Store(map[], map[]), map[])

  const UNKNOWN_TASK := "unknown-task"

  /** The operations of the service. */
  datatype Op =
    | Create(id: string, brief: Doc, now: string)
    | Put(id: string, stage: Stage, name: FileName, format: Format, content: Doc)
    | Update(id: string, target: TaskState, changedBy: string, reason: Option<string>, now: string)
    | Finalize(id: string, finalizedBy: string, now: string)
    | Archive(id: string)

  /** The store half of an operation. */
  function StoreStep(st: Store, op: Op): Store {
    match op
    case Create(id, brief, now) => CreateTask(st, id, brief, now).0
    case Put(id, stage, name, format, content) => PutArtifact(st, id, stage, name, format, content).0
    case Update(id, target, who, reason, now) => UpdateState(st, id, target, who, reason, now).0
    case Finalize(id, who, now) => FinalizeExperience(st, id, who, now).0
    case Archive(id) => ArchiveTask(st, id).0
  }

  /** The event of an operation and the id it is filed under; None when it raises before any event. */
  function EventOf(st: Store, op: Op): Option<(string, TaskEvent)> {
    match op
    case Create(id, brief, now) =>
      (match CreateTask(st, id, brief, now).1
       case Ok(_) => Some((Trim(id), TaskCreated))
       case Err(e) => Some((Validate(id).GetOr(UNKNOWN_TASK), TaskCreateRejected(e))))
    case Put(id, stage, name, format, content) =>
      if PutArtifact(st, id, stage, name, format, content).1.Ok? then Some((id, ArtifactWritten(stage, name))) else None
    case Update(id, target, who, reason, now) =>
      (match GetState(st, id)
       case Err(_) => None
       case Ok(previous) =>
         match UpdateState(st, id, target, who, reason, now).1
         case Ok(_) => Some((id, StateTransitioned(previous, target)))
         case Err(e) => Some((id, StateTransitionRejected(previous, target, e))))
    case Finalize(id, who, now) =>
      (match FinalizeExperience(st, id, who, now).1
       case Ok(done) => Some((id, WritebackFinalized(done.1)))
       case Err(e) => if e == Conflict then Some((id, WritebackFinalizeRejected(e))) else None)
    case Archive(id) => if ArchiveTask(st, id).1.Ok? then Some((id, TaskArchived)) else None
  }

  function Record(ledger: map<string, seq<TaskEvent>>, entry: Option<(string, TaskEvent)>): map<string,
                  seq<TaskEvent>> {
    if entry.None? then ledger else Append(ledger, entry.value.0, entry.value.1).0
  }

  function Plain<T>(r: Result<T>): Result<()> {
    match r case Ok(_) => Ok(()) case Err(e) => Err(e)
  }

  function StoreAnswer(st: Store, op: Op): Result<()> {
    match op
    case Create(id, brief, now) => CreateTask(st, id, brief, now).1
    case Put(id, stage, name, format, content) => PutArtifact(st, id, stage, name, format, content).1
    case Update(id, target, who, reason, now) => UpdateState(st, id, target, who, reason, now).1
    case Finalize(id, who, now) => Plain(FinalizeExperience(st, id, who, now).1)
    case Archive(id) => ArchiveTask(st, id).1
  }

  /** What the caller is told: the store's answer, unless the ledger refuses the event after it. */
  function Answer(w: World, op: Op): Result<()> {
    var entry := EventOf(w.store, op);
    if entry.Some? && LedgerFile(entry.value.0).None? then Err(Invalid) else StoreAnswer(w.store, op)
  }

  /** One service call: the store changes first, then the ledger is told, if it accepts the id. */
  function Step(w: World, op: Op): World {
    World(StoreStep(w.store, op), Record(w.ledger, EventOf(w.store, op)))
  }

  function Run(ops: seq<Op>): World {
    if ops == [] then EMPTY_WORLD else Step(Run(ops[..|ops| - 1]), ops[|ops| - 1])
  }

  class ArtifactService {
    const store: ArtifactStore
    const ledger: LedgerStore<TaskEvent>

    constructor (store: ArtifactStore, ledger: LedgerStore<TaskEvent>)
      ensures this.store == store && this.ledger == ledger
    {
      this.store, this.ledger := store, ledger;
    }

    ghost function View(): World
      reads store, ledger
    {
      World(store.View(), ledger.files)
    }

    method CreateTaskCall(id: string, brief: Doc, now: string) returns (r: Result<()>)
      modifies store, ledger
      ensures View() == Step(old(View()), Create(id, brief, now))
      ensures r == Answer(old(View()), Create(id, brief, now))
    {
      hide IsIdentifier, Conforms, LedgerFile;
      var created := store.Create(id, brief, now);
      if created.Err? {
        AuditIdAccepted(id);
        var _ := ledger.AppendEvent(Validate(id).GetOr(UNKNOWN_TASK), TaskCreateRejected(created.error));
        return created;
      }
      AuditIdAccepted(id);
      var noted := ledger.AppendEvent(Trim(id), TaskCreated);
      r := noted;
    }

    method PutArtifactCall(id: string, stage: Stage, name: FileName, format: Format,
                           content: Doc) returns (r: Result<()>)
      modifies store, ledger
      ensures View() == Step(old(View()), Put(id, stage, name, format, content))
      ensures r == Answer(old(View()), Put(id, stage, name, format, content))
    {
      hide PutArtifact, LedgerFile;
      r := store.Put(id, stage, name, format, content);
      if r.Ok? {
        var noted := ledger.AppendEvent(id, ArtifactWritten(stage, name));
        if noted.Err? {
          r := noted;
        }
      }
    }

    method UpdateStateCall(id: string, target: TaskState, changedBy: string, reason: Option<string>, now: string)
      returns (r: Result<()>)
      modifies store, ledger
      ensures View() == Step(old(View()), Update(id, target, changedBy, reason, now))
      ensures r == Answer(old(View()), Update(id, target, changedBy, reason, now))
    {
      hide UpdateState, GetState, LedgerFile;
      var previous := store.ReadState(id);
      if previous.Err? {
        UpdateNeedsState(old(View()).store, id, target, changedBy, reason, now);
        return Err(previous.error);
      }
      var moved := store.Update(id, target, changedBy, reason, now);
      if moved.Err? {
        var noted := ledger.AppendEvent(id, StateTransitionRejected(previous.value, target, moved.error));
        return if noted.Ok? then moved else noted;
      }
      var noted := ledger.AppendEvent(id, StateTransitioned(previous.value, target));
      r := if noted.Ok? then moved else noted;
    }

    method FinalizeCall(id: string, finalizedBy: string, now: string) returns (r: Result<(TaskState, Doc)>)
      modifies store, ledger
      ensures View() == Step(old(View()), Finalize(id, finalizedBy, now))
      ensures Plain(r) == Answer(old(View()), Finalize(id, finalizedBy, now))
      ensures r.Ok? ==> r == FinalizeExperience(old(View()).store, id, finalizedBy, now).1
    {
      hide FinalizeExperience, LedgerFile;
      r := store.Finalize(id, finalizedBy, now);
      if r.Err? {
        if r.error == Conflict {
          var noted := ledger.AppendEvent(id, WritebackFinalizeRejected(r.error));
          if noted.Err? {
            r := Err(noted.error);
          }
        }
        return;
      }
      var noted := ledger.AppendEvent(id, WritebackFinalized(r.value.1));
      if noted.Err? {
        r := Err(noted.error);
      }
    }

    method ArchiveCall(id: string) returns (r: Result<()>)
      modifies store, ledger
      ensures View() == Step(old(View()), Archive(id))
      ensures r == Answer(old(View()), Archive(id))
      ensures ledger.audits == old(ledger.audits) + if r.Ok? then [(id, TaskArchived)] else []
    {
      hide ArchiveTask, LedgerFile;
      r := store.Archive(id);
      if r.Ok? {
        var noted := ledger.AppendEvent(id, TaskArchived);
        if noted.Err? {
          return noted;
        }
        ledger.AppendAudit(id, TaskArchived);
      }
    }
  }

  /** The id a creation is filed under is always one the ledger accepts. */
  lemma AuditIdAccepted(id: string)
    ensures var audit := Validate(id).GetOr(UNKNOWN_TASK); Validate(audit) == Some(audit) && LedgerFile(audit).Some?
    ensures Validate(id).Some? ==> Validate(id).value == Trim(id)
  {
    assert IsIdentifier(UNKNOWN_TASK);
    var audit := Validate(id).GetOr(UNKNOWN_TASK);
    IdentifierIsTrimmed(audit);
    LedgerFileExact(audit);
  }

  lemma UpdateNeedsState(st: Store, id: string, target: TaskState, who: string, reason: Option<string>, now: string)
    requires GetState(st, id).Err?
    ensures UpdateState(st, id, target, who, reason, now) == (st, Err(GetState(st, id).error))
  {
  }
}
