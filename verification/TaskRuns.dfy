/**
 Properties of whole runs of the task service: artifacts only accumulate, so some rollbacks cannot
 fail; gates are passed again after every rollback; the ledger replays to the stored state; a
 finalization is written once; archived trees never change.
 */
module TaskRuns {
  import opened Wrappers
  import opened Identifiers
  import opened Text
  import opened Workflow
  import opened Artifacts
  import opened Gates
  import opened Ledger
  import opened TaskService

  // ---------------------------------------------------------------- the invariant of a task

  predicate MarkerOk(files: Files) {
    MARKER_SLOT in files ==>
      files[MARKER_SLOT].MarkerDoc? && AtLeast(files[MARKER_SLOT].marker.stateAtFinalize, VALIDATED)
  }

  predicate DocsConform(files: Files) {
    forall slot :: slot in files ==> Allowed(slot.stage, slot.name) && Conforms(slot.name, files[slot])
  }

  /** Every task of a run: a state record, documents of their schemas, the files every gate up to the
      current state asks for, and a marker no older than VALIDATED. */
  predicate TaskOk(files: Files) {
    && RecordOf(files).Some? && DocsConform(files)
    && UpTo(files, RecordOf(files).value.state)
    && MarkerOk(files)
  }

  predicate StoreOk(st: Store) {
    forall n :: n in st.active ==> TaskOk(st.active[n])
  }

  lemma PresenceUpTo(files: Files, more: Files, s: TaskState)
    requires files.Keys <= more.Keys && UpTo(files, s)
    ensures UpTo(more, s)
  {
    hide Present;
    forall t | Rank(t) <= Rank(s) ensures Present(more, t) {
      PresenceGrows(files, more, t);
    }
  }

  lemma UpToStep(files: Files, current: TaskState, target: TaskState)
    requires UpTo(files, current) && TransitionAllowed(files, current, target)
    ensures UpTo(files, target)
  {
    EdgesClimbByOne(files, current, target);
    GateNeedsPresence(files, target);
    hide Present, GateOpen, NextState, Rollbacks;
    forall t | Rank(t) <= Rank(target) ensures Present(files, t) {
      NextIsSuccessor(target, t);
    }
  }

  lemma FreshOk(n: string, brief: Doc, now: string)
    requires Conforms(TaskBriefJson, brief)
    ensures TaskOk(FreshTask(n, brief, now))
  {
    forall t | Rank(t) <= Rank(NEW) ensures Present(FreshTask(n, brief, now), t) {
      NextIsSuccessor(NEW, t);
    }
  }

  lemma PutOk(files: Files, stage: Stage, name: FileName, format: Format, content: Doc)
    requires TaskOk(files) && Writable(stage, name) && ContentAccepted(name, format, content)
    ensures TaskOk(files[Slot(stage, name) := content])
  {
    assert Slot(stage, name) != STATE_SLOT && Slot(stage, name) != MARKER_SLOT;
    hide Allowed, Conforms, UpTo, InferFormat;
    PresenceUpTo(files, files[Slot(stage, name) := content], RecordOf(files).value.state);
  }

  lemma MovedOk(files: Files, target: TaskState, record: StateRecord)
    requires TaskOk(files) && record.state == target
    requires TransitionAllowed(files, RecordOf(files).value.state, target)
    ensures TaskOk(files[STATE_SLOT := StateDoc(record)])
  {
    assert Allowed(Task, StateJson) && Conforms(StateJson, StateDoc(record));
    hide Allowed, Conforms, UpTo, TransitionAllowed;
    UpToStep(files, RecordOf(files).value.state, target);
    PresenceUpTo(files, files[STATE_SLOT := StateDoc(record)], target);
  }

  lemma MarkerConforms(marker: Marker)
    ensures Allowed(Writeback, FinalizationJson) && Conforms(FinalizationJson, MarkerDoc(marker))
  {
  }

  lemma MarkedOk(files: Files, marker: Marker)
    requires TaskOk(files) && AtLeast(marker.stateAtFinalize, VALIDATED)
    ensures TaskOk(files[MARKER_SLOT := MarkerDoc(marker)])
  {
    hide Allowed, Conforms, UpTo;
    MarkerConforms(marker);
    PresenceUpTo(files, files[MARKER_SLOT := MarkerDoc(marker)], RecordOf(files).value.state);
  }

  lemma FinalizedOk(n: string, id: string, files: Files, who: string, now: string)
    requires TaskOk(files) && RecordOf(files).Some?
    requires AtLeast(RecordOf(files).value.state, VALIDATED) && PACKET_SLOT in files
    ensures TaskOk(Finalized(n, id, files, RecordOf(files).value.state, who, now))
  {
    hide TaskOk, GateOpen, UpTo, TransitionAllowed;
    var current := RecordOf(files).value.state;
    var marked := Marked(id, files, current, who, now);
    if MARKER_SLOT !in files { MarkedOk(files, Marker(id, now, who, current)); }
    if current == RELEASED {
      WritebackAllowed(marked);
      var reason := Some("Experience packet finalized");
      MovedOk(marked, WRITTEN_BACK, NextRecord(RecordOf(files).value, n, WRITTEN_BACK, who, reason, now));
    }
  }

  lemma StepOk(st: Store, op: Op)
    requires StoreOk(st)
    ensures StoreOk(StoreStep(st, op))
  {
    hide TaskOk, Writable, ContentAccepted, Conforms, TransitionAllowed, IsIdentifier, Finalized, FreshTask;
    match op
    case Create(id, brief, now) =>
      if Validate(id).Some? && Conforms(TaskBriefJson, brief) { FreshOk(Validate(id).value, brief, now); }
    case Put(id, stage, name, format, content) =>
      if PutArtifact(st, id, stage, name, format, content).1.Ok? {
        PutOk(st.active[Validate(id).value], stage, name, format, content);
      }
    case Update(id, target, who, reason, now) =>
      if UpdateState(st, id, target, who, reason, now).1.Ok? {
        var files := st.active[Validate(id).value];
        MovedOk(files, target, NextRecord(RecordOf(files).value, Validate(id).value, target, who, reason, now));
      }
    case Finalize(id, who, now) =>
      if FinalizeExperience(st, id, who, now).1.Ok? {
        FinalizedOk(Validate(id).value, id, st.active[Validate(id).value], who, now);
      }
    case Archive(id) =>
  }

  lemma {:induction false} RunOk(ops: seq<Op>)
    ensures StoreOk(Run(ops).store)
  {
    hide TaskOk;
    if ops != [] {
      RunOk(ops[..|ops| - 1]);
      StepOk(Run(ops[..|ops| - 1]).store, ops[|ops| - 1]);
    }
  }

  /** In every state of every run a listed rollback raises if and only if its target is one whose gate
      reads a document, and that document no longer approves; in particular rollbacks to
      EVIDENCE_READY, TESTSPEC_FROZEN, IMPLEMENTED and RELEASED never fail. */
  lemma RollbackFailsExactly(ops: seq<Op>, n: string, target: TaskState)
    requires n in Run(ops).store.active && RecordOf(Run(ops).store.active[n]).Some?
    requires target in Rollbacks(RecordOf(Run(ops).store.active[n]).value.state)
    ensures var files := Run(ops).store.active[n];
            && (TransitionAllowed(files, RecordOf(files).value.state, target)
                <==> !ReadsContents(target) || GateOpen(files, target))
            && (TransitionAllowed(files, RecordOf(files).value.state, target)
                <==> && (target == DESIGN_APPROVED ==>
                           ReviewApproves(files, Slot(Design, DesignReviewJson), Slot(Design, DesignReviewMd)))
                     && (target == VALIDATED ==>
                           Slot(Validation, ValidationReportJson) in files
                           && files[Slot(Validation, ValidationReportJson)] == ReportDoc(true)))
            && Present(files, target)
  {
    hide *;
    RunOk(ops);
    ActiveOk(Run(ops).store, n);
    RollbackExactly(Run(ops).store.active[n], target);
    RollbackOpens(Run(ops).store.active[n], RecordOf(Run(ops).store.active[n]).value.state, target);
  }

  /** Of the gates a listed rollback can meet, two look into a document. */
  lemma RollbackOpens(files: Files, current: TaskState, target: TaskState)
    requires target in Rollbacks(current) && Present(files, target)
    ensures !ReadsContents(target) || GateOpen(files, target)
            <==> && (target == DESIGN_APPROVED ==>
                       ReviewApproves(files, Slot(Design, DesignReviewJson), Slot(Design, DesignReviewMd)))
                 && (target == VALIDATED ==>
                       Slot(Validation, ValidationReportJson) in files
                       && files[Slot(Validation, ValidationReportJson)] == ReportDoc(true))
  {
    GateExactly(files, target);
    RollbacksExactly(current, target);
    hide ReviewApproves, GateOpen;
  }

  lemma ActiveOk(st: Store, n: string)
    requires StoreOk(st) && n in st.active
    ensures TaskOk(st.active[n])
  {
  }

  lemma RollbackExactly(files: Files, target: TaskState)
    requires TaskOk(files) && RecordOf(files).Some? && target in Rollbacks(RecordOf(files).value.state)
    ensures TransitionAllowed(files, RecordOf(files).value.state, target)
            <==> !ReadsContents(target) || GateOpen(files, target)
    ensures Present(files, target)
  {
    GateNeedsPresence(files, target);
    RollbacksFall(RecordOf(files).value.state, target);
    hide GateOpen, Present, DocsConform, MarkerOk, Rollbacks;
  }

  lemma RollbacksFall(s: TaskState, t: TaskState)
    requires t in Rollbacks(s)
    ensures Rank(t) < Rank(s)
  {
  }

  // ---------------------------------------------------------------- the ledger replays to the state

  /** What one event does to a replayed state. */
  function ReplayEvent(before: Option<TaskState>, e: TaskEvent): Option<TaskState> {
    match e
    case TaskCreated => Some(NEW)
    case StateTransitioned(_, target) => Some(target)
    case WritebackFinalized(_) => if before == Some(RELEASED) then Some(WRITTEN_BACK) else before
    case TaskArchived => None
    case _ => before
  }

  /** The state an event history leaves a task in; None when there is no active task. */
  function Replay(events: seq<TaskEvent>): Option<TaskState> {
    if events == [] then None else ReplayEvent(Replay(events[..|events| - 1]), events[|events| - 1])
  }

  predicate Told(w: World, n: string) {
    Replay(History(w.ledger, n)) == StateOf(w.store, n)
  }

  ghost predicate Replayed(w: World) {
    forall n :: Told(w, n)
  }

  /** The operation changes the state of the task it names. */
  predicate ChangesState(st: Store, op: Op) {
    match op
    case Create(_, _, _) => StoreAnswer(st, op).Ok?
    case Put(_, _, _, _, _) => false
    case Update(_, _, _, _, _) => StoreAnswer(st, op).Ok?
    case Finalize(id, _, _) => StoreAnswer(st, op).Ok? && GetState(st, id) == Ok(RELEASED)
    case Archive(_) => StoreAnswer(st, op).Ok?
  }

  function NewState(op: Op): Option<TaskState> {
    match op
    case Create(_, _, _) => Some(NEW)
    case Update(_, target, _, _, _) => Some(target)
    case Finalize(_, _, _) => Some(WRITTEN_BACK)
    case _ => None
  }

  lemma StateEffect(st: Store, op: Op, n: string)
    requires StoreOk(st)
    ensures StateOf(StoreStep(st, op), n) ==
            if ChangesState(st, op) && Validate(op.id) == Some(n) then NewState(op) else StateOf(st, n)
    ensures ChangesState(st, op) && Validate(op.id) == Some(n) ==> NewState(op) != StateOf(st, n)
  {
    hide ContentAccepted, Conforms, IsIdentifier, GateOpen, UpTo, DocsConform, MarkerOk;
    if Validate(op.id) == Some(n) && n in st.active {
      ActiveOk(st, n);
    }
    if op.Put? && Writable(op.stage, op.name) {
      assert Slot(op.stage, op.name) != STATE_SLOT;
    }
  }

  lemma EventFiling(st: Store, op: Op)
    requires EventOf(st, op).Some?
    ensures Validate(EventOf(st, op).value.0).Some?
    ensures op.Create? ==> !EndsInSpace(EventOf(st, op).value.0)
    ensures !op.Create? ==> EventOf(st, op).value.0 == op.id
    ensures ChangesState(st, op) ==> Validate(EventOf(st, op).value.0) == Validate(op.id)
  {
    hide ContentAccepted, Conforms, GateOpen, Rollbacks, Writable, TransitionAllowed, IsIdentifier, Trim, Finalized;
    if op.Create? {
      AuditIdAccepted(op.id);
      var audit := Validate(op.id).GetOr(UNKNOWN_TASK);
      LedgerFileExact(audit);
    }
  }

  lemma StepHistory(w: World, op: Op, n: string)
    ensures var entry := EventOf(w.store, op);
            History(Step(w, op).ledger, n) == History(w.ledger, n) +
              if entry.Some? && !EndsInSpace(entry.value.0) && Validate(entry.value.0) == Some(n)
              then [entry.value.1] else []
  {
    hide EventOf, StoreStep, Append, History, IsIdentifier;
    var entry := EventOf(w.store, op);
    if entry.Some? {
      EventFiling(w.store, op);
      AppendHistory(w.ledger, entry.value.0, entry.value.1, n);
    }
    assert History(w.ledger, n) + [] == History(w.ledger, n);
  }

  lemma ReplayAppend(events: seq<TaskEvent>, e: TaskEvent)
    ensures Replay(events + [e]) == ReplayEvent(Replay(events), e)
  {
    assert (events + [e])[..|events|] == events;
  }

  /** What the filed event and the state change are, operation by operation. */
  lemma EventKind(st: Store, op: Op, n: string)
    requires EventOf(st, op).Some?
    ensures var e := EventOf(st, op).value.1;
            && (ChangesState(st, op) ==>
                  match op
                  case Create(_, _, _) => e.TaskCreated?
                  case Update(_, target, _, _, _) => e.StateTransitioned? && e.target == target
                  case Finalize(_, _, _) => e.WritebackFinalized? && GetState(st, op.id) == Ok(RELEASED)
                  case _ => e.TaskArchived?)
            && (!ChangesState(st, op) ==>
                  !e.TaskCreated? && !e.StateTransitioned? && !e.TaskArchived?
                  && (e.WritebackFinalized? ==> op.Finalize? && GetState(st, op.id) != Ok(RELEASED)))
  {
    hide CreateTask, PutArtifact, UpdateState, GetState, ArchiveTask, FinalizeExperience;
  }

  lemma ChangeIsFiled(st: Store, op: Op)
    ensures ChangesState(st, op) ==> EventOf(st, op).Some?
  {
    hide CreateTask, PutArtifact, ArchiveTask, FinalizeExperience, TransitionAllowed, IsIdentifier, Trim;
  }

  /** The event an operation files says exactly what it did to the state. */
  lemma EventSays(st: Store, op: Op, n: string)
    requires StoreOk(st)
    ensures EventOf(st, op).Some? && Validate(EventOf(st, op).value.0) == Some(n) ==>
              ReplayEvent(StateOf(st, n), EventOf(st, op).value.1) == StateOf(StoreStep(st, op), n)
    ensures ChangesState(st, op) ==> EventOf(st, op).Some?
  {
    hide EventOf, ChangesState, StoreOk, StoreStep, IsIdentifier, Trim, RecordOf;
    ChangeIsFiled(st, op);
    StateEffect(st, op, n);
    if EventOf(st, op).Some? {
      EventFiling(st, op);
      EventKind(st, op, n);
    }
  }

  /** A caller that changes a task's state while spelling its id with trailing whitespace is answered
      with an error, and the change is in no ledger. */
  predicate Untold(st: Store, op: Op) {
    ChangesState(st, op) && !op.Create? && EndsInSpace(op.id)
  }

  lemma StepReplaysAt(w: World, op: Op, n: string)
    requires StoreOk(w.store) && Told(w, n)
    ensures Told(Step(w, op), n) <==> !(Untold(w.store, op) && Validate(op.id) == Some(n))
  {
    hide EventOf, StoreStep, History, IsIdentifier, ChangesState, StoreOk, Replay, ReplayEvent, NewState;
    StepHistory(w, op, n);
    StateEffect(w.store, op, n);
    EventSays(w.store, op, n);
    var entry := EventOf(w.store, op);
    assert History(w.ledger, n) + [] == History(w.ledger, n);
    if entry.Some? {
      EventFiling(w.store, op);
      ReplayAppend(History(w.ledger, n), entry.value.1);
    }
  }

  /** One call keeps "the ledger replays to the stored state" exactly when it is not Untold. */
  lemma StepReplaysExactly(w: World, op: Op)
    requires StoreOk(w.store) && Replayed(w)
    ensures Replayed(Step(w, op)) <==> !Untold(w.store, op)
  {
    hide StoreOk, Step, Untold;
    forall n ensures Told(Step(w, op), n) <==> !(Untold(w.store, op) && Validate(op.id) == Some(n)) {
      assert Told(w, n);
      StepReplaysAt(w, op, n);
    }
    if Untold(w.store, op) {
      UntoldNames(w.store, op);
      assert !Told(Step(w, op), Validate(op.id).value);
    }
  }

  lemma UntoldNames(st: Store, op: Op)
    requires Untold(st, op)
    ensures Validate(op.id).Some?
  {
    hide ContentAccepted, Conforms, GateOpen, Rollbacks, Writable, TransitionAllowed, IsIdentifier, Trim, Finalized;
  }

  /** From any moment at which the events of a task replay to its state they keep doing so, unless the
      state is changed untold. */
  lemma {:induction false} RunReplaysFrom(ops: seq<Op>, k: nat, n: string)
    requires k <= |ops| && Told(Run(ops[..k]), n)
    requires forall i :: k <= i < |ops| ==> !(Untold(Stores(ops, i), ops[i]) && Validate(ops[i].id) == Some(n))
    ensures Told(Run(ops), n)
  {
    hide StoreOk, Step, Untold, Told, Validate;
    if k == |ops| {
      assert ops[..k] == ops;
    } else {
      var m := |ops| - 1;
      assert ops[..m][..k] == ops[..k];
      forall i | k <= i < m ensures !(Untold(Stores(ops[..m], i), ops[..m][i]) && Validate(ops[..m][i].id) == Some(n)) {
        StoresEarlier(ops, m, i);
      }
      RunReplaysFrom(ops[..m], k, n);
      RunOk(ops[..m]);
      StepReplaysAt(Run(ops[..m]), ops[m], n);
    }
  }

  lemma StoresEarlier(ops: seq<Op>, m: nat, i: nat)
    requires i < m <= |ops|
    ensures Stores(ops[..m], i) == Stores(ops, i) && ops[..m][i] == ops[i]
  {
    assert ops[..m][..i] == ops[..i];
  }

  /** After every run without an untold change, including re-creation after archiving, each task's events
      replay to its stored state. */
  lemma RunReplays(ops: seq<Op>)
    requires forall i :: 0 <= i < |ops| ==> !Untold(Stores(ops, i), ops[i])
    ensures Replayed(Run(ops))
  {
    hide Step, Untold, Told, Validate;
    forall n ensures Told(Run(ops), n) {
      EmptyTold(n);
      assert ops[..0] == [];
      RunReplaysFrom(ops, 0, n);
    }
  }

  /** A created, moved or archived task whose event is filed is told again, whatever was untold before. */
  lemma ToldChangeMends(w: World, op: Op, n: string)
    requires StoreOk(w.store) && ChangesState(w.store, op) && !Untold(w.store, op) && Validate(op.id) == Some(n)
    requires !op.Finalize?
    ensures Told(Step(w, op), n)
  {
    hide EventOf, StoreStep, History, IsIdentifier, ChangesState, StoreOk, Replay, NewState, Trim;
    StepHistory(w, op, n);
    StateEffect(w.store, op, n);
    ChangeIsFiled(w.store, op);
    EventFiling(w.store, op);
    EventKind(w.store, op, n);
    var entry := EventOf(w.store, op).value;
    ReplayAppend(History(w.ledger, n), entry.1);
    NewStateIs(op);
    assert !EndsInSpace(entry.0) && Validate(entry.0) == Some(n);
    assert ReplayEvent(Replay(History(w.ledger, n)), entry.1) == NewState(op);
  }

  lemma NewStateIs(op: Op)
    ensures op.Create? ==> NewState(op) == Some(NEW)
    ensures op.Update? ==> NewState(op) == Some(op.target)
    ensures op.Archive? || op.Put? ==> NewState(op) == None
  {
  }

  /** The ledger hears of a change, or of a finalization of a task that was finalized before. */
  predicate Heard(st: Store, op: Op) {
    (ChangesState(st, op) || op.Finalize?) && (op.Create? || !EndsInSpace(op.id))
  }

  lemma UnheardIsSilent(w: World, op: Op, n: string)
    requires StoreOk(w.store) && !(Heard(w.store, op) && Validate(op.id) == Some(n))
    ensures Replay(History(Step(w, op).ledger, n)) == Replay(History(w.ledger, n))
  {
    hide EventOf, StoreStep, History, IsIdentifier, ChangesState, StoreOk, Replay, NewState, Trim;
    StepHistory(w, op, n);
    assert History(w.ledger, n) + [] == History(w.ledger, n);
    var entry := EventOf(w.store, op);
    if entry.Some? {
      EventFiling(w.store, op);
      EventKind(w.store, op, n);
      ReplayAppend(History(w.ledger, n), entry.value.1);
      if !ChangesState(w.store, op) { RejectedCreation(w.store, op); }
    }
  }

  /** A creation that is refused is filed as a rejection, also under another id than its own. */
  lemma RejectedCreation(st: Store, op: Op)
    requires EventOf(st, op).Some? && !ChangesState(st, op)
    ensures var e := EventOf(st, op).value.1;
            !e.TaskCreated? && !e.StateTransitioned? && !e.TaskArchived? && (e.WritebackFinalized? ==> op.Finalize?)
  {
    hide CreateTask, PutArtifact, UpdateState, GetState, ArchiveTask, FinalizeExperience;
  }

  /** While the ledger hears nothing of a task, its events replay to the stored state at the end exactly
      when that state is what it was when they last did. */
  lemma UnheardExactly(ops: seq<Op>, k: nat, n: string)
    requires k <= |ops| && Told(Run(ops[..k]), n)
    requires forall i :: k <= i < |ops| ==> !(Heard(Stores(ops, i), ops[i]) && Validate(ops[i].id) == Some(n))
    ensures Told(Run(ops), n) <==> StateOf(Run(ops).store, n) == StateOf(Stores(ops, k), n)
  {
    hide Step, Heard, Replay, History, Validate;
    UnheardRun(ops, k, n);
  }

  lemma {:induction false} UnheardRun(ops: seq<Op>, k: nat, n: string)
    requires k <= |ops|
    requires forall i :: k <= i < |ops| ==> !(Heard(Stores(ops, i), ops[i]) && Validate(ops[i].id) == Some(n))
    ensures Replay(History(Run(ops).ledger, n)) == Replay(History(Run(ops[..k]).ledger, n))
  {
    hide StoreOk, Step, Heard, Replay, History, Validate;
    if k == |ops| {
      assert ops[..k] == ops;
    } else {
      var m := |ops| - 1;
      assert ops[..m][..k] == ops[..k];
      forall i | k <= i < m ensures !(Heard(Stores(ops[..m], i), ops[..m][i]) && Validate(ops[..m][i].id) == Some(n)) {
        StoresEarlier(ops, m, i);
      }
      UnheardRun(ops[..m], k, n);
      RunOk(ops[..m]);
      UnheardIsSilent(Run(ops[..m]), ops[m], n);
    }
  }

  lemma EmptyTold(n: string)
    ensures Told(EMPTY_WORLD, n)
  {
  }

  // ---------------------------------------------------------------- gates are passed again

  /** Where a task stands: -1 while no active task has the id. */
  function Position(st: Store, n: string): int {
    if StateOf(st, n).Some? then Rank(StateOf(st, n).value) else -1
  }

  /** The task has entered the state it is in through that state's gate, on the files it has now. */
  predicate GateHolds(st: Store, n: string) {
    n in st.active && RecordOf(st.active[n]).Some? && GateOpen(st.active[n], RecordOf(st.active[n]).value.state)
  }

  /** What one operation may do to a task: nothing, one step up through the gate, or a fall that does
      not end in NEW. */
  predicate StepShape(before: Store, after: Store, n: string) {
    var (p, q) := (Position(before, n), Position(after, n));
    || q == p
    || (q == p + 1 && GateHolds(after, n))
    || (q < p && q != 0)
  }

  /** No gate reads the state record. */
  lemma GateIgnoresState(files: Files, doc: Doc, target: TaskState)
    ensures GateOpen(files[STATE_SLOT := doc], target) <==> GateOpen(files, target)
  {
  }

  lemma UpdateShape(st: Store, n: string, files: Files, target: TaskState, record: StateRecord)
    requires n in st.active && st.active[n] == files && RecordOf(files).Some? && record.state == target
    requires TransitionAllowed(files, RecordOf(files).value.state, target)
    ensures StepShape(st, st.(active := st.active[n := files[STATE_SLOT := StateDoc(record)]]), n)
  {
    GateIgnoresState(files, StateDoc(record), target);
    EdgesClimbByOne(files, RecordOf(files).value.state, target);
    hide GateOpen, NextState, Rollbacks;
  }

  lemma FinalizeShape(st: Store, n: string, id: string, files: Files, who: string, now: string)
    requires n in st.active && st.active[n] == files && RecordOf(files).Some? && PACKET_SLOT in files
    ensures var done := Finalized(n, id, files, RecordOf(files).value.state, who, now);
            StepShape(st, st.(active := st.active[n := done]), n)
  {
    hide NextState, Rollbacks;
  }

  lemma StepHasShape(st: Store, op: Op, n: string)
    requires StoreOk(st)
    ensures StepShape(st, StoreStep(st, op), n)
  {
    StateEffect(st, op, n);
    if ChangesState(st, op) && Validate(op.id) == Some(n) {
      match op {
        case Update(id, target, who, reason, now) =>
          var files := st.active[n];
          UpdateShape(st, n, files, target, NextRecord(RecordOf(files).value, n, target, who, reason, now));
        case Finalize(id, who, now) =>
          FinalizeShape(st, n, id, st.active[n], who, now);
        case Create(id, brief, now) =>
        case _ =>
      }
    }
    hide GateOpen, Conforms, UpTo, DocsConform, MarkerOk, IsIdentifier;
  }

  /** The stores of a run, before each operation and after the last. */
  function Stores(ops: seq<Op>, k: nat): Store
    requires k <= |ops|
  {
    Run(ops[..k]).store
  }

  /** Entering state `rank` at moment m: from the state below, through the gate. */
  predicate Enters(ops: seq<Op>, n: string, m: nat, rank: int) {
    && 1 <= m <= |ops|
    && Position(Stores(ops, m - 1), n) == rank - 1
    && Position(Stores(ops, m), n) == rank
    && GateHolds(Stores(ops, m), n)
  }

  lemma RunStepShape(ops: seq<Op>, n: string, m: nat)
    requires 1 <= m <= |ops|
    ensures StepShape(Stores(ops, m - 1), Stores(ops, m), n)
  {
    hide StepShape, StoreOk, StoreStep;
    RunOk(ops[..m - 1]);
    assert ops[..m][..m - 1] == ops[..m - 1];
    StepHasShape(Run(ops[..m - 1]).store, ops[m - 1], n);
  }

  /** Between a moment at or below `low` and a later one at or above `high`, the task enters every state
      from low+1 to high, in that order, each time through that state's gate as the files then are. */
  lemma {:induction false} GatesPassedInOrder(ops: seq<Op>, n: string, a: nat, b: nat, low: int, high: int)
    returns (moments: seq<nat>)
    requires a <= b <= |ops| && low < high
    requires Position(Stores(ops, a), n) <= low && high <= Position(Stores(ops, b), n)
    ensures |moments| == high - low
    ensures forall i :: 0 <= i < |moments| ==> a < moments[i] <= b && Enters(ops, n, moments[i], low + 1 + i)
    ensures forall i, j :: 0 <= i < j < |moments| ==> moments[i] < moments[j]
    decreases b
  {
    hide Position, GateHolds, Stores;
    RunStepShape(ops, n, b);
    if high <= Position(Stores(ops, b - 1), n) {
      moments := GatesPassedInOrder(ops, n, a, b - 1, low, high);
    } else {
      assert Enters(ops, n, b, high);
      if low + 1 == high {
        moments := [b];
      } else {
        var earlier := GatesPassedInOrder(ops, n, a, b - 1, low, high - 1);
        moments := earlier + [b];
      }
    }
  }

  // ---------------------------------------------------------------- finalization is written once

  /** While a task stays active, a marker that exists is the same after any operation. */
  lemma MarkerKept(st: Store, op: Op, n: string)
    requires n in st.active && MARKER_SLOT in st.active[n] && n in StoreStep(st, op).active
    ensures MARKER_SLOT in StoreStep(st, op).active[n]
    ensures StoreStep(st, op).active[n][MARKER_SLOT] == st.active[n][MARKER_SLOT]
  {
    hide ContentAccepted, Conforms, GateOpen, TransitionAllowed, IsIdentifier, Trim;
    if op.Put? && Writable(op.stage, op.name) {
      assert Slot(op.stage, op.name) != MARKER_SLOT;
    }
  }

  /** In every run a marker never changes once written, for as long as its task is active. */
  lemma {:induction false} MarkerKeptForever(ops: seq<Op>, a: nat, b: nat, n: string)
    requires a <= b <= |ops| && forall m :: a <= m <= b ==> n in Stores(ops, m).active
    requires MARKER_SLOT in Stores(ops, a).active[n]
    ensures MARKER_SLOT in Stores(ops, b).active[n]
    ensures Stores(ops, b).active[n][MARKER_SLOT] == Stores(ops, a).active[n][MARKER_SLOT]
    decreases b
  {
    hide Stores, StoreStep;
    if a < b {
      MarkerKeptForever(ops, a, b - 1, n);
      StoresStep(ops, b);
      MarkerKept(Stores(ops, b - 1), ops[b - 1], n);
    }
  }

  lemma StoresStep(ops: seq<Op>, m: nat)
    requires 1 <= m <= |ops|
    ensures Stores(ops, m) == StoreStep(Stores(ops, m - 1), ops[m - 1])
  {
    hide StoreStep;
    assert ops[..m][..m - 1] == ops[..m - 1];
  }

  /** In every run a written-back task has its marker, and every marker was written at or after
      VALIDATED. */
  lemma WrittenBackIsMarked(ops: seq<Op>, n: string)
    requires n in Run(ops).store.active
    ensures var files := Run(ops).store.active[n];
            && (StateOf(Run(ops).store, n) == Some(WRITTEN_BACK) ==> MARKER_SLOT in files)
            && (MARKER_SLOT in files ==>
                  files[MARKER_SLOT].MarkerDoc? && AtLeast(files[MARKER_SLOT].marker.stateAtFinalize, VALIDATED))
  {
    hide StoreOk, Run;
    RunOk(ops);
    ActiveOk(Run(ops).store, n);
    var files := Run(ops).store.active[n];
    if StateOf(Run(ops).store, n) == Some(WRITTEN_BACK) {
      assert Present(files, WRITTEN_BACK);
    }
  }

  /** Finalizing again, whoever does it and whenever, changes nothing and answers the same; a released
      task is written back by the first. */
  lemma FinalizeTwiceIsOnce(st: Store, id: string, who: string, now: string, other: string, later: string)
    requires FinalizeExperience(st, id, who, now).1.Ok?
    ensures var (once, r) := FinalizeExperience(st, id, who, now);
            && FinalizeExperience(once, id, other, later) == (once, r)
            && r.value.0 != RELEASED
            && (GetState(st, id) == Ok(RELEASED) ==> GetState(once, id) == Ok(WRITTEN_BACK))
  {
    hide IsIdentifier, Trim;
    var n := Validate(id).value;
    var once := FinalizeExperience(st, id, who, now).0;
    assert once.active[n := once.active[n]] == once.active;
  }

  /** The process may die between the two durable steps of a finalization: finalizing again, whoever does
      it and whenever, keeps the marker that was written and ends in the files of a finalization that was
      not interrupted, up to the clock and the name in the state record. */
  lemma FinalizeAfterDeath(st: Store, id: string, who: string, now: string, other: string, later: string)
    requires FinalizeExperience(st, id, who, now).1.Ok?
    ensures var n := Validate(id).value;
            var current := GetState(st, id).value;
            var died := st.(active := st.active[n := Marked(id, st.active[n], current, who, now)]);
            var (whole, r) := FinalizeExperience(st, id, who, now);
            var (again, r2) := FinalizeExperience(died, id, other, later);
            && GetState(died, id) == Ok(current) && r2 == r
            && again.archived == whole.archived && again.active.Keys == whole.active.Keys
            && (forall m :: m in whole.active && m != n ==> again.active[m] == whole.active[m])
            && again.active[n].Keys == whole.active[n].Keys
            && (forall slot :: slot in whole.active[n] && slot != STATE_SLOT ==>
                  again.active[n][slot] == whole.active[n][slot])
            && (who == other && now == later ==> again == whole)
  {
    hide IsIdentifier, Trim, NextRecord;
    var n := Validate(id).value;
    var current := GetState(st, id).value;
    FinalizedParts(n, id, st.active[n], current, who, now);
    var died := st.(active := st.active[n := Marked(id, st.active[n], current, who, now)]);
    FinalizedParts(n, id, died.active[n], current, other, later);
    var again := Finalized(n, id, died.active[n], current, other, later);
    assert died.active[n := again] == st.active[n := again];
  }

  // ---------------------------------------------------------------- archives

  /** No operation, also on a re-created task of the same id, touches an archived tree; archiving the
      id again, however it is spelled, is refused. */
  lemma ArchiveKept(st: Store, op: Op, n: string)
    requires n in st.archived
    ensures n in StoreStep(st, op).archived && StoreStep(st, op).archived[n] == st.archived[n]
    ensures op.Archive? && n in st.active && Validate(op.id) == Some(n) ==>
              ArchiveTask(st, op.id) == (st, Err(Conflict))
  {
    hide ContentAccepted, Conforms, GateOpen, TransitionAllowed, IsIdentifier, Trim, Finalized, Writable;
  }

  lemma {:induction false} ArchiveKeptForever(ops: seq<Op>, k: nat, n: string)
    requires k <= |ops| && n in Stores(ops, k).archived
    ensures n in Run(ops).store.archived && Run(ops).store.archived[n] == Stores(ops, k).archived[n]
  {
    hide StoreStep;
    if k == |ops| {
      assert ops[..k] == ops;
    } else {
      var m := |ops| - 1;
      assert ops[..m][..k] == ops[..k];
      ArchiveKeptForever(ops[..m], k, n);
      ArchiveKept(Run(ops[..m]).store, ops[m], n);
    }
  }

  /** The archived tree is the tree the task had; every other tree stays where and what it was. */
  lemma ArchiveMovesTree(st: Store, id: string)
    requires ArchiveTask(st, id).1.Ok?
    ensures var n := Validate(id).value;
            && n in st.active && n !in st.archived
            && var s2 := ArchiveTask(st, id).0;
            && n !in s2.active && n in s2.archived && s2.archived[n] == st.active[n]
            && s2 == st.(active := st.active - {n}, archived := st.archived[n := st.active[n]])
  {
    hide IsIdentifier;
  }
}
