# Agent foundation: a verified model of its stores

A Dafny model of the durable parts of the repository, with proofs about whole runs of them.

- **Thin KB store.** JSON object files in three tiers and four type directories are the truth; a manifest
  table and a full-text table are an index derived from them. `KbModel` has payloads, migrations and
  validation, `KbSpec` says what each operation does to files and tables on *any* state, `KbContent` what it
  makes of the fields of an object, and `KbIndex` what it means for index and files to agree. `KbRuns` proves
  that runs keep them in agreement, and which one operation does not. `KbSound` says what holds of a store
  even after crashes, `KbCrash` treats crashes between the durable steps of an upsert, `KbCrashRuns` whole
  runs with crashes in them, and `KbMoves` what promotion and deprecation are for and what a second accident
  can undo. `KbSearch` is the query loop, and `KbStore` the class whose methods change files and tables one
  step at a time.
- **Event ledger and services.** `Ledger` is the append-only store of events; `KbService` and `TaskService`
  pair each store operation with its events.
- **Task workflow.** `Workflow` has the nine states, their edges and their gates, `Artifacts` the task trees
  and the store class, `Gates` what each operation asks for and writes, said of the files alone, `TaskRuns` the
  theorems about runs: gates, rollbacks, replay, finalization, archives.
- **Recovery.** `Recovery` models backup, restore and the consistency check.
- **Three smaller algorithms.** `Lines` and `Chunker` (cutting documents into chunks with line numbers),
  `FtsQuery` (the query printer and a lexer for it), `Metrics` (hit counts and mean reciprocal rank).
- `Text`, `Identifiers` and `Listing` carry Python's `strip`, the storage identifiers, and the order in which
  files are walked. `Counterexamples` has concrete inputs for the properties that do not hold as one would
  expect.

An operation is written twice: as a function on a state value, about which the theorems are, and as a method
of a class that performs the source's steps and is proved equal to that function.

Assumptions. Operations on one store are serial. A write of a file, a transaction, a rename and an append are
atomic. The KB root is resolved, so a stored path is the triple of tier, type and name. Timestamps are opaque
strings; one operation reads the clock once. Whether an index transaction goes through is a parameter, and so
are SQLite's ranking, case folding, and Python's Unicode tables for letters and upper case.

Where the code and the documentation disagree the code is followed: docs/RECOVERY_RUNBOOK.md says a restore
rebuilds the manifest from the canonical files and fails if it is still inconsistent; the code indexes all three
tiers, compares with the canonical one only, and so reports failure for every workspace that holds a candidate or
a deprecated object (`Recovery.RestoreOfStore`, `Recovery.AllCanonicalExactly`).

## Model

| member | source | states |
|---|---|---|
| KbRuns.IncrementalIsRebuilt | packages/core/storage/thin_kb_store.py:78-186 | After any run from an empty store (upserts that fail, change type or tier, promotions, deprecations, reads, rebuilds, reopenings) in which every rebuild that raises is followed by an opening, each id has one file, each file is a validated record under its own id in a tier its status fits, and a rebuild changes neither files nor manifest nor the bag of FTS rows |
| KbRuns.RunKeepsInv | packages/core/storage/thin_kb_store.py:78-193 | The invariant behind it (well-formed files, one per id, an index that is exactly the projection of the files) holds after every such run if and only if the run does not end in a rebuild that raises |
| KbRuns.RebuildKeepsInvExactly | packages/core/storage/thin_kb_store.py:267-284 | A rebuild keeps that invariant if and only if none of its transactions raises, since the rows are deleted first; a transaction can raise for exactly as many files as there are |
| KbRuns.FailedUpsertExact | packages/core/storage/thin_kb_store.py:104-117 | A failed index transaction leaves manifest and FTS alone, and leaves the files alone if and only if the target file was the row's own or did not exist |
| KbRuns.FailedUpsertIsNoop | packages/core/storage/thin_kb_store.py:104-117 | In every state of a run a failed upsert changes nothing, for a new id, the same path and a changed path alike |
| KbRuns.UpsertThenGet | packages/core/storage/thin_kb_store.py:78-120 | A successful upsert is what get returns for its id, other ids keep their objects, and a failed one has no effect |
| KbRuns.PromoteKeepsInv | packages/core/storage/thin_kb_store.py:127-152 | Promotion only applies to a candidate, leaves it readable as the returned canonical record, and is all or nothing |
| KbRuns.DeprecateKeepsInv | packages/core/storage/thin_kb_store.py:154-186 | Deprecation applies to any other tier, leaves the object readable as the returned deprecated record, and is all or nothing |
| KbRuns.CommitSyncsExactly | packages/core/storage/thin_kb_store.py:107-120 | On a store that may hold several files of an id, a completed upsert keeps index and files in agreement if and only if no leftover file of the id comes after the new one |
| KbRuns.GetIsPure | packages/core/storage/thin_kb_store.py:421-428 | Reading never writes once files are in the current schema, and reads the file the row names |
| KbRuns.RebuildIsIdentity | packages/core/storage/thin_kb_store.py:267-284 | On a store of a run rebuilding succeeds, counts the files and changes nothing but FTS order |
| KbCrash.CrashAtomic | packages/core/storage/thin_kb_store.py:104-120 | On every store that crashes and raised rebuilds can leave, with stale rows, leftover files and files without rows: the process may die after any of the three durable steps, and the next opening succeeds and is sound. It serves the new file, the old file, and the file of any other id, each if and only if that is the last file of its id (said as a condition on the store before); so an id whose row named its last file denotes the complete old or the complete new record, as stated |
| KbCrash.CrashAtomicOneFile | packages/core/storage/thin_kb_store.py:104-120 | With one file per id, stale rows allowed, the same holds of all ids after all steps; it is stated exactly when a second file is left, and when an index that agreed agrees again |
| KbCrashRuns.ReadsAreComplete | packages/core/storage/thin_kb_store.py:66-193 | After any run in which operations may fail, rebuilds may raise, and operations may die after any step with the store opened again: opening succeeds and then every file can be read, the FTS table has one row per id, get answers exactly for the ids of the manifest, and the answer is a complete record of that id that some operation of the run planned for that very file; unless a rebuild has raised since the last opening, those ids are the ids that have files |
| KbCrashRuns.LiveIsUsable | packages/core/storage/thin_kb_store.py:66-193 | The invariant behind it: rows point to files of their own id and tier, FTS ids are unique and equal to the ids of the manifest, and every file has a row for its id unless a rebuild has raised since the store was last opened or rebuilt |
| KbCrashRuns.NoTornFile | packages/core/storage/thin_kb_store.py:78-186 | Every file of such a run holds, whole, the record that one event of the run planned to write there |
| KbCrashRuns.CrashAfterOpening | packages/core/storage/thin_kb_store.py:104-120 | Crash upon crash: after any such run that ends in an opening, an upsert cut short before its unlink is old-or-new for its id and leaves every other id alone, whatever leftovers there are |
| KbSound.UpsertServes | packages/core/storage/thin_kb_store.py:78-120 | On every store of such a run a successful upsert is what its id then denotes, a failed one changes no id, no other id is affected, and the store stays usable |
| KbSound.PromoteServes | packages/core/storage/thin_kb_store.py:127-152 | The same of promotion |
| KbSound.DeprecateServes | packages/core/storage/thin_kb_store.py:154-186 | The same of deprecation |
| KbCrash.CrashedPromote | packages/core/storage/thin_kb_store.py:127-152 | A promotion cut short comes back as the candidate beside a canonical file; promoting again, by anyone at any time, succeeds and restores the invariant, also where the index did not agree before |
| KbCrash.CrashedDeprecate | packages/core/storage/thin_kb_store.py:154-186 | A deprecation cut short comes back deprecated, cannot be retried, and keeps both files |
| KbCrash.UpsertDurableExactly | packages/core/storage/thin_kb_store.py:301-306 | On every such store a completed upsert is still what the next opening serves if and only if no leftover of the id comes later in walking order |
| KbCrash.SurvivesExactly | packages/core/storage/thin_kb_store.py:22-27 | Of a move cut short the new record survives if and only if its tier comes later in canonical, candidate, deprecated, or in the same tier its type later in claim, procedure, case, decision |
| KbMoves.CompletedUpsertIsLost | packages/core/storage/thin_kb_store.py:78-120 | After a deprecation of a candidate was cut short, every completed upsert of that id into the canonical tier is lost: get returns it, but the next opening serves the old candidate; such an upsert always exists |
| KbMoves.UpsertUndoneByReopening | packages/core/storage/thin_kb_store.py:301-306 | The reopening step of that: the leftover candidate comes after the canonical file in walking order and wins the rebuild |
| KbMoves.RaisedThenUpsertIsLost | packages/core/storage/thin_kb_store.py:88-120 | After a rebuild that raised at its first file, an upsert of a candidate into the canonical tier goes through, leaves two files, and is undone by the next opening |
| KbMoves.RaisedThenFailureDeletes | packages/core/storage/thin_kb_store.py:106-117 | After such a rebuild a failed upsert into an object's own file deletes the file: the rollback takes it for one the upsert has made |
| KbMoves.PromoteExactly | packages/core/storage/thin_kb_store.py:127-152 | On every store a crash can leave promotion succeeds if and only if the id names a candidate and the index transaction goes through; the published object keeps the candidate's content, with the next revision |
| KbMoves.DeprecateExactly | packages/core/storage/thin_kb_store.py:154-186 | On every store a crash can leave deprecation succeeds if and only if the id names an object of another tier and the index transaction goes through; content is kept |
| KbIndex.RebuildSyncs | packages/core/storage/thin_kb_store.py:267-284 | Rebuilding any disk succeeds if and only if every file validates, and then each id has the row of the last file that holds it, every file is migrated and none is added or lost |
| KbIndex.RebuildConverges | packages/core/storage/thin_kb_store.py:267-306 | On any disk, also one with files that validation refuses: a rebuild stopped after any number of files, or between the migration of a file and its indexing, and restarted by the next opening ends in the same files, the same index and the same outcome as an uninterrupted one |
| KbIndex.RaisedRebuildConverges | packages/core/storage/thin_kb_store.py:267-306 | So does a rebuild that an index transaction has ended with an exception |
| KbIndex.RebuildKeepsFiles | packages/core/storage/thin_kb_store.py:267-284 | Whether or not it gets through, a rebuild adds and loses no file and at most migrates each |
| KbIndex.RebuildIdempotent | packages/core/storage/thin_kb_store.py:267-284 | Rebuilding twice is rebuilding once |
| KbIndex.RebuildKeepsSynced | packages/core/storage/thin_kb_store.py:267-284 | An index that agrees with its files survives a rebuild unchanged |
| KbIndex.SyncedUnique | packages/core/storage/thin_kb_store.py:322-372 | Two indexes that agree with the same files have equal manifests and equal bags of FTS rows |
| KbIndex.IndexFilesSyncs | packages/core/storage/thin_kb_store.py:274-283 | The state of the rebuild loop after the files so far: through them exactly when all validate, with those migrated, the rest untouched and the index their projection, and otherwise stopped at the first that is refused |
| KbIndex.WithoutThenAdd | packages/core/storage/thin_kb_store.py:324-371 | Delete-then-insert of an object's FTS row replaces its row and keeps ids unique in a table without a key |
| KbModel.ApplyMigrations | packages/core/migrations/registry.py:20-38 | The step-by-step migration sets exactly the missing keys to their defaults, and reports none applied if and only if none was missing |
| KbModel.ValidatedIsRecord | packages/core/schemas/thin_kb.py:10-70 | Validation is idempotent; its result carries the stripped id, the model's own type, a revision of at least 1 and every key of the current schema |
| KbSpec.PlanIsRecord | packages/core/storage/thin_kb_store.py:78-105 | What upsert is about to write validates, lies under its own stripped id and the type and tier asked for, and has a status its tier allows |
| KbContent.UpsertTakesPayload | packages/core/storage/thin_kb_store.py:78-120 | On every usable store a successful upsert answers, stores and indexes the caller's content, stripped field by field with the two defaults, whatever was stored: creation time from the payload, else the stored object, else now; update time now; next revision; status, reason, provenance and tier as the tier or the payload's status ask; every column of the index row is the field of the record |
| KbContent.UpsertSucceedsExactly | packages/core/storage/thin_kb_store.py:78-120 | On every usable store an upsert succeeds if and only if the id is acceptable, the type known and spelled exactly, the body has that type's required and only its allowed fields, a new object's own revision is at least 1, a named tier is one of the three, and the index transaction goes through |
| KbContent.CreateTakesPayload | packages/core/storage/thin_kb_store.py:122-125 | A creation stores the caller's content as a candidate in the candidate tier, whatever status the payload has |
| KbContent.PromoteSays | packages/core/storage/thin_kb_store.py:127-152 | A promotion sets status trusted, no reason, who, when and why and the id itself as source, and keeps every other key of the provenance |
| KbContent.DeprecateSays | packages/core/storage/thin_kb_store.py:154-186 | A deprecation sets status deprecated, the stripped reason, who and when, the successor when one is given, and keeps every other key of the provenance |
| Listing.Walk | packages/core/storage/thin_kb_store.py:446-451 | The walk lists every file once, by tier, then type directory, then file name |
| Listing.StringLessExactly | packages/core/storage/thin_kb_store.py:275-276 | The order of file names inside a directory is Python's: where two first differ, the one that ends or has the smaller character comes first |
| KbStore.ThinKBStore.Open | packages/core/storage/thin_kb_store.py:66-76 | Opening adopts the durable state and repairs the manifest when its paths differ from the files |
| KbStore.ThinKBStore.SyncObject | packages/core/storage/thin_kb_store.py:322-372 | One transaction replaces both rows of an object or changes nothing |
| KbStore.ThinKBStore.LoadObjectFromRow | packages/core/storage/thin_kb_store.py:421-428 | Reads a row's file, migrating file and rows in place when it is old, with the error cases |
| KbStore.ThinKBStore.GetObject | packages/core/storage/thin_kb_store.py:188-193 | Bad id, unknown id, missing file, or the stored object |
| KbStore.ThinKBStore.PlanObject | packages/core/storage/thin_kb_store.py:78-106 | Everything refused is refused before the first write of the new record |
| KbStore.ThinKBStore.WriteIndexUnlink | packages/core/storage/thin_kb_store.py:107-120 | Write, index, unlink, with the hand-written rollback, amounts to a commit or to the stated rollback |
| KbStore.ThinKBStore.UpsertObject | packages/core/storage/thin_kb_store.py:78-120 | The imperative upsert equals the specified one on every state |
| KbStore.ThinKBStore.CreateCandidateObject | packages/core/storage/thin_kb_store.py:122-125 | Creation is an upsert into the candidate tier with candidate status |
| KbStore.ThinKBStore.PromoteCandidate | packages/core/storage/thin_kb_store.py:127-152 | The imperative promotion equals the specified one on every state |
| KbStore.ThinKBStore.DeprecateObject | packages/core/storage/thin_kb_store.py:154-186 | The imperative deprecation equals the specified one on every state |
| KbStore.ThinKBStore.RebuildIndex | packages/core/storage/thin_kb_store.py:267-284 | The loop equals the specified rebuild, also when it stops at an invalid file or when the transaction of any chosen file raises, and counts the files |
| KbStore.ThinKBStore.RecoverManifestIfNeeded | packages/core/storage/thin_kb_store.py:301-306 | Rebuilds exactly when the two path sets differ |
| KbStore.ThinKBStore.Search | packages/core/storage/thin_kb_store.py:231-265 | The filter loop returns the first limit hits of the rows, warns about exactly the mismatched exact lookups it looked at, stops at the limit-th hit and changes nothing; a hit of another version than the one asked for is among its warnings |
| KbSearch.SearchRows | packages/core/storage/thin_kb_store.py:374-414 | Every selected row is a manifest row that passes the type, scope and status clauses |
| KbSearch.RowsDistinct | packages/core/storage/thin_kb_store.py:398-414 | The join with the FTS table repeats no object, because that table has one row per id |
| KbSearch.SearchSound | packages/core/storage/thin_kb_store.py:215-265 | No id repeats, there are at most limit hits, they are in the order of the ranking, and each hit's own file is what was asked for, field by field: type, scope, status, tags, version (or it was asked for by id or title) and a case's environment |
| KbSearch.SearchComplete | packages/core/storage/thin_kb_store.py:215-265 | What was asked for and ranked is a hit unless a limit cut it off: then there are limit hits ranked before it, or four times as many rows that pass the column filters |
| KbSearch.WarnedExactly | packages/core/storage/thin_kb_store.py:238-247 | The warnings about some rows name exactly the objects with the wanted tags, asked for by id or title, that carry another version than the one asked for |
| KbSearch.HitsWarned | packages/core/storage/thin_kb_store.py:238-262 | Over any rows, a hit that has not the requested version is in the set of warnings about those rows |
| KbSearch.SearchMonotone | packages/core/storage/thin_kb_store.py:215-265 | A larger limit only extends the list of hits |
| Text.SpaceExactly | packages/core/storage/fs_utils.py:37 | The characters that strip() removes |
| Identifiers.IdentifierExactly | packages/core/storage/fs_utils.py:36-81 | The accepted identifiers are the strings of letters, digits, dot, underscore and hyphen that are no path step and, in any case, no device name |
| Identifiers.LedgerFileExact | packages/core/stores/ledger_store.py:129-131 | The ledger accepts an id the stores accept if and only if it has no trailing whitespace, and then files it under the stripped id |
| Identifiers.LedgerFileInjective | packages/core/stores/ledger_store.py:129-131 | Two ids share a ledger file if and only if they strip to the same id |
| Identifiers.ValidateNormalises | packages/core/storage/fs_utils.py:36-81 | A normalised identifier is accepted as it stands |
| Ledger.AppendHistory | packages/core/stores/ledger_store.py:25-51 | An append lengthens the history of its own id by one event and no other; it is refused exactly for trailing whitespace |
| Ledger.LedgerStore.AppendEvent | packages/core/stores/ledger_store.py:25-51 | The append as performed on the files, with its refusal |
| Ledger.LedgerStore.ReadEvents | packages/core/stores/ledger_store.py:98-124 | Reading returns the history of the id, empty when there is no file |
| Ledger.LedgerStore.AppendAudit | packages/core/stores/ledger_store.py:53-66 | The audit log only grows at its end |
| KbService.ThinKBService.CreateCandidateObject | packages/core/services/thin_kb_service.py:23-41 | Store first, then one event under the returned id |
| KbService.ThinKBService.PromoteCandidate | packages/core/services/thin_kb_service.py:43-70 | Store first, then the event under the id as spelled, then the audit entry |
| KbService.ThinKBService.DeprecateObject | packages/core/services/thin_kb_service.py:72-115 | Store first, then one or two events, then the audit entry |
| KbService.StepConservesExactly | packages/core/services/thin_kb_service.py:23-115 | One call keeps 'revision = recorded changes, tier = last recorded' if and only if it does not change the store while spelling the id with trailing whitespace or creating a new object at a revision other than 1 |
| KbService.RunConserves | packages/core/services/thin_kb_service.py:23-115 | After every run whose creations carry no revision but 1 and whose ids have no trailing whitespace, each object's revision is its number of created, promoted and deprecated events and its tier is the one they fold to |
| KbService.PaddedPromoteBreaks | packages/core/services/thin_kb_service.py:43-70 | Whenever promoting n works, promoting n followed by a space changes the store the same way, answers with an error and leaves the ledger behind |
| KbService.RunPublishes | packages/core/services/thin_kb_service.py:23-70 | In a service-only run every canonical object is trusted and names its own id as the candidate it came from |
| KbService.UpsertReplaces | packages/core/storage/thin_kb_store.py:78-120 | A successful upsert, its tier given or inferred, replaces one row and one file, and gives the object the next revision, or the payload's own for a new id |
| Gates.UpdateSucceedsExactly | packages/core/storage/state_machine.py:46-122 | An update succeeds if and only if the task has a state, the target is the next state or a listed rollback of it, and the files let it in: which files each state needs, which review verdicts and conditions pass, JSON before markdown, and a report that says passed |
| Gates.GateExactly | packages/core/storage/state_machine.py:62-158 | Each gate, said of the files alone |
| Gates.RollbacksExactly | packages/core/storage/state_machine.py:33-40 | The exact list of rollback pairs |
| Gates.OrderExactly | packages/core/storage/state_machine.py:10-31 | The exact order of the states, and the successor in it |
| Gates.FixesDoNotCount | packages/core/storage/state_machine.py:141-158 | An implementation review approving with conditions opens its gate with required_fixes outstanding; a design review with required_changes does not |
| Workflow.EdgesClimbByOne | packages/core/storage/state_machine.py:22-59 | An allowed transition climbs by one or falls strictly, and never to NEW |
| Workflow.NextIsSuccessor | packages/core/storage/state_machine.py:10-31 | The forward edge of a state is exactly its successor in the order |
| Workflow.GateNeedsPresence | packages/core/storage/state_machine.py:62-138 | A gate implies its files exist; gates that read no document are exactly that |
| Gates.CreateSays | packages/core/storage/artifact_store.py:75-118 | When a creation succeeds, and the whole tree it makes |
| Gates.PutSucceedsExactly | packages/core/storage/artifact_store.py:177-188 | An artifact is written in any state if and only if the task is there, the file belongs to the stage and is not the service's own, and format and content are those of the file |
| Gates.PutSays | packages/core/storage/artifact_store.py:177-188 | Then it reads back as it was put, and no other file, task or state has changed |
| Gates.AllowedExactly | packages/core/storage/artifact_store.py:54-64 | Each file name belongs to exactly one stage |
| Gates.ContentExactly | packages/core/storage/artifact_store.py:30-50 | The format and the contents each file takes |
| Gates.UpdateSays | packages/core/storage/artifact_store.py:190-210 | What an update writes: who, when, why and from where, the creation time kept, no other file or task changed |
| Gates.FinalizeSucceedsExactly | packages/core/storage/artifact_store.py:212-230 | A finalization succeeds if and only if the task is validated, released or written back and has its experience packet |
| Gates.FinalizeSays | packages/core/storage/artifact_store.py:212-251 | What a finalization writes: the marker unless there is one, the state record of a released task, no other file or task |
| Artifacts.ArtifactStore.Create | packages/core/storage/artifact_store.py:75-118 | A new task appears complete in state NEW, or nothing changes |
| Artifacts.ArtifactStore.Put | packages/core/storage/artifact_store.py:177-188 | One allowed, conforming file is written in any state; internal files and bad names, formats or contents are refused |
| Artifacts.ArtifactStore.ReadState | packages/core/storage/artifact_store.py:253-255 | The stored state, or the error |
| Artifacts.ArtifactStore.Update | packages/core/storage/artifact_store.py:190-210 | The state record changes exactly when the transition is allowed on the files as they are |
| Artifacts.ArtifactStore.Finalize | packages/core/storage/artifact_store.py:212-251 | Marker first and once, then the transition of a released task, which never fails |
| Artifacts.ArtifactStore.Archive | packages/core/storage/artifact_store.py:257-273 | The tree moves to the archive unless the id is there already |
| TaskService.ArtifactService.CreateTaskCall | packages/core/services/artifact_service.py:14-37 | Store and ledger after a creation or its rejection, and the answer |
| TaskService.ArtifactService.PutArtifactCall | packages/core/services/artifact_service.py:51-74 | Store and ledger after a write, and the answer |
| TaskService.ArtifactService.UpdateStateCall | packages/core/services/artifact_service.py:76-112 | Store and ledger after a transition or its rejection, and the answer |
| TaskService.ArtifactService.FinalizeCall | packages/core/services/artifact_service.py:114-142 | Store and ledger after a finalization or its rejection, and the answer |
| TaskService.ArtifactService.ArchiveCall | packages/core/services/artifact_service.py:144-170 | Store, ledger and audit log after archiving, and the answer |
| TaskRuns.RunOk | packages/core/storage/artifact_store.py:75-251 | In every run every active task has a conforming tree with all files that the gates up to its state ask for, and a marker no older than VALIDATED |
| TaskRuns.RollbackFailsExactly | packages/core/storage/state_machine.py:33-122 | In every reachable state a listed rollback raises if and only if it goes to DESIGN_APPROVED and the design review no longer approves, or to VALIDATED and the report no longer says passed; the files it asks for are always there |
| TaskRuns.StepHasShape | packages/core/storage/artifact_store.py:75-273 | One operation leaves a task's state, takes it one step up through that state's gate, or drops it, never into NEW |
| TaskRuns.GatesPassedInOrder | packages/core/storage/state_machine.py:10-59 | Between a moment at or below one state and a later one at or above another, the task enters every state between in order, each through its gate on the files of that moment |
| TaskRuns.StepReplaysExactly | packages/core/services/artifact_service.py:14-170 | One call keeps 'the ledger replays to the stored state' if and only if it does not change a state under an id spelled with trailing whitespace |
| TaskRuns.RunReplays | packages/core/services/artifact_service.py:14-170 | After every run in which no state changes under an id spelled with trailing whitespace, each task's events replay to its stored state, including re-creation after archiving |
| TaskRuns.RunReplaysFrom | packages/core/services/artifact_service.py:14-170 | For one task, from any moment at which they do, until its state changes untold |
| TaskRuns.ToldChangeMends | packages/core/services/artifact_service.py:14-170 | A creation, transition or archiving whose event is filed makes the events of the task replay to its state again, whatever went untold before |
| TaskRuns.UnheardExactly | packages/core/services/artifact_service.py:14-170 | While the ledger hears no change and no finalization of a task, its events replay to the stored state at the end if and only if that state is what it was when they last did |
| TaskRuns.EventSays | packages/core/services/artifact_service.py:14-170 | The event an operation files does to the replayed state exactly what the operation did to the stored one |
| TaskRuns.MarkerKeptForever | packages/core/storage/artifact_store.py:212-251 | In every run a marker is the same at any later moment for as long as its task is active |
| TaskRuns.MarkerKept | packages/core/storage/artifact_store.py:177-251 | No single operation changes a marker of a task that stays active |
| TaskRuns.WrittenBackIsMarked | packages/core/storage/artifact_store.py:212-251 | WRITTEN_BACK implies the marker, and every marker records a state at or above VALIDATED |
| TaskRuns.FinalizeTwiceIsOnce | packages/core/storage/artifact_store.py:212-251 | Finalizing again changes nothing and answers the same; finalizing a released task ends in WRITTEN_BACK |
| TaskRuns.FinalizeAfterDeath | packages/core/storage/artifact_store.py:212-251 | The process may die between the marker and the transition: finalizing again keeps the marker, answers the same, and ends in the files of an uninterrupted finalization but for the clock and name in the state record |
| TaskRuns.ArchiveKept | packages/core/storage/artifact_store.py:257-273 | No operation touches an archived tree, and archiving the id again, however spelled, is refused |
| TaskRuns.ArchiveKeptForever | packages/core/storage/artifact_store.py:257-273 | From any moment of any run an archived tree stays the same to the end |
| TaskRuns.ArchiveMovesTree | packages/core/storage/artifact_store.py:257-273 | The archived tree is the one the task had, and every other tree stays where and what it was |
| Recovery.Workspace.BackupWorkspace | packages/core/storage/recovery.py:16-82 | An archive holds exactly the existing sections that were asked for, or the backup is refused |
| Recovery.Workspace.RestoreWorkspace | packages/core/storage/recovery.py:85-137 | Replace the trees, open, rebuild, compare; the error of the last check comes after everything has been replaced |
| Recovery.DetectManifestMismatch | packages/core/storage/recovery.py:140-157 | The loop compares canonical file names with the ids of every tier |
| Recovery.RestoreOfBackup | packages/core/storage/recovery.py:16-137 | For every workspace that can be backed up and any earlier content of the target: tasks, the other files of kb/ and indexes/, and every archived section the target has a root for are the saved ones, all else is the target's own, and object files are at most migrated; success is reported if and only if every file validates and the ids they hold are the names of the canonical files; when every file validates the database is the one rebuilt from them |
| Recovery.BackupSucceedsExactly | packages/core/storage/recovery.py:16-82 | A backup is refused exactly without tasks, kb/ or a database file, and otherwise holds exactly what was asked for |
| Recovery.DatabasePlaced | packages/core/storage/recovery.py:85-137 | Where the restored database is: under indexes/ when that root is given and one was there or none came with kb/, otherwise in kb/ |
| Recovery.CurrentComesBack | packages/core/storage/recovery.py:85-137 | Files in the current schema come back exactly as they were, also when the restore raises |
| Recovery.RestoreOfStore | packages/core/storage/recovery.py:16-137 | For files as the store writes them, success is reported if and only if every object has a canonical file |
| Recovery.MismatchIs | packages/core/storage/recovery.py:140-157 | On any index that agrees with its files the check compares the names of canonical files with the ids that files of any tier hold, each difference on its side |
| Recovery.AllCanonicalExactly | packages/core/storage/recovery.py:128-130 | In a store of a run the final check passes if and only if nothing is a candidate or deprecated |
| Chunker.FindLineNumber | packages/core/storage/phase2_store.py:628-635 | The first line from the cursor on that contains the part's first line, or none |
| Chunker.ChunkDocument | packages/core/storage/phase2_store.py:439-475 | One numbered chunk per part, its lines searched from the last line found; an index error exactly for a blank text with an empty title |
| Chunker.ChunksAreFaithful | packages/core/storage/phase2_store.py:448-475 | For every text that is not blank, with any line boundaries: non-blank characters kept in order, no blank line inside a chunk and one between any two, every start line found, strictly increasing and not past the true one, no end line past the text |
| Chunker.ChunksAreLabelled | packages/core/storage/phase2_store.py:453-474 | For every chunk of a text that is not blank: its number; the end line is the start line plus the line boundaries inside the chunk, and the line of its last character when the start line is the true one; the title is the first 80 characters of its first line without leading hashes, or the numbered fallback |
| Chunker.ContainsExactly | packages/core/storage/phase2_store.py:628-635 | A line contains an anchor when it is something, the anchor, and something more |
| Chunker.PartsNonBlank | packages/core/storage/phase2_store.py:448-452 | A text has parts if and only if it is not blank, so the second fallback is never taken |
| Chunker.PartsKeepText | packages/core/storage/phase2_store.py:448-448 | Splitting and stripping lose and repeat no non-blank character, on every text |
| Chunker.LastLineExists | packages/core/storage/phase2_store.py:460-460 | The last line of a part, counted from its true first line, is a line of the text |
| FtsQuery.BuildFtsQuery | packages/core/storage/thin_kb_store.py:477-496 | The loop that appends terms computes the specified query text |
| FtsQuery.SplitTakesWord | packages/core/storage/thin_kb_store.py:486-486 | Tokens are the maximal runs of non-blank characters |
| FtsQuery.PrintLexesBackExactly | packages/core/storage/thin_kb_store.py:477-500 | For a query that is not one quoted phrase, lexing the printed text gives back exactly its tokens, operators in upper case, if and only if the upper case of every operator-like token is a bareword |
| FtsQuery.IntendedExactly | packages/core/storage/thin_kb_store.py:486-496 | What each token is read back as: AND, OR, NOT and whatever begins like NEAR as a word in upper case, other barewords as they are, anything else as a phrase |
| FtsQuery.PhraseLexesBack | packages/core/storage/thin_kb_store.py:481-483 | A whole quoted phrase is read back as its inner text |
| Metrics.Mrr | packages/core/eval/metrics.py:140-144 | The reciprocal of the rank of the first expected id, or 0 |
| Metrics.AnyHit | packages/core/eval/metrics.py:26-31 | Whether an expected id is among the first k |
| Metrics.CountCases | packages/core/eval/metrics.py:13-46 | Each counter counts the cases with its property; the rank sum is that of the positive cases |
| Metrics.ComputeRetrievalMetrics | packages/core/eval/metrics.py:8-57 | The metrics are those counts over their totals, all zero for no results |
| Metrics.RateExactly | packages/core/eval/metrics.py:161-164 | A rate times its total is its count and lies between 0 and 1; a rate of nothing is 0 |
| Metrics.CountsAreBounded | packages/core/eval/metrics.py:13-46 | No counter exceeds the total it is divided by |
| Metrics.MrrSandwich | packages/core/eval/metrics.py:13-53 | Hit counters are ordered, and the reciprocal-rank sum lies between the two values they allow |
| Counterexamples.PaddedPromotion | packages/core/services/thin_kb_service.py:43-70 | A concrete store on which promoting 'x ' publishes x, answers with an error and breaks conservation |
| Counterexamples.RaisedRebuild | packages/core/storage/thin_kb_store.py:267-284 | A concrete store on which a rebuild that raises leaves a file without a row; publishing then leaves two files and is lost, a failed upsert takes the object away |
| Counterexamples.PaddedArchive | packages/core/services/artifact_service.py:144-170 | A concrete run in which archiving 't ' archives t, answers with an error and leaves no event |
| Counterexamples.CandidateBlocksRestore | packages/core/storage/recovery.py:124-130 | A concrete workspace with one candidate whose restore raises |
| Counterexamples.QuotedOperator | packages/core/storage/thin_kb_store.py:486-490 | The concrete query `near"` is printed so that it cannot be lexed |
| Counterexamples.HyphenatedOperator | packages/core/storage/thin_kb_store.py:486-490 | So is the query `near-field`, which contains no quote |

## Left out

- KbStore.ThinKBStore.Search: files older than the current schema, which every load would migrate on the way; scores and the copied fields of a hit, whose ids stand for them.
- KbSearch.SearchSound: the ranking of rows is any order SQLite may choose, so nothing is said about relevance.
- KbModel.ValidatedIsRecord: list-valued and numeric fields of the object models, values of the wrong JSON type, and date parsing; strings, required and forbidden text fields, enumerations, ids and revisions are modelled.
- KbCrash.CrashAtomic: crashes inside a restore, and between the in-place migration of an old file by a read and its re-indexing; those of a rebuild are in KbIndex.RebuildConverges.
- KbStore.ThinKBStore.LoadObjectFromRow: an index transaction that raises while a read re-indexes a file it has just migrated; files are then in the current schema and the rows old.
- KbStore.ThinKBStore.RecoverManifestIfNeeded: an index transaction that raises during the rebuild of an opening or a restore, in which the caller gets no store; KbCrashRuns has it as an opening that dies, KbStore.ThinKBStore.RebuildIndex called by itself as an error.
- FtsQuery.PrintLexesBackExactly: the lexer's barewords are made of the printer's letters, digits, _ and *; SQLite reads * as a prefix mark, and its grammar of operators, which a lexed text may still violate, is not modelled.
- Metrics.ComputeRetrievalMetrics: rounding to six digits; rates are exact reals.
- Chunker.ChunkDocument: the chunk id is its number, and source id, language, type and tags, which are copied, are left out.
- Artifacts.ArtifactStore.Put: the created_at and updated_at stamps merged into JSON artifacts, and the migration of an old state.json on read; documents are taken in the current schema.
- Workflow.GateOpen: the regular expression that finds a field in a markdown review; the two fields are given as found.
- Ledger.LedgerStore.ReadEvents: parsing of the lines; a file is its sequence of events.
- Recovery.RestoreOfBackup: the tar format, member path checks, symbolic links, and archives written inside a section they contain, except the rule that skips the backups section.
- Concurrent requests on one task or object, which the source does not lock against.
- The rest of the document store (ingestion, hybrid scores, code extraction), workflow and comparison metrics, HTTP routes, authentication, command line, observability, pipelines and the TypeScript adapter.
- `related`, `bundle_task`, `list_artifacts`, the audit reports and the replay and release events of the ledger.
