/**
 The event ledger (packages/core/stores/ledger_store.py): one append-only file per task or object,
 named after the id, and the audit log, which is not keyed by id.
 */
module Ledger {
  import opened Wrappers
  import opened Identifiers

  function EventsIn<E>(files: map<string, seq<E>>, file: string): seq<E> {
    if file in files then files[file] else []
  }

  /** append_task_event and append_kb_event: refused when the id does not make a file name. */
  function Append<E>(files: map<string, seq<E>>, id: string, e: E): (map<string, seq<E>>, Result<()>) {
    match LedgerFile(id)
    case None => (files, Err(Invalid))
    case Some(file) => (files[file := EventsIn(files, file) + [e]], Ok(()))
  }

  /** The events of a normalised id. */
  function History<E>(files: map<string, seq<E>>, id: string): seq<E> {
    EventsIn(files, id + EVENTS_SUFFIX)
  }

  class LedgerStore<E> {
    var files: map<string, seq<E>>
    var audits: seq<(string, E)>

    constructor ()
      ensures files == map[] && audits == []
    {
      files, audits := map[], [];
    }

    method AppendEvent(id: string, e: E) returns (r: Result<()>)
      modifies `files
      ensures (files, r) == Append(old(files), id, e)
    {
      var file := LedgerFile(id);
      if file.None? {
        return Err(Invalid);
      }
      var lines := if file.value in files then files[file.value] else [];
      files := files[file.value := lines + [e]];
      r := Ok(());
    }

    method AppendAudit(entity: string, e: E)
      modifies `audits
      ensures audits == old(audits) + [(entity, e)]
    {
      audits := audits + [(entity, e)];
    }

    /** read_task_events and read_kb_events: an id without a file has no events yet. */
    method ReadEvents(id: string) returns (r: Result<seq<E>>)
      ensures r.Ok? <==> LedgerFile(id).Some?
      ensures r.Ok? ==> r.value == History(files, Validate(id).value)
    {
      var file := LedgerFile(id);
      if file.None? {
        return Err(Invalid);
      }
      LedgerFileExact(id);
      r := Ok(if file.value in files then files[file.value] else []);
    }
  }

  /** An append lengthens the history of its own id by one event and touches no other. */
  lemma AppendHistory<E>(files: map<string, seq<E>>, id: string, e: E, other: string)
    requires Validate(id).Some?
    ensures var (files2, r) := Append(files, id, e);
            && (r.Ok? <==> !EndsInSpace(id))
            && (r.Err? ==> files2 == files)
            && History(files2, other) ==
               if r.Ok? && other == Validate(id).value then History(files, other) + [e] else History(files, other)
  {
    LedgerFileExact(id);
    SuffixInjective(other, Validate(id).value);
  }

  lemma SuffixInjective(a: string, b: string)
    ensures a + EVENTS_SUFFIX == b + EVENTS_SUFFIX <==> a == b
  {
    if a + EVENTS_SUFFIX == b + EVENTS_SUFFIX {
      assert |a| == |b|;
      assert a == (a + EVENTS_SUFFIX)[..|a|] == (b + EVENTS_SUFFIX)[..|b|] == b;
    }
  }
}
