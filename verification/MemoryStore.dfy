/** The file-backed memory store: every mutation is planned on the store's own entries and
    committed by a compare-and-swap on the file's revision under the file lock. Several stores
    and outside editors share the files. */
module MemoryStore {
  import opened Text
  import Decimal
  import opened MemoryEntries

  datatype Target = MemoryFile | UserFile

  function CharLimit(target: Target): nat {
    match target
    case MemoryFile => 2200
    case UserFile => 1375
  }

  predicate WithinLimit(target: Target, entries: seq<string>) {
    |SerializeEntries(entries)| <= CharLimit(target)
  }

  /** The content of a file, if there is one. */
  type File = Option<string>

  const MISSING := "<missing>"

  /** A collision-free digest is represented by the text it digests. */
  function Revision(file: File): string {
    match file
    case None => MISSING
    case Some(content) => content
  }

  datatype Slot = Slot(entries: seq<string>, revision: string)

  datatype StoreView = StoreView(memory: Slot, user: Slot, failures: nat)

  function SlotOf(store: StoreView, target: Target): Slot {
    if target.MemoryFile? then store.memory else store.user
  }

  function WithSlot(store: StoreView, target: Target, slot: Slot): StoreView {
    if target.MemoryFile? then store.(memory := slot) else store.(user := slot)
  }

  datatype DiskView = DiskView(memory: File, user: File, backups: seq<string>)

  function FileOf(disk: DiskView, target: Target): File {
    if target.MemoryFile? then disk.memory else disk.user
  }

  function WithFile(disk: DiskView, target: Target, file: File): DiskView {
    if target.MemoryFile? then disk.(memory := file) else disk.(user := file)
  }

  // ---- Planning a mutation on the entries alone ----

  datatype Message =
    | EntryAdded | EntryReplaced | EntryRemoved | BatchApplied
    | EmptyEntry | DuplicateEntry | NoUniqueMatch | EmptyBatch | UnsupportedAction
    | LimitExceeded | SaveSkipped | DriftDetected

  datatype Plan = Refuse(message: Message, showEntries: bool) | TooLong | Write(entries: seq<string>)

  function FreeAdd(entries: seq<string>, content: string): Plan {
    var entry := SanitizeEntry(content);
    if entry == "" then Refuse(EmptyEntry, false)
    else if entry in entries then Refuse(DuplicateEntry, true)
    else Write(entries + [entry])
  }

  function FreeReplace(entries: seq<string>, oldText: string, content: string): Plan {
    match UniqueMatch(entries, oldText)
    case None => Refuse(NoUniqueMatch, true)
    case Some(i) => Write(entries[i := SanitizeEntry(content)])
  }

  function FreeRemove(entries: seq<string>, oldText: string): Plan {
    match UniqueMatch(entries, oldText)
    case None => Refuse(NoUniqueMatch, true)
    case Some(i) => Write(entries[..i] + entries[i + 1..])
  }

  datatype Operation = Operation(action: string, content: Option<string>, oldText: Option<string>)

  function OrEmpty(text: Option<string>): string {
    if text.Some? then text.value else ""
  }

  datatype Batched = Going(entries: seq<string>) | Failed(message: Message)

  function BatchStep(entries: seq<string>, operation: Operation): Batched {
    if operation.action == "add" then
      var entry := SanitizeEntry(OrEmpty(operation.content));
      if entry == "" then Failed(EmptyEntry)
      else Going(if entry in entries then entries else entries + [entry])
    else if operation.action == "replace" then
      match UniqueMatch(entries, OrEmpty(operation.oldText))
      case None => Failed(NoUniqueMatch)
      case Some(i) => Going(entries[i := SanitizeEntry(OrEmpty(operation.content))])
    else if operation.action == "remove" then
      match UniqueMatch(entries, OrEmpty(operation.oldText))
      case None => Failed(NoUniqueMatch)
      case Some(i) => Going(entries[..i] + entries[i + 1..])
    else Failed(UnsupportedAction)
  }

  function BatchFrom(entries: seq<string>, operations: seq<Operation>): Batched
    decreases |operations|
  {
    if operations == [] then Going(entries)
    else
      match BatchStep(entries, operations[0])
      case Failed(message) => Failed(message)
      case Going(next) => BatchFrom(next, operations[1..])
  }

  function FreeBatch(entries: seq<string>, operations: seq<Operation>): Plan {
    if operations == [] then Refuse(EmptyBatch, false)
    else
      match BatchFrom(entries, operations)
      case Failed(message) => Refuse(message, true)
      case Going(result) => Write(result)
  }

  datatype Mutation =
    | Add(content: string)
    | Replace(oldText: string, content: string)
    | Remove(oldText: string)
    | Batch(operations: seq<Operation>)

  /** What a mutation would do to the entries if there were no limit. */
  function FreePlan(entries: seq<string>, mutation: Mutation): Plan {
    match mutation
    case Add(content) => FreeAdd(entries, content)
    case Replace(oldText, content) => FreeReplace(entries, oldText, content)
    case Remove(oldText) => FreeRemove(entries, oldText)
    case Batch(operations) => FreeBatch(entries, operations)
  }

  /** The limit is checked on the result of every mutation but a removal. */
  function PlanOf(target: Target, entries: seq<string>, mutation: Mutation): Plan {
    var plan := FreePlan(entries, mutation);
    if plan.Write? && !mutation.Remove? && !WithinLimit(target, plan.entries) then TooLong else plan
  }

  // ---- Committing ----

  datatype MemoryResult = MemoryResult(
    success: bool, done: bool, message: Message, entryCount: nat, currentEntries: seq<string>, backup: Option<string>)

  datatype Outcome = Outcome(store: StoreView, disk: DiskView, result: MemoryResult)

  const MAX_FAILURES := 3

  predicate Drifted(store: StoreView, disk: DiskView, target: Target) {
    Revision(FileOf(disk, target)) != SlotOf(store, target).revision
  }

  /** A drifted commit keeps a copy of the file it found. If it found none, it keeps nothing,
      and its caller then takes the missing copy for a completed write. */
  function Conclude(store: StoreView, disk: DiskView, target: Target, plan: Plan, ok: Message): Outcome {
    var entries := SlotOf(store, target).entries;
    match plan
    case Refuse(message, show) =>
      Outcome(store, disk, MemoryResult(false, false, message, |entries|, if show then entries else [], None))
    case TooLong =>
      var failures := if store.failures < Decimal.U32_MAX then store.failures + 1 else store.failures;
      var result := if failures > MAX_FAILURES
                    then MemoryResult(false, true, SaveSkipped, |entries|, [], None)
                    else MemoryResult(false, false, LimitExceeded, |entries|, entries, None);
      Outcome(store.(failures := failures), disk, result)
    case Write(next) =>
      if !Drifted(store, disk, target) then
        var text := SerializeEntries(next);
        Outcome(WithSlot(store, target, Slot(next, text)).(failures := 0), WithFile(disk, target, Some(text)),
                MemoryResult(true, true, ok, |next|, [], None))
      else
        match FileOf(disk, target)
        case None => Outcome(store.(failures := 0), disk, MemoryResult(true, true, ok, |entries|, [], None))
        case Some(content) =>
          Outcome(store, disk.(backups := disk.backups + [content]),
                  MemoryResult(false, true, DriftDetected, |entries|, [], Some(content)))
  }

  function OkMessage(mutation: Mutation): Message {
    match mutation
    case Add(_) => EntryAdded
    case Replace(_, _) => EntryReplaced
    case Remove(_) => EntryRemoved
    case Batch(_) => BatchApplied
  }

  function Apply(store: StoreView, disk: DiskView, target: Target, mutation: Mutation): Outcome {
    Conclude(store, disk, target, PlanOf(target, SlotOf(store, target).entries, mutation), OkMessage(mutation))
  }

  function Loaded(disk: DiskView): StoreView {
    StoreView(Slot(Deduped(ReadEntries(disk.memory)), Revision(disk.memory)),
              Slot(Deduped(ReadEntries(disk.user)), Revision(disk.user)), 0)
  }

  // ---- The store as the source keeps it ----

  class Disk {
    var memory: File
    var user: File
    var backups: seq<string>

    ghost function View(): DiskView
      reads this
    {
      DiskView(memory, user, backups)
    }
  }

  class MemoryStore {
    const disk: Disk
    /** The entries shown to the prompt: taken at load and never changed afterwards. */
    const snapshot: (seq<string>, seq<string>)
    var memoryEntries: seq<string>
    var userEntries: seq<string>
    var memoryRevision: string
    var userRevision: string
    var consolidationFailures: nat

    ghost function View(): StoreView
      reads this
    {
      StoreView(Slot(memoryEntries, memoryRevision), Slot(userEntries, userRevision), consolidationFailures)
    }

    constructor Load(disk: Disk)
      ensures this.disk == disk && View() == Loaded(disk.View())
      ensures snapshot == (memoryEntries, userEntries) && consolidationFailures == 0
    {
      var memory := Dedupe(ReadEntries(disk.memory));
      var user := Dedupe(ReadEntries(disk.user));
      this.disk := disk;
      snapshot := (memory, user);
      memoryEntries, userEntries := memory, user;
      memoryRevision, userRevision := Revision(disk.memory), Revision(disk.user);
      consolidationFailures := 0;
    }

    function Entries(target: Target): seq<string>
      reads this
    {
      if target.MemoryFile? then memoryEntries else userEntries
    }

    /** `None` means that the caller may report success. */
    method CommitEntries(target: Target, entries: seq<string>) returns (backup: Option<string>)
      modifies this, disk
      ensures Drifted(old(View()), old(disk.View()), target) ==>
                View() == old(View()) && backup == FileOf(old(disk.View()), target) &&
                disk.View() == old(disk.View()).(backups := disk.backups) &&
                disk.backups == old(disk.backups) + (if backup.Some? then [backup.value] else [])
      ensures !Drifted(old(View()), old(disk.View()), target) ==>
                var text := SerializeEntries(entries);
                backup.None? && View() == WithSlot(old(View()), target, Slot(entries, text)) &&
                disk.View() == WithFile(old(disk.View()), target, Some(text))
    {
      var file := if target.MemoryFile? then disk.memory else disk.user;
      var expected := if target.MemoryFile? then memoryRevision else userRevision;
      if Revision(file) != expected {
        if file.Some? { disk.backups := disk.backups + [file.value]; }
        return file;
      }
      var serialized := SerializeEntries(entries);
      if target.MemoryFile? {
        disk.memory := Some(serialized);
        memoryEntries, memoryRevision := entries, serialized;
      } else {
        disk.user := Some(serialized);
        userEntries, userRevision := entries, serialized;
      }
      return None;
    }

    method SuccessResult(target: Target, message: Message) returns (r: MemoryResult)
      ensures r == MemoryResult(true, true, message, |Entries(target)|, [], None)
    {
      r := MemoryResult(true, true, message, |Entries(target)|, [], None);
    }

    method ErrorResult(target: Target, message: Message, backup: Option<string>) returns (r: MemoryResult)
      ensures r == MemoryResult(false, backup.Some?, message, |Entries(target)|, [], backup)
    {
      r := MemoryResult(false, backup.Some?, message, |Entries(target)|, [], backup);
    }

    method ErrorWithEntries(target: Target, message: Message) returns (r: MemoryResult)
      ensures r == MemoryResult(false, false, message, |Entries(target)|, Entries(target), None)
    {
      r := ErrorResult(target, message, None);
      r := r.(currentEntries := Entries(target));
    }

    method ConsolidationError(target: Target) returns (r: MemoryResult)
      modifies this`consolidationFailures
      ensures forall disk: DiskView, ok: Message ::
                Conclude(old(View()), disk, target, TooLong, ok) == Outcome(View(), disk, r)
    {
      if consolidationFailures < Decimal.U32_MAX { consolidationFailures := consolidationFailures + 1; }
      if consolidationFailures > MAX_FAILURES {
        return MemoryResult(false, true, SaveSkipped, |Entries(target)|, [], None);
      }
      r := ErrorWithEntries(target, LimitExceeded);
    }

    /** The common end of every mutation: commit, then report. */
    method Finish(target: Target, entries: seq<string>, ok: Message) returns (r: MemoryResult)
      modifies this, disk
      ensures Outcome(View(), disk.View(), r) == Conclude(old(View()), old(disk.View()), target, Write(entries), ok)
    {
      var backup := CommitEntries(target, entries);
      if backup.Some? {
        r := ErrorResult(target, DriftDetected, backup);
      } else {
        consolidationFailures := 0;
        r := SuccessResult(target, ok);
      }
    }

    method AddEntry(target: Target, content: string) returns (r: MemoryResult)
      modifies this, disk
      ensures Outcome(View(), disk.View(), r) == Apply(old(View()), old(disk.View()), target, Add(content))
    {
      hide SerializeEntries, SanitizeEntry, WithinLimit, UniqueMatch;
      var entry := SanitizeEntry(content);
      if entry == "" {
        r := ErrorResult(target, EmptyEntry, None);
        return;
      }
      var entries := Entries(target);
      if entry in entries {
        r := ErrorWithEntries(target, DuplicateEntry);
        return;
      }
      entries := entries + [entry];
      if !WithinLimit(target, entries) {
        r := ConsolidationError(target);
        return;
      }
      r := Finish(target, entries, EntryAdded);
    }

    method ReplaceEntry(target: Target, oldText: string, content: string) returns (r: MemoryResult)
      modifies this, disk
      ensures Outcome(View(), disk.View(), r) == Apply(old(View()), old(disk.View()), target, Replace(oldText, content))
    {
      hide SerializeEntries, SanitizeEntry, WithinLimit, UniqueMatch;
      var entries := Entries(target);
      var index := UniqueMatch(entries, oldText);
      if index.None? {
        r := ErrorWithEntries(target, NoUniqueMatch);
        return;
      }
      entries := entries[index.value := SanitizeEntry(content)];
      if !WithinLimit(target, entries) {
        r := ConsolidationError(target);
        return;
      }
      r := Finish(target, entries, EntryReplaced);
    }

    method RemoveEntry(target: Target, oldText: string) returns (r: MemoryResult)
      modifies this, disk
      ensures Outcome(View(), disk.View(), r) == Apply(old(View()), old(disk.View()), target, Remove(oldText))
    {
      var entries := Entries(target);
      var index := UniqueMatch(entries, oldText);
      if index.None? {
        r := ErrorWithEntries(target, NoUniqueMatch);
        return;
      }
      r := Finish(target, entries[..index.value] + entries[index.value + 1..], EntryRemoved);
    }

    method ApplyBatch(target: Target, operations: seq<Operation>) returns (r: MemoryResult)
      modifies this, disk
      ensures Outcome(View(), disk.View(), r) == Apply(old(View()), old(disk.View()), target, Batch(operations))
    {
      if operations == [] {
        r := ErrorResult(target, EmptyBatch, None);
        return;
      }
      var entries := Entries(target);
      for i := 0 to |operations|
        invariant View() == old(View()) && disk.View() == old(disk.View())
        invariant BatchFrom(Entries(target), operations) == BatchFrom(entries, operations[i..])
      {
        assert operations[i..][1..] == operations[i + 1..];
        match BatchStep(entries, operations[i]) {
          case Going(next) => entries := next;
          case Failed(message) =>
            r := ErrorWithEntries(target, message);
            return;
        }
      }
      if !WithinLimit(target, entries) {
        r := ConsolidationError(target);
        return;
      }
      r := Finish(target, entries, BatchApplied);
    }
  }
}
