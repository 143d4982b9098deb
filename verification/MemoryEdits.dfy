/** What a written mutation does to the entries of its file, place by place, and what refused ones add up to. */
module MemoryEdits {
  import opened Text
  import opened MemoryEntries
  import opened MemoryStore
  import opened MemoryRuns

  // ---- Single edits ----

  /** The new text stands behind all the old entries, and was not among them. */
  predicate AddsEntry(before: seq<string>, content: string, after: seq<string>) {
    && |after| == |before| + 1
    && (forall j :: 0 <= j < |before| ==> after[j] == before[j] != after[|before|])
    && after[|before|] == SanitizeEntry(content) != ""
  }

  /** The one entry that contains the old text has made way for the new text; the others stand where they stood. */
  predicate ReplacesEntry(before: seq<string>, oldText: string, content: string, after: seq<string>) {
    && |after| == |before|
    && exists i :: 0 <= i < |before| && Contains(before[i], oldText) && after[i] == SanitizeEntry(content) &&
         forall j :: 0 <= j < |before| && j != i ==> !Contains(before[j], oldText) && after[j] == before[j]
  }

  /** The one entry that contains the old text is gone; the others stay in their order. */
  predicate RemovesEntry(before: seq<string>, oldText: string, after: seq<string>) {
    && |after| == |before| - 1
    && exists i :: 0 <= i < |before| && Contains(before[i], oldText) &&
         forall j :: 0 <= j < |before| && j != i ==>
           !Contains(before[j], oldText) && after[if j < i then j else j - 1] == before[j]
  }

  predicate Edits(before: seq<string>, mutation: Mutation, after: seq<string>)
    requires !mutation.Batch?
  {
    match mutation
    case Add(content) => AddsEntry(before, content, after)
    case Replace(oldText, content) => ReplacesEntry(before, oldText, content, after)
    case Remove(oldText) => RemovesEntry(before, oldText, after)
  }

  lemma AddIff(before: seq<string>, content: string, after: seq<string>)
    ensures FreeAdd(before, content) == Write(after) <==> AddsEntry(before, content, after)
  {
    hide SanitizeEntry;
    var entry := SanitizeEntry(content);
    if AddsEntry(before, content, after) {
      assert after == before + [entry];
    }
  }

  lemma ReplaceIff(before: seq<string>, oldText: string, content: string, after: seq<string>)
    ensures FreeReplace(before, oldText, content) == Write(after) <==> ReplacesEntry(before, oldText, content, after)
  {
    hide SanitizeEntry, Contains, UniqueMatch;
    var found := UniqueMatch(before, oldText);
    if found.Some? {
      var next := before[found.value := SanitizeEntry(content)];
      assert Contains(before[found.value], oldText) && next[found.value] == SanitizeEntry(content);
      assert ReplacesEntry(before, oldText, content, next);
    }
    if ReplacesEntry(before, oldText, content, after) {
      var i :| 0 <= i < |before| && Contains(before[i], oldText) && after[i] == SanitizeEntry(content) &&
        forall j :: 0 <= j < |before| && j != i ==> !Contains(before[j], oldText) && after[j] == before[j];
      assert IsOnlyMatch(before, oldText, i);
      assert found == Some(i);
      assert after == before[i := SanitizeEntry(content)];
    }
  }

  lemma RemoveIff(before: seq<string>, oldText: string, after: seq<string>)
    ensures FreeRemove(before, oldText) == Write(after) <==> RemovesEntry(before, oldText, after)
  {
    hide Contains, UniqueMatch;
    var found := UniqueMatch(before, oldText);
    if found.Some? { Removing(before, oldText, found.value); }
    if RemovesEntry(before, oldText, after) {
      var i :| 0 <= i < |before| && Contains(before[i], oldText) &&
        forall j :: 0 <= j < |before| && j != i ==>
          !Contains(before[j], oldText) && after[if j < i then j else j - 1] == before[j];
      assert IsOnlyMatch(before, oldText, i);
      assert found == Some(i);
      Removed(before, after, i);
    }
  }

  lemma Removing(before: seq<string>, oldText: string, i: nat)
    requires IsOnlyMatch(before, oldText, i)
    ensures RemovesEntry(before, oldText, before[..i] + before[i + 1..])
  {
    hide Contains;
    var rest := before[..i] + before[i + 1..];
    assert Contains(before[i], oldText);
    forall j | 0 <= j < |before| && j != i ensures rest[if j < i then j else j - 1] == before[j] {}
  }

  lemma Removed(before: seq<string>, after: seq<string>, i: nat)
    requires i < |before| && |after| == |before| - 1
    requires forall j :: 0 <= j < |before| && j != i ==> after[if j < i then j else j - 1] == before[j]
    ensures after == before[..i] + before[i + 1..]
  {
    var rest := before[..i] + before[i + 1..];
    forall k | 0 <= k < |after| ensures after[k] == rest[k] {
      var j := if k < i then k else k + 1;
      assert after[if j < i then j else j - 1] == before[j];
    }
  }

  lemma EditIff(before: seq<string>, mutation: Mutation, after: seq<string>)
    requires !mutation.Batch?
    ensures FreePlan(before, mutation) == Write(after) <==> Edits(before, mutation, after)
  {
    hide FreeAdd, FreeReplace, FreeRemove, AddsEntry, ReplacesEntry, RemovesEntry;
    match mutation
    case Add(content) => AddIff(before, content, after);
    case Replace(oldText, content) => ReplaceIff(before, oldText, content, after);
    case Remove(oldText) => RemoveIff(before, oldText, after);
  }

  predicate FitsFile(target: Target, entries: seq<string>) {
    |SerializeEntries(entries)| <= if target.MemoryFile? then 2200 else 1375
  }

  /** A mutation is written exactly when the file has not drifted and the edit it asks for exists and, unless it
      is a removal, fits the file; the entries afterwards are then the edited ones. */
  lemma WrittenIff(store: StoreView, disk: DiskView, target: Target, mutation: Mutation, after: seq<string>)
    requires !mutation.Batch?
    ensures Written(store, disk, target, mutation) &&
            SlotOf(Apply(store, disk, target, mutation).store, target).entries == after <==>
            && Revision(FileOf(disk, target)) == SlotOf(store, target).revision
            && Edits(SlotOf(store, target).entries, mutation, after)
            && (mutation.Remove? || FitsFile(target, after))
  {
    var before := SlotOf(store, target).entries;
    EditIff(before, mutation, after);
    PlannedIff(store, disk, target, mutation);
    if Written(store, disk, target, mutation) { WrittenEntries(store, disk, target, mutation); }
    hide FreePlan, Edits, SerializeEntries, Written, Apply;
  }

  lemma PlannedIff(store: StoreView, disk: DiskView, target: Target, mutation: Mutation)
    ensures Written(store, disk, target, mutation) <==>
            && Revision(FileOf(disk, target)) == SlotOf(store, target).revision
            && FreePlan(SlotOf(store, target).entries, mutation).Write?
            && (mutation.Remove? || FitsFile(target, FreePlan(SlotOf(store, target).entries, mutation).entries))
  {
    hide FreePlan, SerializeEntries;
  }

  // ---- Batches ----

  /** One operation of a batch: an edit, or the addition of an entry that is there already. */
  predicate OperationEdits(before: seq<string>, operation: Operation, after: seq<string>) {
    || (operation.action == "add" &&
        var content := OrEmpty(operation.content);
        AddsEntry(before, content, after) ||
        (after == before && SanitizeEntry(content) != "" && SanitizeEntry(content) in before))
    || (operation.action == "replace" && ReplacesEntry(before, OrEmpty(operation.oldText), OrEmpty(operation.content), after))
    || (operation.action == "remove" && RemovesEntry(before, OrEmpty(operation.oldText), after))
  }

  /** The lists on the way from the first to the last. */
  predicate IsWay(lists: seq<seq<string>>, operations: seq<Operation>) {
    && |lists| == |operations| + 1
    && forall k :: 0 <= k < |operations| ==> OperationEdits(lists[k], operations[k], lists[k + 1])
  }

  lemma ActionsDiffer()
    ensures "add" != "replace" && "add" != "remove" && "replace" != "remove"
  {
    assert |"add"| == 3 && |"replace"| == 7 && |"remove"| == 6;
  }

  lemma DuplicateIff(before: seq<string>, content: string)
    ensures FreeAdd(before, content).Refuse? && FreeAdd(before, content).message == DuplicateEntry <==>
            SanitizeEntry(content) != "" && SanitizeEntry(content) in before
  {
    hide SanitizeEntry;
  }

  lemma OperationIff(before: seq<string>, operation: Operation, after: seq<string>)
    ensures BatchStep(before, operation) == Going(after) <==> OperationEdits(before, operation, after)
  {
    hide SanitizeEntry, UniqueMatch, BatchStep, FreeAdd, AddsEntry, ReplacesEntry, RemovesEntry;
    ActionsDiffer();
    StepIsPossible(before, operation);
    DuplicateIff(before, OrEmpty(operation.content));
    AddIff(before, OrEmpty(operation.content), after);
    ReplaceIff(before, OrEmpty(operation.oldText), OrEmpty(operation.content), after);
    RemoveIff(before, OrEmpty(operation.oldText), after);
  }

  lemma {:induction false} GoingGivesWay(before: seq<string>, operations: seq<Operation>) returns (lists: seq<seq<string>>)
    requires BatchFrom(before, operations).Going?
    ensures IsWay(lists, operations) && lists[0] == before && lists[|operations|] == BatchFrom(before, operations).entries
    decreases |operations|
  {
    hide OperationEdits, BatchStep;
    if operations == [] {
      lists := [before];
    } else {
      var next := BatchStep(before, operations[0]).entries;
      OperationIff(before, operations[0], next);
      var rest := GoingGivesWay(next, operations[1..]);
      lists := [before] + rest;
      forall k | 0 <= k < |operations| ensures OperationEdits(lists[k], operations[k], lists[k + 1]) {
        if k > 0 { assert OperationEdits(rest[k - 1], operations[1..][k - 1], rest[k - 1 + 1]); }
      }
    }
  }

  lemma {:induction false} WayGivesGoing(lists: seq<seq<string>>, operations: seq<Operation>)
    requires IsWay(lists, operations)
    ensures BatchFrom(lists[0], operations) == Going(lists[|operations|])
    decreases |operations|
  {
    hide OperationEdits, BatchStep;
    if operations != [] {
      OperationIff(lists[0], operations[0], lists[1]);
      forall k | 0 <= k < |operations| - 1
        ensures OperationEdits(lists[1..][k], operations[1..][k], lists[1..][k + 1])
      {
        assert OperationEdits(lists[k + 1], operations[k + 1], lists[k + 1 + 1]);
      }
      WayGivesGoing(lists[1..], operations[1..]);
    }
  }

  ghost predicate Leads(before: seq<string>, operations: seq<Operation>, after: seq<string>) {
    exists lists: seq<seq<string>> ::
      |lists| == |operations| + 1 && IsWay(lists, operations) && lists[0] == before && lists[|operations|] == after
  }

  lemma LeadsIff(before: seq<string>, operations: seq<Operation>, after: seq<string>)
    ensures BatchFrom(before, operations) == Going(after) <==> Leads(before, operations, after)
  {
    hide BatchFrom, OperationEdits;
    if BatchFrom(before, operations) == Going(after) {
      var lists := GoingGivesWay(before, operations);
    }
    if Leads(before, operations, after) {
      var lists: seq<seq<string>> :|
        |lists| == |operations| + 1 && IsWay(lists, operations) && lists[0] == before && lists[|operations|] == after;
      WayGivesGoing(lists, operations);
    }
  }

  /** A batch is written exactly when the file has not drifted, there is something to do, and its operations lead,
      edit by edit, from the old entries to a list that fits the file; that list are the entries afterwards. */
  lemma WrittenBatchIff(store: StoreView, disk: DiskView, target: Target, operations: seq<Operation>, after: seq<string>)
    ensures var batch := Batch(operations);
            Written(store, disk, target, batch) && SlotOf(Apply(store, disk, target, batch).store, target).entries == after <==>
            && Revision(FileOf(disk, target)) == SlotOf(store, target).revision && operations != []
            && Leads(SlotOf(store, target).entries, operations, after) && FitsFile(target, after)
  {
    var before, batch := SlotOf(store, target).entries, Batch(operations);
    LeadsIff(before, operations, after);
    PlannedIff(store, disk, target, batch);
    if Written(store, disk, target, batch) { WrittenEntries(store, disk, target, batch); }
    hide BatchFrom, Leads, SerializeEntries, Written, Apply;
  }

  // ---- Writes that are too long ----

  datatype Job = Job(target: Target, mutation: Mutation)

  /** The edit exists, and its result does not fit. */
  predicate IsTooLong(store: StoreView, job: Job) {
    var plan := FreePlan(SlotOf(store, job.target).entries, job.mutation);
    plan.Write? && !job.mutation.Remove? && !FitsFile(job.target, plan.entries)
  }

  function AfterAll(store: StoreView, disk: DiskView, jobs: seq<Job>): (StoreView, DiskView)
    decreases |jobs|
  {
    if jobs == [] then (store, disk)
    else
      var out := Apply(store, disk, jobs[0].target, jobs[0].mutation);
      AfterAll(out.store, out.disk, jobs[1..])
  }

  /** It is told so and shown its entries, or to give up. */
  function TooLongResult(entries: seq<string>, giveUp: bool): MemoryResult {
    MemoryResult(false, giveUp, if giveUp then SaveSkipped else LimitExceeded, |entries|, if giveUp then [] else entries, None)
  }

  lemma TooLongStep(store: StoreView, disk: DiskView, job: Job)
    requires IsTooLong(store, job)
    ensures var out := Apply(store, disk, job.target, job.mutation);
            && out.store == store.(failures := out.store.failures) && out.disk == disk
            && out.store.failures == (if store.failures < 0xFFFF_FFFF then store.failures + 1 else store.failures)
            && out.result == TooLongResult(SlotOf(store, job.target).entries, store.failures >= 3)
  {
    hide FreePlan, SerializeEntries;
  }

  lemma {:induction false} TooLongSteps(store: StoreView, disk: DiskView, jobs: seq<Job>)
    requires forall i :: 0 <= i < |jobs| ==> IsTooLong(store, jobs[i])
    requires store.failures <= 0xFFFF_FFFF
    ensures var (last, file) := AfterAll(store, disk, jobs);
            && last == store.(failures := last.failures) && file == disk
            && last.failures == (if store.failures + |jobs| <= 0xFFFF_FFFF then store.failures + |jobs| else 0xFFFF_FFFF)
    decreases |jobs|
  {
    hide Apply, IsTooLong;
    if jobs != [] {
      var out := Apply(store, disk, jobs[0].target, jobs[0].mutation);
      TooLongStep(store, disk, jobs[0]);
      forall i | 0 <= i < |jobs| - 1 ensures IsTooLong(out.store, jobs[1..][i]) {
        SameEntries(store, out.store, jobs[i + 1]);
      }
      TooLongSteps(out.store, out.disk, jobs[1..]);
    }
  }

  lemma SameEntries(store: StoreView, other: StoreView, job: Job)
    requires other == store.(failures := other.failures)
    ensures IsTooLong(other, job) == IsTooLong(store, job)
    ensures SlotOf(other, job.target) == SlotOf(store, job.target)
  {
    hide FreePlan, SerializeEntries;
  }

  /** Since the last success or reset, edits that are too long change nothing, and only the fourth in a row and
      those after it are told to give up. */
  lemma TooLongInARow(store: StoreView, disk: DiskView, jobs: seq<Job>, job: Job)
    requires store.failures == 0 && IsTooLong(store, job)
    requires forall i :: 0 <= i < |jobs| ==> IsTooLong(store, jobs[i])
    ensures var (last, file) := AfterAll(store, disk, jobs);
            var out := Apply(last, file, job.target, job.mutation);
            && out.store.memory == store.memory && out.store.user == store.user && out.disk == disk
            && out.result == TooLongResult(SlotOf(store, job.target).entries, |jobs| >= 3)
  {
    hide Apply, IsTooLong, AfterAll;
    TooLongSteps(store, disk, jobs);
    var (last, file) := AfterAll(store, disk, jobs);
    SameEntries(store, last, job);
    TooLongStep(last, file, job);
  }

  /** Success starts the count afresh; nothing else but an edit that is too long touches it. */
  lemma FailuresIff(store: StoreView, disk: DiskView, job: Job)
    ensures var out := Apply(store, disk, job.target, job.mutation);
            && (out.result.success ==> out.store.failures == 0)
            && (!out.result.success && !IsTooLong(store, job) ==> out.store.failures == store.failures)
  {
    EditIsNotTooLong(SlotOf(store, job.target).entries, job.mutation);
    hide FreePlan, SerializeEntries;
  }

  lemma EditIsNotTooLong(entries: seq<string>, mutation: Mutation)
    ensures !FreePlan(entries, mutation).TooLong?
  {
    hide SanitizeEntry, BatchFrom;
  }

  // ---- What is reported ----

  /** Each refusal of a single mutation has its own cause, and the report counts the entries as they are then. */
  lemma ReportIff(store: StoreView, disk: DiskView, target: Target, mutation: Mutation)
    requires !mutation.Batch?
    ensures var out, entries := Apply(store, disk, target, mutation), SlotOf(store, target).entries;
            && (out.result.message == EmptyEntry <==> mutation.Add? && SanitizeEntry(mutation.content) == "")
            && (out.result.message == DuplicateEntry <==>
                  mutation.Add? && SanitizeEntry(mutation.content) != "" && SanitizeEntry(mutation.content) in entries)
            && (out.result.message == NoUniqueMatch <==>
                  !mutation.Add? && !exists i :: IsOnlyMatch(entries, mutation.oldText, i))
            && (out.result.message in {LimitExceeded, SaveSkipped} <==> IsTooLong(store, Job(target, mutation)))
            && (out.result.message == DriftDetected <==> out.disk.backups != disk.backups)
            && out.result.currentEntries ==
               (if out.result.message in {DuplicateEntry, NoUniqueMatch, LimitExceeded} then entries else [])
  {
    hide SanitizeEntry, SerializeEntries, UniqueMatch, IsOnlyMatch;
  }

  /** A batch is refused for the first operation that is not possible, or because there is none or the result is too
      long; the entries are shown unless there is nothing to do. */
  lemma BatchReportIff(store: StoreView, disk: DiskView, target: Target, operations: seq<Operation>)
    ensures var out, entries := Apply(store, disk, target, Batch(operations)), SlotOf(store, target).entries;
            var refused := operations != [] && !exists after :: Leads(entries, operations, after);
            && (out.result.message == EmptyBatch <==> operations == [])
            && (out.result.message in {EmptyEntry, NoUniqueMatch, UnsupportedAction} <==> refused)
            && (out.result.message in {LimitExceeded, SaveSkipped} <==> IsTooLong(store, Job(target, Batch(operations))))
            && out.result.currentEntries == (if refused || out.result.message == LimitExceeded then entries else [])
  {
    hide BatchFrom, Leads, SerializeEntries;
    var entries := SlotOf(store, target).entries;
    FailureIs(entries, operations);
    GoingIff(entries, operations);
  }

  lemma GoingIff(entries: seq<string>, operations: seq<Operation>)
    ensures BatchFrom(entries, operations).Going? <==> exists after :: Leads(entries, operations, after)
  {
    hide BatchFrom, Leads;
    var last := BatchFrom(entries, operations);
    if last.Going? { LeadsIff(entries, operations, last.entries); }
    forall after | Leads(entries, operations, after) ensures last.Going? { LeadsIff(entries, operations, after); }
  }

  lemma {:induction false} FailureIs(entries: seq<string>, operations: seq<Operation>)
    ensures var last := BatchFrom(entries, operations);
            last.Failed? ==> last.message in {EmptyEntry, NoUniqueMatch, UnsupportedAction}
    decreases |operations|
  {
    hide SanitizeEntry, UniqueMatch;
    if operations != [] && BatchStep(entries, operations[0]).Going? {
      FailureIs(BatchStep(entries, operations[0]).entries, operations[1..]);
    }
  }

  /** Whatever the mutation, its report counts the entries as they are then; only successes, drift and giving up
      are final; and a backup is named exactly if the file had drifted and was there. */
  lemma ReportIs(store: StoreView, disk: DiskView, target: Target, mutation: Mutation)
    ensures var out := Apply(store, disk, target, mutation);
            && out.result.entryCount == |SlotOf(out.store, target).entries|
            && (out.result.success <==> out.result.message in {EntryAdded, EntryReplaced, EntryRemoved, BatchApplied})
            && (out.result.done <==> out.result.success || out.result.message in {DriftDetected, SaveSkipped})
            && (out.result.backup.Some? <==> out.result.message == DriftDetected)
            && (out.result.backup.Some? ==> out.result.backup == FileOf(disk, target))
  {
    PlanMessages(SlotOf(store, target).entries, mutation);
    hide FreePlan, SerializeEntries;
  }

  lemma PlanMessages(entries: seq<string>, mutation: Mutation)
    ensures var plan := FreePlan(entries, mutation);
            plan.Refuse? ==> plan.message in {EmptyEntry, DuplicateEntry, NoUniqueMatch, EmptyBatch, UnsupportedAction}
  {
    if mutation.Batch? { FailureIs(entries, mutation.operations); }
    hide SanitizeEntry, UniqueMatch, BatchFrom;
  }
}
