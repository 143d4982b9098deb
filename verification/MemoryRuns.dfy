/** What the memory store guarantees: about one mutation, about a batch against its operations
    done one at a time, and about every interleaving of several stores with outside editors. */
module MemoryRuns {
  import opened Text
  import opened MemoryEntries
  import opened MemoryStore

  function Other(target: Target): Target {
    if target.MemoryFile? then UserFile else MemoryFile
  }

  // ---- One mutation ----

  /** A mutation reaches the file exactly when it is planned and the file has not drifted. */
  predicate Written(store: StoreView, disk: DiskView, target: Target, mutation: Mutation) {
    PlanOf(target, SlotOf(store, target).entries, mutation).Write? && !Drifted(store, disk, target)
  }

  /** A mutation that is not written leaves both files and both entry lists as they were,
      whatever it reports; a written one changes its own target only. */
  lemma UnwrittenChangesNothing(store: StoreView, disk: DiskView, target: Target, mutation: Mutation)
    ensures var out := Apply(store, disk, target, mutation);
            && (!Written(store, disk, target, mutation) ==>
                  out.store.memory == store.memory && out.store.user == store.user &&
                  out.disk.memory == disk.memory && out.disk.user == disk.user)
            && (Written(store, disk, target, mutation) ==>
                  FileOf(out.disk, target) == Some(SerializeEntries(SlotOf(out.store, target).entries)) &&
                  SlotOf(out.store, target).revision == Revision(FileOf(out.disk, target)) &&
                  out.result.success && out.disk.backups == disk.backups &&
                  SlotOf(out.store, Other(target)) == SlotOf(store, Other(target)) &&
                  FileOf(out.disk, Other(target)) == FileOf(disk, Other(target)))
  {
    hide PlanOf;
  }

  /** Success is reported without a write in exactly one case: the mutation was planned, and the
      file it expected has meanwhile been deleted. */
  lemma FalseSuccessIff(store: StoreView, disk: DiskView, target: Target, mutation: Mutation)
    ensures Apply(store, disk, target, mutation).result.success && !Written(store, disk, target, mutation) <==>
            && PlanOf(target, SlotOf(store, target).entries, mutation).Write?
            && FileOf(disk, target).None? && SlotOf(store, target).revision != MISSING
  {
    hide PlanOf;
    hide SerializeEntries;
  }

  /** The drifted content is never overwritten, and a copy of it is kept when there is any. */
  lemma DriftIsPreserved(store: StoreView, disk: DiskView, target: Target, mutation: Mutation)
    requires Drifted(store, disk, target)
    requires PlanOf(target, SlotOf(store, target).entries, mutation).Write?
    ensures var out := Apply(store, disk, target, mutation);
            && FileOf(out.disk, target) == FileOf(disk, target)
            && out.result.backup == FileOf(disk, target)
            && (FileOf(disk, target).Some? ==>
                  !out.result.success && out.result.done && FileOf(disk, target).value in out.disk.backups)
  {
    UnwrittenChangesNothing(store, disk, target, mutation);
  }

  // ---- The character limit ----

  predicate Bounded(store: StoreView) {
    WithinLimit(MemoryFile, store.memory.entries) && WithinLimit(UserFile, store.user.entries)
  }

  lemma PlanFits(target: Target, entries: seq<string>, mutation: Mutation)
    requires WithinLimit(target, entries)
    ensures PlanOf(target, entries, mutation).Write? ==> WithinLimit(target, PlanOf(target, entries, mutation).entries)
  {
    hide SerializeEntries;
    hide BatchFrom;
    match mutation
    case Remove(oldText) =>
      var i := UniqueMatch(entries, oldText);
      if i.Some? { RemovalShortens(entries, i.value); }
    case _ =>
  }

  lemma ApplyKeepsBounded(store: StoreView, disk: DiskView, target: Target, mutation: Mutation)
    requires Bounded(store)
    ensures Bounded(Apply(store, disk, target, mutation).store)
  {
    PlanFits(target, SlotOf(store, target).entries, mutation);
    hide PlanOf;
    hide SerializeEntries;
  }

  // ---- A batch against its operations one at a time ----

  function Single(operation: Operation): Option<Mutation> {
    if operation.action == "add" then Some(Add(OrEmpty(operation.content)))
    else if operation.action == "replace" then Some(Replace(OrEmpty(operation.oldText), OrEmpty(operation.content)))
    else if operation.action == "remove" then Some(Remove(OrEmpty(operation.oldText)))
    else None
  }

  /** One mutation through its own method, with the limit check or without it. */
  function Perform(store: StoreView, disk: DiskView, target: Target, mutation: Mutation, limited: bool): Outcome {
    var entries := SlotOf(store, target).entries;
    Conclude(store, disk, target, if limited then PlanOf(target, entries, mutation) else FreePlan(entries, mutation),
             OkMessage(mutation))
  }

  /** The same operations through the separate methods; an unknown action does nothing. */
  function OneAtATime(store: StoreView, disk: DiskView, target: Target, operations: seq<Operation>, limited: bool): (StoreView, DiskView)
    decreases |operations|
  {
    if operations == [] then (store, disk)
    else
      match Single(operations[0])
      case None => OneAtATime(store, disk, target, operations[1..], limited)
      case Some(mutation) =>
        var out := Perform(store, disk, target, mutation, limited);
        OneAtATime(out.store, out.disk, target, operations[1..], limited)
  }

  /** The entries after the operations one at a time, none of them limited, if each is possible in turn;
      adding a duplicate is possible and does nothing. */
  function Possible(entries: seq<string>, operations: seq<Operation>): Option<seq<string>>
    decreases |operations|
  {
    if operations == [] then Some(entries)
    else if Single(operations[0]).None? then None
    else
      match FreePlan(entries, Single(operations[0]).value)
      case Write(next) => Possible(next, operations[1..])
      case Refuse(message, _) => if message == DuplicateEntry then Possible(entries, operations[1..]) else None
      case TooLong => None
  }

  lemma StepIsPossible(entries: seq<string>, operation: Operation)
    ensures var next := BatchStep(entries, operation);
            if Single(operation).None? then next.Failed?
            else
              match FreePlan(entries, Single(operation).value)
              case Write(e) => next == Going(e)
              case Refuse(message, _) => if message == DuplicateEntry then next == Going(entries) else next.Failed?
              case TooLong => false
  {
    hide SanitizeEntry, UniqueMatch;
  }

  lemma {:induction false} BatchIsPossible(entries: seq<string>, operations: seq<Operation>)
    ensures match BatchFrom(entries, operations)
            case Going(e) => Possible(entries, operations) == Some(e)
            case Failed(_) => Possible(entries, operations) == None
    decreases |operations|
  {
    hide FreePlan, BatchStep, Single;
    if operations != [] {
      StepIsPossible(entries, operations[0]);
      match BatchStep(entries, operations[0])
      case Going(next) => BatchIsPossible(next, operations[1..]);
      case Failed(_) =>
    }
  }

  /** A batch is committed exactly when the file has not drifted, there is something to do, each operation is
      possible in turn, and the final list, whatever the ones before it, fits the limit. */
  lemma BatchCommitsIff(store: StoreView, disk: DiskView, target: Target, operations: seq<Operation>)
    ensures Written(store, disk, target, Batch(operations)) <==>
            && !Drifted(store, disk, target) && operations != []
            && var last := Possible(SlotOf(store, target).entries, operations);
               last.Some? && WithinLimit(target, last.value)
  {
    hide BatchFrom, Possible, Drifted, WithinLimit;
    BatchIsPossible(SlotOf(store, target).entries, operations);
  }

  /** No prefix of the batch oversteps the limit. */
  predicate PrefixesFit(target: Target, entries: seq<string>, operations: seq<Operation>) {
    forall k :: 0 <= k <= |operations| ==>
      (BatchFrom(entries, operations[..k]).Going? ==> WithinLimit(target, BatchFrom(entries, operations[..k]).entries))
  }

  lemma PrefixesOfRest(target: Target, entries: seq<string>, operations: seq<Operation>)
    requires operations != [] && BatchStep(entries, operations[0]).Going? && PrefixesFit(target, entries, operations)
    ensures PrefixesFit(target, BatchStep(entries, operations[0]).entries, operations[1..])
    ensures WithinLimit(target, BatchStep(entries, operations[0]).entries)
  {
    var next := BatchStep(entries, operations[0]).entries;
    forall k | 0 <= k <= |operations[1..]|
      ensures BatchFrom(next, operations[1..][..k]) == BatchFrom(entries, operations[..k + 1])
    {
      assert operations[..k + 1][1..] == operations[1..][..k];
    }
    assert BatchFrom(next, operations[1..][..0]) == Going(next);
  }

  /** One step of a batch does to the entries what the method of the same name does; a duplicate
      addition, which the method refuses, leaves them alone in both. */
  lemma StepIsMutation(store: StoreView, disk: DiskView, target: Target, operation: Operation, limited: bool)
    requires BatchStep(SlotOf(store, target).entries, operation).Going? && !Drifted(store, disk, target)
    requires limited ==> WithinLimit(target, BatchStep(SlotOf(store, target).entries, operation).entries)
    ensures Single(operation).Some?
    ensures var out := Perform(store, disk, target, Single(operation).value, limited);
            && SlotOf(out.store, target).entries == BatchStep(SlotOf(store, target).entries, operation).entries
            && !Drifted(out.store, out.disk, target)
            && (FileOf(out.disk, target) == Some(SerializeEntries(SlotOf(out.store, target).entries)) ||
                (SlotOf(out.store, target) == SlotOf(store, target) && FileOf(out.disk, target) == FileOf(disk, target)))
  {
    StepIsPossible(SlotOf(store, target).entries, operation);
    hide SerializeEntries, FreePlan, BatchStep, Single, WithinLimit;
  }

  /** Whatever a batch makes of the entries, its operations done one at a time make of them too, and the
      file they leave is the one the batch writes, unless none of them had anything to do: always if the
      operations are not limited, and with their limit checks if no list on the way is too long. */
  lemma {:induction false} BatchIsOneAtATime(store: StoreView, disk: DiskView, target: Target, operations: seq<Operation>, limited: bool)
    requires !Drifted(store, disk, target)
    requires BatchFrom(SlotOf(store, target).entries, operations).Going?
    requires limited ==> PrefixesFit(target, SlotOf(store, target).entries, operations)
    ensures var (last, file) := OneAtATime(store, disk, target, operations, limited);
            var entries := BatchFrom(SlotOf(store, target).entries, operations).entries;
            && SlotOf(last, target).entries == entries
            && !Drifted(last, file, target)
            && (FileOf(file, target) == Some(SerializeEntries(entries)) ||
                (entries == SlotOf(store, target).entries && FileOf(file, target) == FileOf(disk, target)))
    decreases |operations|
  {
    hide Perform, BatchStep, PrefixesFit, Single, SerializeEntries;
    if operations != [] {
      if limited { PrefixesOfRest(target, SlotOf(store, target).entries, operations); }
      StepIsMutation(store, disk, target, operations[0], limited);
      var out := Perform(store, disk, target, Single(operations[0]).value, limited);
      BatchIsOneAtATime(out.store, out.disk, target, operations[1..], limited);
    }
  }

  predicate SameAsOneAtATime(store: StoreView, disk: DiskView, target: Target, operations: seq<Operation>, limited: bool) {
    var out := Apply(store, disk, target, Batch(operations));
    var (last, file) := OneAtATime(store, disk, target, operations, limited);
    && SlotOf(out.store, target).entries == SlotOf(last, target).entries
    && (FileOf(out.disk, target) == FileOf(file, target) ||
        (SlotOf(last, target).entries == SlotOf(store, target).entries && FileOf(file, target) == FileOf(disk, target)))
  }

  /** Every batch that is committed leaves the entries and the file of its operations done one at a time,
      the limit being checked only at the end. */
  lemma SuccessfulBatch(store: StoreView, disk: DiskView, target: Target, operations: seq<Operation>)
    requires Written(store, disk, target, Batch(operations))
    ensures SameAsOneAtATime(store, disk, target, operations, false)
  {
    hide OneAtATime, SerializeEntries, BatchFrom;
    BatchIsOneAtATime(store, disk, target, operations, false);
  }

  /** And those of its operations through the methods with their limit checks, if no list on the way is too
      long for them. */
  lemma SuccessfulBatchInLimits(store: StoreView, disk: DiskView, target: Target, operations: seq<Operation>)
    requires Written(store, disk, target, Batch(operations))
    requires PrefixesFit(target, SlotOf(store, target).entries, operations)
    ensures SameAsOneAtATime(store, disk, target, operations, true)
  {
    hide OneAtATime, SerializeEntries, BatchFrom;
    BatchIsOneAtATime(store, disk, target, operations, true);
  }

  // ---- What the next load reads ----

  /** What a caller can tell, from a mutation and the entries it finds, about whether they will read back. */
  predicate ReadsBack(entries: seq<string>, mutation: Mutation)
    requires !mutation.Batch?
  {
    match mutation
    case Add(content) => FitsOne(content) && (entries != [] ==> !EndsWith(entries[|entries| - 1], OPEN))
    case Replace(oldText, content) =>
      var i := UniqueMatch(entries, oldText);
      var e := SanitizeEntry(content);
      i.Some? && FitsOne(content) && e != "" && (i.value < |entries| - 1 ==> !EndsWith(e, OPEN)) && OneOfAKind(entries, i.value, e)
    case Remove(_) => true
  }

  lemma PlannedReadsBackIff(entries: seq<string>, mutation: Mutation)
    requires Reloads(entries) && !mutation.Batch? && FreePlan(entries, mutation).Write?
    ensures Reloads(FreePlan(entries, mutation).entries) <==> ReadsBack(entries, mutation)
  {
    hide Reloads, UniqueMatch, SanitizeEntry, FitsOne, EndsWith, OneOfAKind;
    match mutation
    case Add(content) => AddedReloadsIff(entries, content);
    case Replace(oldText, content) => ReplacedReloadsIff(entries, UniqueMatch(entries, oldText).value, content);
    case Remove(oldText) => RemovedReloads(entries, UniqueMatch(entries, oldText).value);
  }

  /** The next load finds in the file just the entries the store holds. */
  predicate NextLoadAgrees(store: StoreView, disk: DiskView, target: Target) {
    SlotOf(Loaded(disk), target).entries == SlotOf(store, target).entries
  }

  /** After a mutation of a list that reloads has been written, the next load reads exactly the entries the store
      then holds, if and only if the content reads back. */
  lemma WrittenReadsBackIff(store: StoreView, disk: DiskView, target: Target, mutation: Mutation)
    requires !mutation.Batch? && Written(store, disk, target, mutation)
    requires Reloads(SlotOf(store, target).entries)
    ensures var out := Apply(store, disk, target, mutation);
            NextLoadAgrees(out.store, out.disk, target) <==> ReadsBack(SlotOf(store, target).entries, mutation)
  {
    var entries := SlotOf(store, target).entries;
    var out := Apply(store, disk, target, mutation);
    UnwrittenChangesNothing(store, disk, target, mutation);
    WrittenEntries(store, disk, target, mutation);
    PlannedReadsBackIff(entries, mutation);
    hide Apply, FreePlan, ReadsBack, ReadEntries, SerializeEntries, Deduped, Written;
    assert FileOf(out.disk, target) == Some(SerializeEntries(SlotOf(out.store, target).entries));
  }

  lemma WrittenEntries(store: StoreView, disk: DiskView, target: Target, mutation: Mutation)
    requires Written(store, disk, target, mutation)
    ensures var plan := FreePlan(SlotOf(store, target).entries, mutation);
            plan.Write? && SlotOf(Apply(store, disk, target, mutation).store, target).entries == plan.entries
  {
    hide FreePlan, SerializeEntries, WithinLimit;
  }

  /** Each operation of a batch in turn reads back, or has nothing to do. */
  predicate AllReadBack(entries: seq<string>, operations: seq<Operation>)
    decreases |operations|
  {
    operations == [] ||
    (Single(operations[0]).Some? &&
     match FreePlan(entries, Single(operations[0]).value)
     case Write(next) => ReadsBack(entries, Single(operations[0]).value) && AllReadBack(next, operations[1..])
     case _ => AllReadBack(entries, operations[1..]))
  }

  lemma {:induction false} PossibleReadsBack(entries: seq<string>, operations: seq<Operation>)
    requires Reloads(entries) && AllReadBack(entries, operations) && Possible(entries, operations).Some?
    ensures Reloads(Possible(entries, operations).value)
    decreases |operations|
  {
    hide Reloads, FreePlan, ReadsBack;
    if operations != [] {
      var mutation := Single(operations[0]).value;
      match FreePlan(entries, mutation)
      case Write(next) =>
        PlannedReadsBackIff(entries, mutation);
        PossibleReadsBack(next, operations[1..]);
      case Refuse(message, _) => if message == DuplicateEntry { PossibleReadsBack(entries, operations[1..]); }
      case TooLong =>
    }
  }

  /** So does a batch all of whose operations do; more exactly, if and only if its final list reloads. */
  lemma BatchReadsBack(store: StoreView, disk: DiskView, target: Target, operations: seq<Operation>)
    requires Written(store, disk, target, Batch(operations)) && Reloads(SlotOf(store, target).entries)
    ensures var entries := SlotOf(store, target).entries;
            var out := Apply(store, disk, target, Batch(operations));
            && Possible(entries, operations).Some?
            && (NextLoadAgrees(out.store, out.disk, target) <==> Reloads(Possible(entries, operations).value))
            && (AllReadBack(entries, operations) ==> NextLoadAgrees(out.store, out.disk, target))
  {
    var entries := SlotOf(store, target).entries;
    var out := Apply(store, disk, target, Batch(operations));
    UnwrittenChangesNothing(store, disk, target, Batch(operations));
    WrittenEntries(store, disk, target, Batch(operations));
    BatchIsPossible(entries, operations);
    hide Apply, BatchFrom, Possible, AllReadBack, ReadEntries, SerializeEntries, Deduped, Written, Drifted;
    assert Possible(entries, operations) == Some(SlotOf(out.store, target).entries);
    if AllReadBack(entries, operations) { PossibleReadsBack(entries, operations); }
  }

  // ---- Interleavings of stores and outside editors ----

  /** Contents of the two files. */
  datatype Seen = Seen(memory: File, user: File)

  function SeenOf(seen: Seen, target: Target): File {
    if target.MemoryFile? then seen.memory else seen.user
  }

  function WithSeen(seen: Seen, target: Target, file: File): Seen {
    if target.MemoryFile? then seen.(memory := file) else seen.(user := file)
  }

  /** Where a store's entries and where its revisions come from: what it last read or wrote. */
  datatype Sight = Sight(entriesOf: Seen, revisionOf: Seen)

  /** One of the four readings a load makes. */
  datatype Reading = Reading(target: Target, ofRevision: bool)

  /** `loading` holds what unfinished loads have read so far. */
  datatype World = World(disk: DiskView, stores: map<nat, StoreView>, sights: map<nat, Sight>,
                         loading: map<nat, map<Reading, File>>)

  /** `Load` reads everything at once; `Read` and `Open` are a load whose readings happen one by one. */
  datatype Action =
    | Load(store: nat)
    | Read(store: nat, reading: Reading)
    | Open(store: nat)
    | Mutate(store: nat, target: Target, mutation: Mutation)
    | ResetFailures(store: nat)
    | OutsideEdit(target: Target, file: File)

  function FreshWorld(disk: DiskView): World {
    World(disk, map[], map[], map[])
  }

  predicate AllRead(got: map<Reading, File>) {
    forall target: Target, ofRevision: bool :: Reading(target, ofRevision) in got
  }

  function SightOf(got: map<Reading, File>): Sight
    requires AllRead(got)
  {
    Sight(Seen(got[Reading(MemoryFile, false)], got[Reading(UserFile, false)]),
          Seen(got[Reading(MemoryFile, true)], got[Reading(UserFile, true)]))
  }

  /** A store whose entries and revisions were read from possibly different contents. */
  function Opened(sight: Sight): StoreView {
    StoreView(Slot(Deduped(ReadEntries(sight.entriesOf.memory)), Revision(sight.revisionOf.memory)),
              Slot(Deduped(ReadEntries(sight.entriesOf.user)), Revision(sight.revisionOf.user)), 0)
  }

  function Step(w: World, action: Action): World {
    match action
    case Load(s) =>
      var seen := Seen(w.disk.memory, w.disk.user);
      w.(stores := w.stores[s := Loaded(w.disk)], sights := w.sights[s := Sight(seen, seen)])
    case Read(s, reading) =>
      var got := if s in w.loading then w.loading[s] else map[];
      w.(loading := w.loading[s := got[reading := FileOf(w.disk, reading.target)]])
    case Open(s) =>
      if s !in w.loading || !AllRead(w.loading[s]) then w
      else
        var sight := SightOf(w.loading[s]);
        w.(stores := w.stores[s := Opened(sight)], sights := w.sights[s := sight], loading := w.loading - {s})
    case Mutate(s, target, mutation) =>
      if s !in w.stores || s !in w.sights then w
      else
        var out := Apply(w.stores[s], w.disk, target, mutation);
        w.(disk := out.disk, stores := w.stores[s := out.store],
           sights := if Written(w.stores[s], w.disk, target, mutation)
                     then w.sights[s := Overwritten(w.sights[s], target, FileOf(out.disk, target))] else w.sights)
    case ResetFailures(s) => if s !in w.stores then w else w.(stores := w.stores[s := w.stores[s].(failures := 0)])
    case OutsideEdit(target, file) => w.(disk := WithFile(w.disk, target, file))
  }

  function Overwritten(sight: Sight, target: Target, file: File): Sight {
    Sight(WithSeen(sight.entriesOf, target, file), WithSeen(sight.revisionOf, target, file))
  }

  function Run(w: World, actions: seq<Action>): World
    decreases |actions|
  {
    if actions == [] then w else Run(Step(w, actions[0]), actions[1..])
  }

  /** A slot's entries were loaded from the one content or serialized into it, and its revision is the
      other's. */
  predicate Synced(slot: Slot, entriesOf: File, revisionOf: File) {
    && slot.revision == Revision(revisionOf)
    && (slot.entries == Deduped(ReadEntries(entriesOf)) || entriesOf == Some(SerializeEntries(slot.entries)))
  }

  predicate StoreSynced(store: StoreView, sight: Sight) {
    && Synced(store.memory, sight.entriesOf.memory, sight.revisionOf.memory)
    && Synced(store.user, sight.entriesOf.user, sight.revisionOf.user)
  }

  ghost predicate Inv(w: World) {
    w.stores.Keys == w.sights.Keys && forall s <- w.stores :: StoreSynced(w.stores[s], w.sights[s])
  }

  lemma MutateKeepsSynced(store: StoreView, disk: DiskView, sight: Sight, target: Target, mutation: Mutation)
    requires StoreSynced(store, sight)
    ensures var out := Apply(store, disk, target, mutation);
            StoreSynced(out.store,
                        if Written(store, disk, target, mutation)
                        then Overwritten(sight, target, FileOf(out.disk, target)) else sight)
  {
    UnwrittenChangesNothing(store, disk, target, mutation);
    hide Apply, Written, ReadEntries, SerializeEntries;
  }

  lemma StepKeepsInv(w: World, action: Action)
    requires Inv(w)
    ensures Inv(Step(w, action))
  {
    hide Apply, Written, StoreSynced, Loaded, Opened, Overwritten;
    match action
    case Mutate(s, target, mutation) =>
      if s in w.stores { MutateKeepsSynced(w.stores[s], w.disk, w.sights[s], target, mutation); }
    case Load(s) => LoadIsSynced(w.disk);
    case Open(s) => if s in w.loading && AllRead(w.loading[s]) { OpenIsSynced(SightOf(w.loading[s])); }
    case ResetFailures(s) => if s in w.stores { ResetKeepsSynced(w.stores[s], w.sights[s]); }
    case _ =>
  }

  lemma LoadIsSynced(disk: DiskView)
    ensures var seen := Seen(disk.memory, disk.user); StoreSynced(Loaded(disk), Sight(seen, seen))
  {
  }

  lemma OpenIsSynced(sight: Sight)
    ensures StoreSynced(Opened(sight), sight)
  {
  }

  lemma ResetKeepsSynced(store: StoreView, sight: Sight)
    requires StoreSynced(store, sight)
    ensures StoreSynced(store.(failures := 0), sight)
  {
  }

  lemma {:induction false} RunKeepsInv(w: World, actions: seq<Action>)
    requires Inv(w)
    ensures Inv(Run(w, actions))
    decreases |actions|
  {
    hide Inv, Step;
    if actions != [] {
      StepKeepsInv(w, actions[0]);
      RunKeepsInv(Step(w, actions[0]), actions[1..]);
    }
  }

  /** The same bytes, except that a missing file and a file holding the marker look alike. */
  predicate SameBytes(a: File, b: File) {
    a == b || {a, b} == {None, Some("<missing>")}
  }

  lemma SameRevisionIff(a: File, b: File)
    ensures Revision(a) == Revision(b) <==> SameBytes(a, b)
  {
    if Revision(a) == Revision(b) && a != b {
      assert a.None? || b.None?;
      if a.None? { assert b == Some(MISSING); } else { assert a == Some(MISSING) && {a, b} == {None, Some(MISSING)}; }
    }
    if {a, b} == {None, Some(MISSING)} { assert a in {None, Some(MISSING)} && b in {None, Some(MISSING)}; }
  }

  /** In every interleaving, a mutation that changes a file replaces exactly the bytes its store last took
      or set the revision of, by its own new entries; any other mutation leaves files and entries alone. */
  lemma ReplacesRevised(disk: DiskView, actions: seq<Action>, s: nat, target: Target, mutation: Mutation)
    requires s in Run(FreshWorld(disk), actions).stores
    ensures var w := Run(FreshWorld(disk), actions);
            && s in w.sights
            && var out := Apply(w.stores[s], w.disk, target, mutation);
            if Written(w.stores[s], w.disk, target, mutation) then
              SameBytes(FileOf(w.disk, target), SeenOf(w.sights[s].revisionOf, target)) &&
              Synced(SlotOf(w.stores[s], target), SeenOf(w.sights[s].entriesOf, target), SeenOf(w.sights[s].revisionOf, target)) &&
              FileOf(out.disk, target) == Some(SerializeEntries(SlotOf(out.store, target).entries))
            else
              out.disk.memory == w.disk.memory && out.disk.user == w.disk.user &&
              out.store.memory == w.stores[s].memory && out.store.user == w.stores[s].user
  {
    hide Run, Apply, Written, Synced, SerializeEntries, SameBytes;
    var w := Run(FreshWorld(disk), actions);
    RunKeepsInv(FreshWorld(disk), actions);
    assert StoreSynced(w.stores[s], w.sights[s]);
    UnwrittenChangesNothing(w.stores[s], w.disk, target, mutation);
    if Written(w.stores[s], w.disk, target, mutation) {
      WrittenMeetsRevision(w.stores[s], w.disk, target, mutation, w.sights[s]);
    }
  }

  lemma WrittenMeetsRevision(store: StoreView, disk: DiskView, target: Target, mutation: Mutation, sight: Sight)
    requires StoreSynced(store, sight) && Written(store, disk, target, mutation)
    ensures SameBytes(FileOf(disk, target), SeenOf(sight.revisionOf, target))
  {
    hide PlanOf, ReadEntries, SerializeEntries, SameBytes;
    SameRevisionIff(FileOf(disk, target), SeenOf(sight.revisionOf, target));
  }

  /** Entries and revisions of a store loaded at once come from the same contents. */
  predicate SeesOneContent(w: World, s: nat) {
    s in w.sights ==> w.sights[s].entriesOf == w.sights[s].revisionOf
  }

  lemma {:induction false} OneContent(w: World, actions: seq<Action>, s: nat)
    requires SeesOneContent(w, s) && forall i :: 0 <= i < |actions| ==> actions[i] != Open(s)
    ensures SeesOneContent(Run(w, actions), s)
    decreases |actions|
  {
    if actions != [] {
      hide Apply, Written, Loaded, Opened;
      assert actions[0] != Open(s);
      forall i | 0 <= i < |actions[1..]| ensures actions[1..][i] != Open(s) { assert actions[1..][i] == actions[i + 1]; }
      OneContent(Step(w, actions[0]), actions[1..], s);
    }
  }

  /** With loads that read everything at once no update is lost: a mutation that changes a file replaces
      exactly the bytes that its store last read or wrote. */
  lemma NoUpdateLost(disk: DiskView, actions: seq<Action>, s: nat, target: Target, mutation: Mutation)
    requires s in Run(FreshWorld(disk), actions).stores
    requires forall i :: 0 <= i < |actions| ==> actions[i] != Open(s)
    ensures var w := Run(FreshWorld(disk), actions);
            && s in w.sights
            && var out := Apply(w.stores[s], w.disk, target, mutation);
            if Written(w.stores[s], w.disk, target, mutation) then
              var seen := SeenOf(w.sights[s].entriesOf, target);
              SameBytes(FileOf(w.disk, target), seen) && Synced(SlotOf(w.stores[s], target), seen, seen) &&
              FileOf(out.disk, target) == Some(SerializeEntries(SlotOf(out.store, target).entries))
            else
              out.disk.memory == w.disk.memory && out.disk.user == w.disk.user &&
              out.store.memory == w.stores[s].memory && out.store.user == w.stores[s].user
  {
    hide Run, Apply, Written, Synced, SerializeEntries, SameBytes;
    ReplacesRevised(disk, actions, s, target, mutation);
    OneContent(FreshWorld(disk), actions, s);
  }

  /** However a store was loaded, a mutation that changes a file replaces the bytes its entries come from
      exactly when its entries and its revision come from the same bytes: when nobody has changed the file
      between the two readings of the load, or the store has written it since. */
  lemma UpdateKeptIff(disk: DiskView, actions: seq<Action>, s: nat, target: Target, mutation: Mutation)
    requires s in Run(FreshWorld(disk), actions).stores && s in Run(FreshWorld(disk), actions).sights
    requires var w := Run(FreshWorld(disk), actions); Written(w.stores[s], w.disk, target, mutation)
    ensures var w := Run(FreshWorld(disk), actions);
            SameBytes(FileOf(w.disk, target), SeenOf(w.sights[s].entriesOf, target)) <==>
            SameBytes(SeenOf(w.sights[s].revisionOf, target), SeenOf(w.sights[s].entriesOf, target))
  {
    hide Run, Written, Synced;
    var w := Run(FreshWorld(disk), actions);
    ReplacesRevised(disk, actions, s, target, mutation);
    var now, taken, read := FileOf(w.disk, target), SeenOf(w.sights[s].revisionOf, target), SeenOf(w.sights[s].entriesOf, target);
    SameRevisionIff(now, taken);
    SameRevisionIff(now, read);
    SameRevisionIff(taken, read);
  }

  /** Two stores cannot both commit from the same reading: once one has written different bytes,
      the other is refused until it loads again. */
  lemma StaleStoreIsRefused(w: World, first: nat, second: nat, target: Target, m1: Mutation, m2: Mutation)
    requires Inv(w) && first != second && first in w.stores && second in w.stores
    requires SeenOf(w.sights[first].revisionOf, target) == SeenOf(w.sights[second].revisionOf, target)
    requires Written(w.stores[first], w.disk, target, m1)
    ensures var after := Step(w, Mutate(first, target, m1));
            second in after.stores &&
            (!SameBytes(FileOf(after.disk, target), SeenOf(w.sights[second].revisionOf, target)) ==>
               !Written(after.stores[second], after.disk, target, m2))
  {
    hide Apply, PlanOf, SameBytes, ReadEntries, SerializeEntries;
    var after := Step(w, Mutate(first, target, m1));
    assert after.stores[second] == w.stores[second];
    assert StoreSynced(w.stores[second], w.sights[second]);
    if Written(after.stores[second], after.disk, target, m2) {
      WrittenMeetsRevision(after.stores[second], after.disk, target, m2, w.sights[second]);
    }
  }

  /** A store that is within its limits stays within them until it loads again. */
  lemma {:induction false} BoundedForever(w: World, actions: seq<Action>, s: nat)
    requires s in w.stores && Bounded(w.stores[s])
    requires forall i :: 0 <= i < |actions| ==> actions[i] != Load(s) && actions[i] != Open(s)
    ensures s in Run(w, actions).stores && Bounded(Run(w, actions).stores[s])
    decreases |actions|
  {
    hide Bounded, Apply;
    if actions != [] {
      assert actions[0] != Load(s) && actions[0] != Open(s);
      StepKeepsBounded(w, actions[0], s);
      hide Step;
      forall i | 0 <= i < |actions[1..]| ensures actions[1..][i] != Load(s) && actions[1..][i] != Open(s) {
        assert actions[1..][i] == actions[i + 1];
      }
      BoundedForever(Step(w, actions[0]), actions[1..], s);
    }
  }

  lemma StepKeepsBounded(w: World, action: Action, s: nat)
    requires s in w.stores && Bounded(w.stores[s]) && action != Load(s) && action != Open(s)
    ensures s in Step(w, action).stores && Bounded(Step(w, action).stores[s])
  {
    hide Apply, Written, WithinLimit;
    if action.Mutate? && action.store == s { ApplyKeepsBounded(w.stores[s], w.disk, action.target, action.mutation); }
  }

  // ---- Where the promises stop ----

  lemma CleanChar(c: char)
    requires c == 'a' || c == 'b'
    ensures SanitizeEntry([c]) == [c]
  {
    TrimFixed([c]);
    assert Find([c], CRLF).None?;
  }

  lemma OneCharReads(c: char)
    requires c == 'a' || c == 'b'
    ensures Deduped(ReadEntries(Some([c]))) == [[c]]
  {
    CleanChar(c);
    hide SanitizeEntry, ReadEntries, Deduped;
    assert Find([c], DELIMITER).None?;
    assert Survives([[c]]);
    assert SerializeEntries([[c]]) == [c];
    ReloadIff([[c]]);
  }

  lemma AddingFits()
    ensures PlanOf(MemoryFile, ["a"], Add("b")) == Write(["a", "b"])
  {
    CleanChar('b');
    TwoFit("a", "b");
    hide SanitizeEntry, WithinLimit;
    assert ["a"] + ["b"] == ["a", "b"];
    assert "b" != "a" && "b" !in ["a"];
  }

  lemma TwoFit(a: string, b: string)
    requires |a| == |b| == 1
    ensures WithinLimit(MemoryFile, [a, b])
  {
    hide SerializeEntries;
    SerializedTwo(a, b);
  }

  lemma SerializedTwo(a: string, b: string)
    ensures |SerializeEntries([a, b])| == |a| + |b| + |DELIMITER|
  {
    assert [a, b][1..] == [b];
    assert Join([b], DELIMITER) == b;
  }

  lemma TwoSteps(w: World, first: Action, second: Action)
    ensures Run(w, [first, second]) == Step(Step(w, first), second)
  {
    hide Step;
    var mid := Step(w, first);
    assert [first, second][1..] == [second] && [second][1..] == [];
    assert Run(mid, [second]) == Run(Step(mid, second), []);
  }

  /** A store loads the entry `a`, the file is deleted behind its back, and its next addition is
      reported as successful although it changed neither the file nor the entries. */
  lemma FalseSuccessHappens()
    ensures var w := Run(FreshWorld(DiskView(Some("a"), None, [])), [Load(0), OutsideEdit(MemoryFile, None)]);
            0 in w.stores &&
            var out := Apply(w.stores[0], w.disk, MemoryFile, Add("b"));
            out.result.success && out.disk.memory == None && out.store.memory.entries == ["a"]
  {
    hide Run, Step, Apply, PlanOf;
    var w0 := FreshWorld(DiskView(Some("a"), None, []));
    TwoSteps(w0, Load(0), OutsideEdit(MemoryFile, None));
    LoadThenDelete(w0);
    var w := Step(Step(w0, Load(0)), OutsideEdit(MemoryFile, None));
    DeletedBehind(w.stores[0], w.disk);
  }

  lemma LoadThenDelete(w0: World)
    requires w0.disk.memory == Some("a")
    ensures var w := Step(Step(w0, Load(0)), OutsideEdit(MemoryFile, None));
            0 in w.stores && w.stores[0].memory == Slot(["a"], "a") && w.disk.memory == None
  {
    hide Step, Loaded;
    var seen := Step(w0, Load(0));
    StepLoads(w0);
    LoadedOne(w0.disk);
    StepDeletes(seen);
  }

  lemma StepLoads(w: World)
    ensures var t := Step(w, Load(0)); 0 in t.stores && t.stores[0] == Loaded(w.disk) && t.disk == w.disk
  {
    hide Loaded;
  }

  lemma StepDeletes(w: World)
    ensures var t := Step(w, OutsideEdit(MemoryFile, None)); t.stores == w.stores && t.disk.memory == None
  {
  }

  lemma LoadedOne(disk: DiskView)
    requires disk.memory == Some("a")
    ensures Loaded(disk).memory == Slot(["a"], "a")
  {
    hide ReadEntries, Deduped;
    OneCharReads('a');
    assert ['a'] == "a";
  }

  lemma DeletedBehind(store: StoreView, disk: DiskView)
    requires store.memory == Slot(["a"], "a") && disk.memory == None
    ensures var out := Apply(store, disk, MemoryFile, Add("b"));
            out.result.success && out.disk.memory == None && out.store.memory.entries == ["a"]
  {
    AddingFits();
    hide Apply, PlanOf;
    FalseSuccessIff(store, disk, MemoryFile, Add("b"));
    UnwrittenChangesNothing(store, disk, MemoryFile, Add("b"));
  }

  /** The readings of a load one by one, with an edit after the entries of the memory file are read. */
  function SlowLoad(edit: File): seq<Action> {
    [Read(0, Reading(MemoryFile, false)), Read(0, Reading(UserFile, false)), OutsideEdit(MemoryFile, edit),
     Read(0, Reading(MemoryFile, true)), Read(0, Reading(UserFile, true)), Open(0)]
  }

  lemma {:induction false} RunConcat(w: World, a: seq<Action>, b: seq<Action>)
    ensures Run(w, a + b) == Run(Run(w, a), b)
    decreases |a|
  {
    hide Step;
    if a == [] {
      assert a + b == b;
    } else {
      assert (a + b)[1..] == a[1..] + b;
      RunConcat(Step(w, a[0]), a[1..], b);
    }
  }

  lemma SlowLoadOpens(before: File, edit: File, user: File)
    ensures var w := Run(FreshWorld(DiskView(before, user, [])), SlowLoad(edit));
            && 0 in w.stores && 0 in w.sights && w.disk == DiskView(edit, user, [])
            && w.sights[0] == Sight(Seen(before, user), Seen(edit, user)) && w.stores[0] == Opened(w.sights[0])
  {
    hide Run, Opened, Step;
    var w0, script := FreshWorld(DiskView(before, user, [])), SlowLoad(edit);
    var w2 := Step(Step(w0, script[0]), script[1]);
    var w4 := Step(Step(w2, script[2]), script[3]);
    TwoSteps(w0, script[0], script[1]);
    TwoSteps(w2, script[2], script[3]);
    TwoSteps(w4, script[4], script[5]);
    var first, middle, last := [script[0], script[1]], [script[2], script[3]], [script[4], script[5]];
    RunConcat(w0, first, middle + last);
    RunConcat(w2, middle, last);
    assert script == first + (middle + last);
    SlowLoadSteps(before, edit, user);
  }

  lemma SlowLoadSteps(before: File, edit: File, user: File)
    ensures var w := StepAll(FreshWorld(DiskView(before, user, [])), SlowLoad(edit));
            && 0 in w.stores && 0 in w.sights && w.disk == DiskView(edit, user, [])
            && w.sights[0] == Sight(Seen(before, user), Seen(edit, user)) && w.stores[0] == Opened(w.sights[0])
  {
    hide Opened;
    var script := SlowLoad(edit);
    var w3 := Step(Step(Step(FreshWorld(DiskView(before, user, [])), script[0]), script[1]), script[2]);
    assert w3.loading[0] == map[Reading(MemoryFile, false) := before, Reading(UserFile, false) := user];
    var w5 := Step(Step(w3, script[3]), script[4]);
    var got := w5.loading[0];
    assert got == map[Reading(MemoryFile, false) := before, Reading(UserFile, false) := user,
                      Reading(MemoryFile, true) := edit, Reading(UserFile, true) := user];
    assert AllRead(got) by {
      forall target: Target, ofRevision: bool ensures Reading(target, ofRevision) in got {
        match (target, ofRevision) { case (MemoryFile, _) => case (UserFile, _) => }
      }
    }
  }

  function StepAll(w: World, six: seq<Action>): World
    requires |six| == 6
  {
    Step(Step(Step(Step(Step(Step(w, six[0]), six[1]), six[2]), six[3]), six[4]), six[5])
  }

  /** So an edit that falls between the readings of a load is lost: the next addition writes over it
      what the store had read before. */
  lemma SlowLoadLosesEdit()
    ensures var w := Run(FreshWorld(DiskView(Some("a"), None, [])), SlowLoad(Some("c")));
            0 in w.stores && w.disk.memory == Some("c") &&
            var out := Apply(w.stores[0], w.disk, MemoryFile, Add("b"));
            out.result.success && out.disk.memory == Some(SerializeEntries(["a", "b"])) && out.disk.backups == []
  {
    SlowLoadOpens(Some("a"), Some("c"), None);
    hide Run, ReadEntries, Deduped, PlanOf, SlowLoad;
    OneCharReads('a');
    AddingFits();
    var w := Run(FreshWorld(DiskView(Some("a"), None, [])), SlowLoad(Some("c")));
    assert w.stores[0].memory == Slot(["a"], "c");
  }

  /** A replacement may store an empty entry, which the next load drops. */
  lemma ReplaceMayStoreEmpty(target: Target)
    ensures PlanOf(target, ["a"], Replace("a", "")) == Write([""])
    ensures Deduped(ReadEntries(Some(SerializeEntries([""])))) != [""]
  {
    OnlyMatchIsFirst();
    TrimFixed("");
    assert Find("", CRLF).None?;
    assert ["a"][0 := ""] == [""];
    assert SerializeEntries([""]) == "";
    hide UniqueMatch, ReadEntries, Deduped;
    EmptyIsLost();
  }

  lemma OnlyMatchIsFirst()
    ensures UniqueMatch(["a"], "a") == Some(0)
  {
    assert Find("a", "a") == Some(0) by { assert OccursAt("a", "a", 0); }
    assert IsOnlyMatch(["a"], "a", 0);
  }

  lemma EmptyIsLost()
    ensures Deduped(ReadEntries(Some(SerializeEntries([""])))) != [""]
  {
    ReloadIff([""]);
    assert [""][0] == "" && !Clean([""]);
  }
}
