/**
 * Whole lives of a healing tracker, with saves, crashes and reloads, against simple ledgers of what happened
 * (cmd/background-newdisks-heal-ops.go).
 */
module TrackerRuns {
  import opened Bytes
  import opened MsgPack
  import opened TrackerFields
  import opened TrackerCodec
  import opened BucketQueue
  import opened HealingTracker

  // ---- items and their totals ----

  datatype Class = HealedItem | SkippedItem | FailedItem

  /** One report of progress. */
  datatype Item = Item(success: bool, skipped: bool, size: uint64)
  {
    function Class(): Class {
      if success then HealedItem else if skipped then SkippedItem else FailedItem
    }
  }

  function CountOf(items: seq<Item>, c: Class): nat {
    if items == [] then 0
    else CountOf(items[..|items| - 1], c) + if items[|items| - 1].Class() == c then 1 else 0
  }

  function SizeOf(items: seq<Item>, c: Class): nat {
    if items == [] then 0
    else SizeOf(items[..|items| - 1], c) + if items[|items| - 1].Class() == c then items[|items| - 1].size else 0
  }

  /** A pair of counters shows the items of a class, modulo 2^64. */
  predicate Shows(count: uint64, size: uint64, items: seq<Item>, c: Class) {
    count == CountOf(items, c) % CAP8 && size == SizeOf(items, c) % CAP8
  }

  lemma Appended(items: seq<Item>, i: Item, c: Class)
    ensures CountOf(items + [i], c) == CountOf(items, c) + if i.Class() == c then 1 else 0
    ensures SizeOf(items + [i], c) == SizeOf(items, c) + if i.Class() == c then i.size else 0
  {
    assert (items + [i])[..|items|] == items;
  }

  lemma PlusModulo(a: nat, b: uint64)
    ensures Plus(a % CAP8, b) == (a + b) % CAP8
  {
  }

  lemma ShowsMore(count: uint64, size: uint64, items: seq<Item>, i: Item, c: Class)
    requires Shows(count, size, items, c)
    ensures i.Class() == c ==> Shows(Plus(count, 1), Plus(size, i.size), items + [i], c)
    ensures i.Class() != c ==> Shows(count, size, items + [i], c)
  {
    Appended(items, i, c);
    PlusModulo(CountOf(items, c), 1);
    PlusModulo(SizeOf(items, c), i.size);
    hide Plus, CountOf, SizeOf;
  }

  // ---- events ----

  datatype Event =
    | Progress(item: Item)
    | Done(bucket: bytes)
    | Resume
    | Reset
    | List(names: seq<bytes>)
    | Cursor(bucket: bytes, objectName: bytes)   // setBucket and setObject
    | Save(lookup: Option<Location>, now: Instant)      // under the lock: the tracker is marshalled
    | Update(lookup: Option<Location>, now: Instant)    // the same
    | Land(k: nat)                                      // later: the k-th marshalled tracker is written
    | Fail(k: nat)                                      // or its write fails
    | Retry(lookup: Option<Location>, now: Instant, writes: bool)   // some items failed: the drive is healed again
    // No pass follows: the tracker on the drive is loaded, marked as finished and saved, or, if it is an old one
    // without a heal ID, deleted.
    | Conclude(lookup: Option<Location>, now: Instant, writes: bool)
    // Another drive of the set, which shares the heal ID and has the set's lock now, does that.
    | ConcludeElsewhere(lookup: Option<Location>, now: Instant, writes: bool)
    | Crash                                             // or `healFreshDisk` returns
    | Load
    | Create(healID: bytes, path: bytes, endpoint: bytes, started: Instant)

  /** The tracker in memory, the file on its drive, and what was marshalled and is not written yet. */
  datatype State = State(driveId: bytes, location: Location, mem: Option<Tracker>, file: Option<bytes>,
                         inflight: seq<bytes>)

  function Without<T>(s: seq<T>, k: nat): (r: seq<T>)
    requires k < |s|
    ensures |r| == |s| - 1 && multiset(r) + multiset{s[k]} == multiset(s)
  {
    assert s == s[..k] + [s[k]] + s[k + 1..];
    s[..k] + s[k + 1..]
  }

  const MAX_RETRIES := 4

  function Retried(t: Tracker): Tracker {
    Cleared(t.(retryAttempts := Plus(t.retryAttempts, 1)))
  }

  function Updated(s: State, t: Tracker, lookup: Option<Location>, now: Instant): Tracker {
    Stamped(Identified(t, s.driveId, s.location), lookup, now)
  }

  /** Some items failed, and not all attempts are used up. */
  predicate RetriesAgain(t: Tracker) {
    t.itemsFailed > 0 && t.retryAttempts < MAX_RETRIES
  }

  /** What is saved for a drive that is done, when t was loaded. */
  function Marked(s: State, t: Tracker, lookup: Option<Location>, now: Instant): Tracker {
    Updated(s, t.(finished := true), lookup, now)
  }

  ghost predicate CanMark(s: State, loaded: Result, lookup: Option<Location>, now: Instant) {
    loaded.Success? ==> EncodableTracker(Marked(s, loaded.t, lookup, now))
  }

  /** The file if the save of the finished tracker takes place, unless the load failed. */
  ghost function MarkedFile(s: State, loaded: Result, lookup: Option<Location>, now: Instant, writes: bool)
    : Option<bytes>
  {
    if writes && loaded.Success? && CanMark(s, loaded, lookup, now)
    then Some(Encode(Marked(s, loaded.t, lookup, now)))
    else s.file
  }

  ghost predicate Enabled(s: State, e: Event) {
    match e
    case Done(b) => s.mem.Some? && !Panics(s.mem.value.queuedBuckets, b)
    case Save(lookup, now) => s.mem.Some? && EncodableTracker(Stamped(s.mem.value, lookup, now))
    case Update(lookup, now) => s.mem.Some? && EncodableTracker(Updated(s, s.mem.value, lookup, now))
    case Retry(lookup, now, _) =>
      s.mem.Some? && s.inflight == [] &&   // the pass is over, and with it every other goroutine that saves
      RetriesAgain(s.mem.value) &&
      EncodableTracker(Updated(s, Retried(s.mem.value), lookup, now))
    case Land(k) => k < |s.inflight|
    case Fail(k) => k < |s.inflight|
    case Conclude(lookup, now, _) =>
      s.mem.Some? && s.inflight == [] && !RetriesAgain(s.mem.value) &&
      CanMark(s, Loaded(s.file, s.driveId), lookup, now)
    case ConcludeElsewhere(lookup, now, _) =>
      s.mem.None? && s.inflight == [] && CanMark(s, Loaded(s.file, s.driveId), lookup, now)
    case Load => s.mem.None? && Loaded(s.file, s.driveId).Success?
    case Create(_, _, _, _) => s.mem.None? && s.file.None?
    case _ => s.mem.Some?
  }

  ghost function Apply(s: State, e: Event): State
    requires Enabled(s, e)
  {
    match e
    case Progress(i) => s.(mem := Some(Progressed(s.mem.value, i.success, i.skipped, i.size)))
    case Done(b) => s.(mem := Some(Completed(s.mem.value, b)))
    case Resume => s.(mem := Some(Resumed(s.mem.value)))
    case Reset => s.(mem := Some(Cleared(s.mem.value)))
    case List(names) => s.(mem := Some(Listed(s.mem.value, names)))
    case Cursor(b, o) => s.(mem := Some(s.mem.value.(bucket := b, objectName := o)))
    case Save(lookup, now) =>
      var t := Stamped(s.mem.value, lookup, now);
      s.(mem := Some(t), inflight := s.inflight + [Encode(t)])
    case Update(lookup, now) =>
      var t := Updated(s, s.mem.value, lookup, now);
      s.(mem := Some(t), inflight := s.inflight + [Encode(t)])
    case Land(k) => s.(file := Some(s.inflight[k]), inflight := Without(s.inflight, k))
    case Fail(k) => s.(inflight := Without(s.inflight, k))
    case Retry(lookup, now, writes) =>
      var t := Updated(s, Retried(s.mem.value), lookup, now);
      s.(mem := Some(t), file := if writes then Some(Encode(t)) else s.file)
    case Conclude(lookup, now, writes) =>
      if s.mem.value.healID == [] then s.(mem := None, file := if writes then None else s.file)
      else s.(mem := None, file := MarkedFile(s, Loaded(s.file, s.driveId), lookup, now, writes))
    case ConcludeElsewhere(lookup, now, writes) =>
      s.(file := MarkedFile(s, Loaded(s.file, s.driveId), lookup, now, writes))
    case Crash => s.(mem := None, inflight := [])
    case Load => s.(mem := Some(Loaded(s.file, s.driveId).t))
    case Create(healID, path, endpoint, started) =>
      s.(mem := Some(Located(ZERO.(id := s.driveId, healID := healID, path := path, endpoint := endpoint,
                                   started := started), s.location)))
  }

  ghost function After(start: State, events: seq<Event>): Option<State> {
    if events == [] then Some(start)
    else
      var before := After(start, events[..|events| - 1]);
      var e := events[|events| - 1];
      if before.Some? && Enabled(before.value, e) then Some(Apply(before.value, e)) else None
  }

  // ---- the machine and the objects ----

  /** The tracker in memory, its drive, and what is marshalled, as a state of the machine. */
  ghost function StateOf(tracker: HealingTracker, drive: Drive, inflight: seq<bytes>): State
    reads tracker, drive
  {
    State(drive.id, drive.location, Some(tracker.h), drive.file, inflight)
  }

  /** An event that happens to a tracker in memory and leaves it there. */
  predicate InMemory(e: Event) {
    !e.Crash? && !e.Load? && !e.Create? && !e.Conclude? && !e.ConcludeElsewhere?
  }

  /** Every such event is what the methods of the tracker and the drive do. */
  method Perform(tracker: HealingTracker, drive: Drive, inflight: seq<bytes>, e: Event)
    returns (inflight': seq<bytes>)
    requires InMemory(e) && Enabled(StateOf(tracker, drive, inflight), e)
    modifies tracker, drive
    ensures StateOf(tracker, drive, inflight') == Apply(old(StateOf(tracker, drive, inflight)), e)
  {
    hide Encode, EncodableTracker, Sweep, Panics, Pending;
    inflight' := inflight;
    match e {
      case Progress(i) => tracker.UpdateProgress(i.success, i.skipped, i.size);
      case Done(b) => var _ := tracker.BucketDone(b);
      case Resume => tracker.Resume();
      case Reset => tracker.ResetHealing();
      case List(names) => tracker.SetQueuedBuckets(names);
      case Cursor(b, o) => tracker.h := tracker.h.(bucket := b, objectName := o);
      case Land(k) =>
        var _ := drive.WriteAll(inflight[k], true);
        inflight' := Without(inflight, k);
      case Fail(k) =>
        var _ := drive.WriteAll(inflight[k], false);
        inflight' := Without(inflight, k);
      case Save(_, _) => inflight' := PerformSave(tracker, drive, inflight, e);
      case Update(_, _) => inflight' := PerformSave(tracker, drive, inflight, e);
      case Retry(_, _, _) => PerformRetry(tracker, drive, inflight, e);
    }
  }

  /** The events that marshal the tracker and write it later. */
  method PerformSave(tracker: HealingTracker, drive: Drive, inflight: seq<bytes>, e: Event)
    returns (inflight': seq<bytes>)
    requires (e.Save? || e.Update?) && Enabled(StateOf(tracker, drive, inflight), e)
    modifies tracker, drive
    ensures StateOf(tracker, drive, inflight') == Apply(old(StateOf(tracker, drive, inflight)), e)
  {
    hide Encode, EncodableTracker, RetriesAgain;
    inflight' := inflight;
    match e {
      case Save(lookup, now) =>
        BeforeStamp(tracker.h, lookup, now);
        var b := tracker.Prepare(lookup, now);
        inflight' := inflight + [b];
      case Update(lookup, now) =>
        BeforeStamp(Identified(tracker.h, drive.id, drive.location), lookup, now);
        if tracker.h.id == [] || tracker.h.poolIndex < 0 || tracker.h.setIndex < 0 || tracker.h.diskIndex < 0 {
          tracker.h := tracker.h.(id := drive.id);
          tracker.h :=
            tracker.h.(poolIndex := drive.location.0, setIndex := drive.location.1, diskIndex := drive.location.2);
        }
        var b := tracker.Prepare(lookup, now);
        inflight' := inflight + [b];
    }
  }

  /** The tracker is cleared for another pass and saved. */
  method PerformRetry(tracker: HealingTracker, drive: Drive, inflight: seq<bytes>, e: Event)
    requires e.Retry? && Enabled(StateOf(tracker, drive, inflight), e)
    modifies tracker, drive
    ensures StateOf(tracker, drive, inflight) == Apply(old(StateOf(tracker, drive, inflight)), e)
  {
    hide Encode, EncodableTracker;
    BeforeStamp(Identified(Retried(tracker.h), drive.id, drive.location), e.lookup, e.now);
    tracker.h := tracker.h.(retryAttempts := Plus(tracker.h.retryAttempts, 1));
    tracker.ResetHealing();
    var _ := tracker.Update(drive, e.lookup, e.now, e.writes);
  }

  lemma BeforeStamp(t: Tracker, lookup: Option<Location>, now: Instant)
    requires EncodableTracker(Stamped(t, lookup, now))
    ensures EncodableTracker(t)
  {
  }

  /** A drive without a tracker. */
  predicate Fresh(s: State) {
    s.mem.None? && s.file.None? && s.inflight == []
  }

  // ---- the ledgers ----

  /** The items that count now, and those that counted when a bucket was last done. */
  datatype Book = Book(now: seq<Item>, atDone: seq<Item>)

  const EMPTY := Book([], [])

  /** One book for the healed and failed items and one for the skipped ones, and the bucket list that is worked on. */
  datatype Books = Books(items: Book, skips: Book, names: Option<seq<bytes>>)

  /** A marshalled tracker and its books. */
  datatype Copy = Copy(t: Tracker, books: Books)

  /**
   * The books of the tracker in memory; the tracker whose write reached the drive last, those that are marshalled
   * and not written yet; retries, and those that could not be saved.
   */
  datatype Ledger = Ledger(mem: Books, saved: Option<Copy>, pending: seq<Copy>, retries: nat, unsaved: nat)

  const NO_LEDGER := Ledger(NOTHING, None, [], 0, 0)

  const NOTHING := Books(EMPTY, EMPTY, None)

  function MarkedCopy(l: Ledger, s: State, loaded: Result, lookup: Option<Location>, now: Instant, writes: bool)
    : Option<Copy>
  {
    if writes && l.saved.Some? && loaded.Success?
    then Some(Copy(Marked(s, loaded.t, lookup, now), l.saved.value.books))
    else l.saved
  }

  function Note(l: Ledger, s: State, e: Event): Ledger
    requires s.mem.Some? || e.Load? || e.Create? || e.Land? || e.Fail? || e.ConcludeElsewhere?
  {
    var b := l.mem;
    match e
    case Progress(i) =>
      l.(mem := b.(items := b.items.(now := b.items.now + [i]), skips := b.skips.(now := b.skips.now + [i])))
    case Done(_) =>
      l.(mem := b.(items := b.items.(atDone := b.items.now), skips := b.skips.(atDone := b.skips.now)))
    case Resume =>
      l.(mem := b.(items := b.items.(now := b.items.atDone), skips := b.skips.(now := b.skips.atDone)))
    case Reset => l.(mem := Books(EMPTY, b.skips.(now := []), None))
    case List(names) => l.(mem := b.(names := if Distinct(names) then Some(names) else None))
    case Cursor(_, _) => l
    case Save(lookup, now) => l.(pending := l.pending + [Copy(Stamped(s.mem.value, lookup, now), b)])
    case Update(lookup, now) => l.(pending := l.pending + [Copy(Updated(s, s.mem.value, lookup, now), b)])
    case Land(k) => if k < |l.pending| then l.(saved := Some(l.pending[k]), pending := Without(l.pending, k)) else l
    case Fail(k) => if k < |l.pending| then l.(pending := Without(l.pending, k)) else l
    case Retry(lookup, now, writes) =>
      var after := Books(EMPTY, b.skips.(now := []), None);
      if writes
      then Ledger(after, Some(Copy(Updated(s, Retried(s.mem.value), lookup, now), after)), [], l.retries + 1, l.unsaved)
      else Ledger(after, l.saved, [], l.retries + 1, l.unsaved + 1)
    case Conclude(lookup, now, writes) =>
      if s.mem.value.healID != [] then l.(saved := MarkedCopy(l, s, Loaded(s.file, s.driveId), lookup, now, writes))
      else if writes then NO_LEDGER
      else l
    case ConcludeElsewhere(lookup, now, writes) =>
      l.(saved := MarkedCopy(l, s, Loaded(s.file, s.driveId), lookup, now, writes))
    case Crash => l.(pending := [])
    case Load => if l.saved.Some? then l.(mem := l.saved.value.books) else l
    case Create(_, _, _, _) => l.(mem := NOTHING)
  }

  ghost function LedgerAfter(start: State, events: seq<Event>): Ledger
    requires After(start, events).Some?
  {
    if events == [] then NO_LEDGER
    else
      var init := events[..|events| - 1];
      Note(LedgerAfter(start, init), After(start, init).value, events[|events| - 1])
  }

  // ---- the invariant ----

  /** The tracker shows its books. */
  predicate ShowsBooks(t: Tracker, b: Books) {
    Shows(t.itemsHealed, t.bytesDone, b.items.now, HealedItem) &&
    Shows(t.itemsFailed, t.bytesFailed, b.items.now, FailedItem) &&
    Shows(t.itemsSkipped, t.bytesSkipped, b.skips.now, SkippedItem) &&
    Shows(t.resumeItemsHealed, t.resumeBytesDone, b.items.atDone, HealedItem) &&
    Shows(t.resumeItemsFailed, t.resumeBytesFailed, b.items.atDone, FailedItem) &&
    Shows(t.resumeItemsSkipped, t.resumeBytesSkipped, b.skips.atDone, SkippedItem)
  }

  /** The queue is what is not healed of the list that is worked on, in the list's order. */
  predicate QueueMatches(t: Tracker, b: Books) {
    b.names.Some? ==> Distinct(b.names.value) && t.queuedBuckets == Pending(b.names.value, 0, t.healedBuckets)
  }

  predicate Accounted(t: Tracker, b: Books, retries: nat, unsaved: nat) {
    ShowsBooks(t, b) && QueueMatches(t, b) &&
    t.retryAttempts <= MAX_RETRIES && retries <= t.retryAttempts + unsaved
  }

  ghost predicate Inv(s: State, l: Ledger) {
    (s.mem.Some? ==> s.mem.value.id == s.driveId && Accounted(s.mem.value, l.mem, l.retries, l.unsaved)) &&
    (s.file.Some? ==> l.saved.Some? && IsCopy(s.driveId, s.file.value, l.saved.value, l.retries, l.unsaved)) &&
    (s.file.None? ==> l.retries <= l.unsaved) &&
    |s.inflight| == |l.pending| &&
    forall k :: 0 <= k < |s.inflight| ==> IsCopy(s.driveId, s.inflight[k], l.pending[k], l.retries, l.unsaved)
  }

  /** These bytes are a marshalled tracker of this drive that shows its books. */
  ghost predicate IsCopy(driveId: bytes, b: bytes, c: Copy, retries: nat, unsaved: nat) {
    EncodableTracker(c.t) && b == Encode(c.t) && c.t.id == driveId && Accounted(c.t, c.books, retries, unsaved)
  }

  lemma ProgressKeeps(t: Tracker, b: Books, i: Item)
    requires ShowsBooks(t, b)
    ensures ShowsBooks(Progressed(t, i.success, i.skipped, i.size),
                       b.(items := b.items.(now := b.items.now + [i]), skips := b.skips.(now := b.skips.now + [i])))
  {
    ShowsMore(t.itemsHealed, t.bytesDone, b.items.now, i, HealedItem);
    ShowsMore(t.itemsFailed, t.bytesFailed, b.items.now, i, FailedItem);
    ShowsMore(t.itemsSkipped, t.bytesSkipped, b.skips.now, i, SkippedItem);
    hide Shows, Plus;
  }

  lemma DoneKeeps(t: Tracker, b: Books, bucket: bytes)
    requires QueueMatches(t, b)
    ensures QueueMatches(Completed(t, bucket), b)
  {
    if b.names.Some? {
      DoneKeepsPending(b.names.value, t.healedBuckets, bucket);
    }
  }

  lemma {:induction false} RetryAccounted(s: State, b: Books, lookup: Option<Location>, now: Instant, retries: nat,
                                          unsaved: nat, writes: bool)
    requires s.mem.Some? && s.mem.value.id == s.driveId && RetriesAgain(s.mem.value)
    requires Accounted(s.mem.value, b, retries, unsaved)
    ensures var t := Updated(s, Retried(s.mem.value), lookup, now);
            t.id == s.driveId &&
            Accounted(t, Books(EMPTY, b.skips.(now := []), None), retries + 1, unsaved + if writes then 0 else 1)
  {
    hide QueueMatches, Shows;
    var t := Updated(s, Retried(s.mem.value), lookup, now);
    var after := Books(EMPTY, b.skips.(now := []), None);
    ClearedShows(t, s.mem.value, b);
    NoNames(t, after);
  }

  lemma {:induction false} RetryParts(s: State, l: Ledger, e: Event)
    requires e.Retry? && Enabled(s, e)
    ensures RetriesAgain(s.mem.value) && s.inflight == []
    ensures var t := Updated(s, Retried(s.mem.value), e.lookup, e.now);
            var after := Books(EMPTY, l.mem.skips.(now := []), None);
            EncodableTracker(t) &&
            Apply(s, e) == s.(mem := Some(t), file := if e.writes then Some(Encode(t)) else s.file) &&
            Note(l, s, e) == Ledger(after, if e.writes then Some(Copy(t, after)) else l.saved, [], l.retries + 1,
                                    l.unsaved + if e.writes then 0 else 1)
  {
    hide Encode, EncodableTracker, Updated, Retried;
  }

  lemma {:induction false} RetryKeeps(s: State, l: Ledger, e: Event)
    requires Inv(s, l) && e.Retry? && Enabled(s, e)
    ensures Inv(Apply(s, e), Note(l, s, e))
  {
    RetryParts(s, l, e);
    hide Apply, Note, Enabled, RetriesAgain, Encode, EncodableTracker, Accounted, Updated, Retried;
    RetryAccounted(s, l.mem, e.lookup, e.now, l.retries, l.unsaved, e.writes);
    if !e.writes && s.file.Some? {
      MoreUnsaved(s.driveId, s.file.value, l.saved.value, l.retries, l.unsaved);
    }
  }

  /** A retry that could not be saved is accounted for in what was saved before. */
  lemma {:induction false} MoreUnsaved(driveId: bytes, b: bytes, c: Copy, retries: nat, unsaved: nat)
    requires IsCopy(driveId, b, c, retries, unsaved)
    ensures IsCopy(driveId, b, c, retries + 1, unsaved + 1)
  {
    hide Encode, EncodableTracker, ShowsBooks, QueueMatches;
  }

  lemma NoNames(t: Tracker, b: Books)
    requires b.names.None?
    ensures QueueMatches(t, b)
  {
  }

  /** A cleared tracker shows empty books, but for the skipped items of the last snapshot. */
  lemma ClearedShows(t: Tracker, before: Tracker, b: Books)
    requires ShowsBooks(before, b) && t.itemsHealed == t.bytesDone == t.itemsFailed == t.bytesFailed == 0
    requires t.itemsSkipped == t.bytesSkipped == t.resumeItemsHealed == t.resumeBytesDone == 0
    requires t.resumeItemsFailed == t.resumeBytesFailed == 0
    requires t.resumeItemsSkipped == before.resumeItemsSkipped && t.resumeBytesSkipped == before.resumeBytesSkipped
    ensures ShowsBooks(t, Books(EMPTY, b.skips.(now := []), None))
  {
  }

  /** A step that changes the tracker in memory only. */
  lemma {:induction false} MemoryKeeps(s: State, l: Ledger, t: Tracker, b: Books)
    requires Inv(s, l) && t.id == s.driveId && Accounted(t, b, l.retries, l.unsaved)
    ensures Inv(s.(mem := Some(t)), l.(mem := b))
  {
    hide IsCopy, Accounted;
  }

  lemma NoFileNoLoad(driveId: bytes)
    ensures Loaded(None, driveId).Failure?
  {
  }

  lemma {:induction false} CopyLoads(driveId: bytes, b: bytes, c: Copy, retries: nat, unsaved: nat)
    requires IsCopy(driveId, b, c, retries, unsaved)
    ensures Loaded(Some(b), driveId) == Success(c.t)
    ensures c.t.id == driveId && Accounted(c.t, c.books, retries, unsaved)
  {
    LoadRestoresSaved(c.t, driveId);
    hide Encode, EncodableTracker, Accounted, Loaded;
  }

  lemma {:induction false} LoadKeeps(s: State, l: Ledger)
    requires Inv(s, l) && Enabled(s, Load)
    ensures Inv(Apply(s, Load), Note(l, s, Load))
  {
    NoFileNoLoad(s.driveId);
    hide IsCopy, Accounted, Loaded;
    var saved := l.saved.value;
    CopyLoads(s.driveId, s.file.value, saved, l.retries, l.unsaved);
    MemoryKeeps(s, l, saved.t, saved.books);
  }

  /** The second writer of the file: what it loaded, marks and writes shows the books of what was saved. */
  lemma {:induction false} MarkKeeps(s: State, l: Ledger, loaded: Result, lookup: Option<Location>, now: Instant,
                                     writes: bool)
    requires Inv(s, l) && loaded == Loaded(s.file, s.driveId) && CanMark(s, loaded, lookup, now)
    ensures Inv(s.(file := MarkedFile(s, loaded, lookup, now, writes)),
                l.(saved := MarkedCopy(l, s, loaded, lookup, now, writes)))
  {
    NoFileNoLoad(s.driveId);
    hide Loaded, Accounted, IsCopy, EncodableTracker, Encode, Marked;
    if s.file.Some? {
      var saved := l.saved.value;
      CopyLoads(s.driveId, s.file.value, saved, l.retries, l.unsaved);
      if writes {
        MarkedIsCopy(s, saved, l.retries, l.unsaved, lookup, now);
      }
    }
  }

  lemma {:induction false} MarkedIsCopy(s: State, c: Copy, retries: nat, unsaved: nat, lookup: Option<Location>,
                                        now: Instant)
    requires c.t.id == s.driveId && Accounted(c.t, c.books, retries, unsaved)
    requires EncodableTracker(Marked(s, c.t, lookup, now))
    ensures IsCopy(s.driveId, Encode(Marked(s, c.t, lookup, now)), Copy(Marked(s, c.t, lookup, now), c.books), retries,
                   unsaved)
  {
    hide Encode, EncodableTracker, Pending, Distinct, Shows;
  }

  lemma {:induction false} ConcludeKeeps(s: State, l: Ledger, e: Event)
    requires Inv(s, l) && Enabled(s, e) && (e.Conclude? || e.ConcludeElsewhere?)
    ensures Inv(Apply(s, e), Note(l, s, e))
  {
    hide MarkedFile, MarkedCopy, IsCopy, Accounted, Loaded, CanMark;
    MarkKeeps(s, l, Loaded(s.file, s.driveId), e.lookup, e.now, e.writes);
  }

  lemma {:induction false} SaveKeeps(s: State, l: Ledger, e: Event)
    requires Inv(s, l) && (e.Save? || e.Update?) && Enabled(s, e)
    ensures Inv(Apply(s, e), Note(l, s, e))
  {
    hide Encode, EncodableTracker, Shows, Pending, Distinct, Loaded;
  }

  /** A write that reaches the drive, in whatever order, or fails. */
  lemma {:induction false} LandKeeps(s: State, l: Ledger, e: Event)
    requires Inv(s, l) && (e.Land? || e.Fail?) && Enabled(s, e)
    ensures Inv(Apply(s, e), Note(l, s, e))
  {
    hide IsCopy, Accounted, Loaded;
  }

  lemma CrashKeeps(s: State, l: Ledger)
    requires Inv(s, l) && Enabled(s, Crash)
    ensures Inv(Apply(s, Crash), Note(l, s, Crash))
  {
    hide IsCopy, Accounted, Loaded;
  }

  /** The steps of the heal itself: progress, completions, resumes, resets, listings and cursors. */
  predicate Heals(e: Event) {
    e.Progress? || e.Done? || e.Resume? || e.Reset? || e.List? || e.Cursor?
  }

  lemma {:induction false} HealsAccounted(s: State, l: Ledger, e: Event)
    requires Heals(e) && Enabled(s, e)
    requires s.mem.value.id == s.driveId && Accounted(s.mem.value, l.mem, l.retries, l.unsaved)
    ensures var s', l' := Apply(s, e), Note(l, s, e);
            s'.mem.Some? && s' == s.(mem := s'.mem) && l' == l.(mem := l'.mem) && s'.mem.value.id == s.driveId &&
            Accounted(s'.mem.value, l'.mem, l.retries, l.unsaved)
  {
    hide Sweep, Pending, Distinct, Shows;
    match e
    case Progress(i) => ProgressKeeps(s.mem.value, l.mem, i);
    case Done(b) => DoneKeeps(s.mem.value, l.mem, b);
    case Reset => ClearedShows(Cleared(s.mem.value), s.mem.value, l.mem);
    case _ =>
  }

  lemma {:induction false} HealsKeeps(s: State, l: Ledger, e: Event)
    requires Inv(s, l) && Enabled(s, e) && Heals(e)
    ensures Inv(Apply(s, e), Note(l, s, e))
  {
    HealsAccounted(s, l, e);
    hide Apply, Note, Accounted, IsCopy;
    MemoryKeeps(s, l, Apply(s, e).mem.value, Note(l, s, e).mem);
  }

  lemma {:induction false} CreateKeeps(s: State, l: Ledger, e: Event)
    requires Inv(s, l) && Enabled(s, e) && e.Create?
    ensures Inv(Apply(s, e), Note(l, s, e))
  {
    hide IsCopy;
    MemoryKeeps(s, l, Apply(s, e).mem.value, NOTHING);
  }

  lemma {:induction false} StepKeeps(s: State, l: Ledger, e: Event)
    requires Inv(s, l) && Enabled(s, e)
    ensures Inv(Apply(s, e), Note(l, s, e))
  {
    match e
    case Retry(_, _, _) => RetryKeeps(s, l, e);
    case Load => LoadKeeps(s, l);
    case Land(_) => LandKeeps(s, l, e);
    case Fail(_) => LandKeeps(s, l, e);
    case Crash => CrashKeeps(s, l);
    case Save(_, _) => SaveKeeps(s, l, e);
    case Update(_, _) => SaveKeeps(s, l, e);
    case Create(_, _, _, _) => CreateKeeps(s, l, e);
    case Conclude(_, _, _) => ConcludeKeeps(s, l, e);
    case ConcludeElsewhere(_, _, _) => ConcludeKeeps(s, l, e);
    case _ => HealsKeeps(s, l, e);
    hide Inv, Enabled, Apply, Note;
  }

  /** In every run the tracker, and the saved one, show their books. */
  lemma {:induction false} RunKeeps(start: State, events: seq<Event>)
    requires Fresh(start) && After(start, events).Some?
    ensures Inv(After(start, events).value, LedgerAfter(start, events))
  {
    hide Inv, Enabled, Apply, Note;
    if events != [] {
      var init := events[..|events| - 1];
      RunKeeps(start, init);
      StepKeeps(After(start, init).value, LedgerAfter(start, init), events[|events| - 1]);
    } else {
      StartKeeps(start);
    }
  }

  lemma StartKeeps(start: State)
    requires Fresh(start)
    ensures Inv(start, NO_LEDGER)
  {
  }

  // ---- the laws ----

  lemma Then(start: State, events: seq<Event>, e: Event)
    requires After(start, events).Some? && Enabled(After(start, events).value, e)
    ensures After(start, events + [e]) == Some(Apply(After(start, events).value, e))
    ensures LedgerAfter(start, events + [e]) == Note(LedgerAfter(start, events), After(start, events).value, e)
  {
    assert (events + [e])[..|events|] == events;
  }

  /** A tracker that was ever saved can be loaded again. */
  lemma ReloadSucceeds(start: State, events: seq<Event>)
    requires Fresh(start) && After(start, events).Some? && After(start, events).value.file.Some?
    ensures var s := After(start, events).value; Loaded(s.file, s.driveId).Success?
  {
    RunKeeps(start, events);
    var s, l := After(start, events).value, LedgerAfter(start, events);
    hide After, LedgerAfter, Loaded, IsCopy;
    CopyLoads(s.driveId, s.file.value, l.saved.value, l.retries, l.unsaved);
  }

  /**
   * Crash and resume: after any run, a crash, a reload and `resume`, the counters are the totals as they were when a
   * bucket was last done, as contained in the tracker whose write reached the drive last.
   */
  lemma CrashAndResume(start: State, events: seq<Event>) returns (more: seq<Event>)
    requires Fresh(start) && After(start, events).Some?
    requires After(start, events).value.mem.Some? && After(start, events).value.file.Some?
    ensures more == events + [Crash] + [Load] + [Resume] && After(start, more).Some?
    ensures var t := After(start, more).value.mem; var saved := LedgerAfter(start, events).saved;
            t.Some? && saved.Some? &&
            Shows(t.value.itemsHealed, t.value.bytesDone, saved.value.books.items.atDone, HealedItem) &&
            Shows(t.value.itemsFailed, t.value.bytesFailed, saved.value.books.items.atDone, FailedItem) &&
            Shows(t.value.itemsSkipped, t.value.bytesSkipped, saved.value.books.skips.atDone, SkippedItem)
  {
    hide Inv, Loaded, After, LedgerAfter, Shows;
    RunKeeps(start, events);
    ShownInMemory(After(start, events).value, LedgerAfter(start, events));
    more := events + [Crash];
    Then(start, events, Crash);
    ReloadSucceeds(start, more);
    Then(start, more, Load);
    more := more + [Load];
    Then(start, more, Resume);
    more := more + [Resume];
    RunKeeps(start, more);
    ShownInMemory(After(start, more).value, LedgerAfter(start, more));
  }

  lemma ShownInMemory(s: State, l: Ledger)
    requires Inv(s, l)
    ensures s.mem.Some? ==> ShowsBooks(s.mem.value, l.mem)
    ensures s.file.Some? ==> l.saved.Some?
  {
  }

  /** A run without a reset or a retry. */
  predicate NeverCleared(events: seq<Event>) {
    forall i :: 0 <= i < |events| ==> !events[i].Reset? && !events[i].Retry?
  }

  predicate SkipsAsItems(l: Ledger) {
    l.mem.skips == l.mem.items && (l.saved.Some? ==> l.saved.value.books.skips == l.saved.value.books.items) &&
    forall k :: 0 <= k < |l.pending| ==> l.pending[k].books.skips == l.pending[k].books.items
  }

  lemma StepSkips(s: State, l: Ledger, e: Event)
    requires SkipsAsItems(l) && Enabled(s, e) && !e.Reset? && !e.Retry?
    ensures SkipsAsItems(Note(l, s, e))
  {
    hide Updated, Stamped;
  }

  /** Without resets the skipped items have the same books as the others: the law above covers them, too. */
  lemma {:induction false} SkipsFollowToo(start: State, events: seq<Event>)
    requires After(start, events).Some? && NeverCleared(events)
    ensures SkipsAsItems(LedgerAfter(start, events))
  {
    hide Apply, Enabled, Note, SkipsAsItems;
    if events != [] {
      var init := events[..|events| - 1];
      SkipsFollowToo(start, init);
      StepSkips(After(start, init).value, LedgerAfter(start, init), events[|events| - 1]);
    } else {
      NothingSkipped();
    }
  }

  lemma NothingSkipped()
    ensures SkipsAsItems(NO_LEDGER)
  {
  }

  /**
   * With one they need not: the counters are all zero after `resetHealing` and `resume` exactly if nothing was
   * skipped before the snapshot.
   */
  lemma ResetForgetsExactly(t: Tracker)
    ensures var r := Resumed(Cleared(t));
            r.itemsHealed == r.itemsFailed == r.bytesDone == r.bytesFailed == 0 &&
            (r.itemsSkipped == r.bytesSkipped == 0 <==> t.resumeItemsSkipped == t.resumeBytesSkipped == 0)
  {
    assert Resumed(Cleared(t)).itemsSkipped == t.resumeItemsSkipped;
  }

  /** A skipped item comes back after a reset. */
  lemma SkippedItemReturns(t: Tracker, bucket: bytes)
    requires t.itemsSkipped == 0
    ensures var done := Completed(Progressed(t, false, true, 5), bucket);
            Cleared(done).itemsSkipped == 0 && Resumed(Cleared(done)).itemsSkipped == 1
  {
    assert Progressed(t, false, true, 5).itemsSkipped == 1;
  }

  /**
   * A drive is healed again at most four times, apart from the times at which the new count of attempts could not
   * be saved.
   */
  lemma RetriesBounded(start: State, events: seq<Event>)
    requires Fresh(start) && After(start, events).Some?
    ensures LedgerAfter(start, events).retries <= 4 + LedgerAfter(start, events).unsaved
  {
    RunKeeps(start, events);
    hide After, LedgerAfter, ShowsBooks, QueueMatches, Encode, EncodableTracker;
  }

  // ---- the end of a heal ----

  /** A drive that is done says so: a later load finds its tracker finished, and otherwise as it was saved. */
  lemma {:induction false} ConcludedIsFinished(s: State, e: Event)
    requires Enabled(s, e) && (e.Conclude? || e.ConcludeElsewhere?) && e.writes && s.driveId != []
    requires Loaded(s.file, s.driveId).Success?
    ensures e.Conclude? && s.mem.value.healID == [] ==> Apply(s, e).file == None
    ensures !(e.Conclude? && s.mem.value.healID == []) ==>
              var was, r := Loaded(s.file, s.driveId).t, Loaded(Apply(s, e).file, s.driveId);
              r.Success? && r.t.finished && r.t.healID == was.healID && r.t.healedBuckets == was.healedBuckets &&
              r.t.itemsFailed == was.itemsFailed && r.t.retryAttempts == was.retryAttempts
  {
    var was := Loaded(s.file, s.driveId).t;
    var t := Marked(s, was, e.lookup, e.now);
    LoadedId(s.file, s.driveId);
    assert t.id == s.driveId && t.finished && t.healedBuckets == was.healedBuckets && t.itemsFailed == was.itemsFailed;
    assert t.retryAttempts == was.retryAttempts && t.healID == was.healID;
    hide Loaded, Encode, EncodableTracker, Marked;
    if CanMark(s, Loaded(s.file, s.driveId), e.lookup, e.now) {
      LoadRestoresSaved(t, s.driveId);
    }
  }

  lemma {:induction false} LoadedId(file: Option<bytes>, driveId: bytes)
    ensures Loaded(file, driveId).Success? ==> Loaded(file, driveId).t.id == driveId
  {
  }

  // ---- how often a drive is healed ----

  predicate CompletesPass(e: Event) {
    e.Retry? || e.Conclude?
  }

  /** The completed passes of a run. */
  function Passes(events: seq<Event>): nat {
    if events == [] then 0
    else Passes(events[..|events| - 1]) + if CompletesPass(events[|events| - 1]) then 1 else 0
  }

  predicate NotConcluded(events: seq<Event>) {
    forall i :: 0 <= i < |events| ==> !events[i].Conclude?
  }

  lemma {:induction false} PassesAreRetries(start: State, events: seq<Event>)
    requires After(start, events).Some? && NotConcluded(events)
    ensures LedgerAfter(start, events).retries == Passes(events)
  {
    hide Apply, Enabled, Note;
    if events != [] {
      var init := events[..|events| - 1];
      PassesAreRetries(start, init);
      NoteRetries(LedgerAfter(start, init), After(start, init).value, events[|events| - 1]);
    }
  }

  lemma {:induction false} NoteRetries(l: Ledger, s: State, e: Event)
    requires Enabled(s, e) && !e.Conclude?
    ensures Note(l, s, e).retries == l.retries + if CompletesPass(e) then 1 else 0
  {
    hide MarkedCopy, Updated, Stamped, Retried, Loaded, EncodableTracker, CanMark;
  }

  lemma {:induction false} ConcludesAt(s: State, l: Ledger, e: Event)
    requires Inv(s, l) && Enabled(s, e) && e.Conclude?
    ensures s.mem.Some? && (s.mem.value.itemsFailed > 0 ==> s.mem.value.retryAttempts == MAX_RETRIES)
  {
    hide IsCopy, ShowsBooks, QueueMatches, CanMark, Loaded;
  }

  /**
   * The pass after which a drive is finished is the fifth at most, apart from the retries whose new count of attempts
   * could not be saved; and if it leaves failed items, all attempts are used up.
   */
  lemma {:induction false} PassesBounded(start: State, events: seq<Event>)
    requires Fresh(start) && After(start, events).Some?
    requires events != [] && events[|events| - 1].Conclude? && NotConcluded(events[..|events| - 1])
    ensures var init := events[..|events| - 1]; var s := After(start, init);
            s.Some? && s.value.mem.Some? &&
            Passes(events) <= 5 + LedgerAfter(start, init).unsaved &&
            (s.value.mem.value.itemsFailed > 0 ==> s.value.mem.value.retryAttempts == 4)
  {
    hide Apply, Enabled, Inv, LedgerAfter;
    var init := events[..|events| - 1];
    RetriesBounded(start, init);
    PassesAreRetries(start, init);
    RunKeeps(start, init);
    ConcludesAt(After(start, init).value, LedgerAfter(start, init), events[|events| - 1]);
  }

  /** Every bucket of the list that is worked on is queued or healed, and not both. */
  lemma InExactlyOneList(start: State, events: seq<Event>, name: bytes)
    requires Fresh(start) && After(start, events).Some? && After(start, events).value.mem.Some?
    requires LedgerAfter(start, events).mem.names.Some? && name in LedgerAfter(start, events).mem.names.value
    ensures var t := After(start, events).value.mem.value;
            name in t.queuedBuckets <==> name !in t.healedBuckets
  {
    RunKeeps(start, events);
    var t := After(start, events).value.mem.value;
    var names := LedgerAfter(start, events).mem.names.value;
    PendingElements(names, 0, t.healedBuckets, name);
    assert names[0..] == names;
    hide After, LedgerAfter, ShowsBooks, Pending, Encode;
  }
}
