/**
 * What is done with one drive: a pass over the buckets that are not healed yet, and then another one or the end
 * (cmd/background-newdisks-heal-ops.go).
 */
module DriveHeal {
  import opened Bytes
  import opened MsgPack
  import opened TrackerFields
  import opened TrackerCodec
  import opened BucketQueue
  import opened HealingTracker
  import TrackerRuns
  import opened HealReports
  import opened HealPass

  datatype Result =
    | Unsaved                        // the tracker could not be saved: no pass
    | PassFailed(outcome: Outcome)
    | Again                          // items failed: the drive is healed again later
    | Concluding                     // the drive is finished

  // ---- what a pass leaves as it is ----

  predicate SameDrive(t: Tracker, u: Tracker) {
    t.id == u.id && t.path == u.path && t.endpoint == u.endpoint && t.healID == u.healID &&
    t.retryAttempts == u.retryAttempts
  }

  lemma {:induction false} StepSameDrive(s: Pass, e: Step)
    requires Enabled(s, e)
    ensures SameDrive(Apply(s, e).t, s.t)
  {
    hide Sweep, Panics, ItemsIn;
  }

  lemma {:induction false} RunSameDrive(t: Tracker, base: TrackerRuns.Books, steps: seq<Step>)
    requires After(Start(t, base), steps).Some?
    ensures SameDrive(After(Start(t, base), steps).value.t, t)
  {
    if steps != [] {
      var init := steps[..|steps| - 1];
      RunSameDrive(t, base, init);
      StepSameDrive(After(Start(t, base), init).value, steps[|steps| - 1]);
      hide Apply, Enabled;
    }
  }

  // ---- failed items ----

  predicate Fails(items: seq<TrackerRuns.Item>) {
    exists i :: 0 <= i < |items| && items[i].Class() == TrackerRuns.FailedItem
  }

  lemma {:induction false} FailsCount(items: seq<TrackerRuns.Item>)
    ensures Fails(items) <==> TrackerRuns.CountOf(items, TrackerRuns.FailedItem) > 0
    ensures TrackerRuns.CountOf(items, TrackerRuns.FailedItem) <= |items|
  {
    if items != [] {
      var n := |items| - 1;
      FailsCount(items[..n]);
      if i :| 0 <= i < |items| && items[i].Class() == TrackerRuns.FailedItem {
        assert i < n ==> items[..n][i].Class() == TrackerRuns.FailedItem;
      }
      if i :| 0 <= i < n && items[..n][i].Class() == TrackerRuns.FailedItem {
        assert items[i].Class() == TrackerRuns.FailedItem;
      }
    }
  }

  /** The items that the counters show at the end of a pass. */
  function ShownItems(s: Pass): seq<TrackerRuns.Item> {
    Shown(s).items.now
  }

  /**
   * Whether another pass follows, after a pass in which an item failed: not exactly if all attempts are used up, or
   * none of the failed items is left in the counters. (There are fewer than 2^64 items.)
   */
  lemma {:induction false} ConcludesExactly(t: Tracker, base: TrackerRuns.Books, steps: seq<Step>)
    requires TrackerRuns.ShowsBooks(t, base) && After(Start(t, base), steps).Some?
    requires |ShownItems(After(Start(t, base), steps).value)| < CAP8
    ensures var s := After(Start(t, base), steps).value;
            !TrackerRuns.RetriesAgain(s.t) <==>
            t.retryAttempts >= TrackerRuns.MAX_RETRIES || !Fails(ShownItems(s))
  {
    RunShows(t, base, steps);
    RunSameDrive(t, base, steps);
    var s := After(Start(t, base), steps).value;
    CounterTells(s);
    hide *;
    assert TrackerRuns.RetriesAgain(s.t) <==> s.t.itemsFailed > 0 && s.t.retryAttempts < TrackerRuns.MAX_RETRIES by {
      RetriesAgainMeans(s.t);
    }
    SameAttempts(s.t, t);
  }

  lemma RetriesAgainMeans(t: Tracker)
    ensures TrackerRuns.RetriesAgain(t) <==> t.itemsFailed > 0 && t.retryAttempts < TrackerRuns.MAX_RETRIES
  {
  }

  lemma SameAttempts(t: Tracker, u: Tracker)
    requires SameDrive(t, u)
    ensures t.retryAttempts == u.retryAttempts
  {
  }

  /** The counter of failed items is not zero exactly if there are some. */
  lemma {:induction false} CounterTells(s: Pass)
    requires TrackerRuns.ShowsBooks(s.t, Shown(s)) && |ShownItems(s)| < CAP8
    ensures s.t.itemsFailed > 0 <==> Fails(ShownItems(s))
  {
    var items := ShownItems(s);
    var n := TrackerRuns.CountOf(items, TrackerRuns.FailedItem);
    FailsCount(items);
    assert s.t.itemsFailed == n % CAP8;
    hide *;
    assert n % CAP8 == n;
  }

  lemma {:induction false} SentShown(s: Pass)
    requires s.mine.now == s.sent && Fails(s.sent)
    ensures Fails(ShownItems(s))
  {
    var i :| 0 <= i < |s.sent| && s.sent[i].Class() == TrackerRuns.FailedItem;
    assert ShownItems(s)[|s.base.items.now| + i] == s.sent[i];
  }

  /** If all reports of a pass count, a drive with a failed item is finished exactly if all attempts are used up. */
  lemma {:induction false} ConcludesOnTime(t: Tracker, base: TrackerRuns.Books, steps: seq<Step>)
    requires TrackerRuns.ShowsBooks(t, base) && After(Start(t, base), steps).Some?
    requires var s := After(Start(t, base), steps).value;
             |ShownItems(s)| < CAP8 && s.mine.now == s.sent && Fails(s.sent)
    ensures !TrackerRuns.RetriesAgain(After(Start(t, base), steps).value.t) <==>
            t.retryAttempts >= TrackerRuns.MAX_RETRIES
  {
    ConcludesExactly(t, base, steps);
    SentShown(After(Start(t, base), steps).value);
    hide *;
  }

  /** The run in which a failed item is forgotten ends with a finished drive, whatever the number of attempts. */
  lemma {:induction false} ForgottenConcludes(t: Tracker, a: bytes, b: bytes, i: TrackerRuns.Item)
    returns (steps: seq<Step>)
    requires t.queuedBuckets == [a, b] && a != [] && b != [] && a != b && t.bucket == [] && t.itemsFailed == 0
    requires i.Class() == TrackerRuns.FailedItem
    ensures After(Start(t, TrackerRuns.NOTHING), steps).Some?
    ensures var s := After(Start(t, TrackerRuns.NOTHING), steps).value;
            Fails(s.sent) && s.t.queuedBuckets == [] && !TrackerRuns.RetriesAgain(s.t)
  {
    steps := LateReportVanishes(t, a, b, i);
    var s := After(Start(t, TrackerRuns.NOTHING), steps).value;
    assert s.sent[0].Class() == TrackerRuns.FailedItem;
    hide After, NoGiveUp;
  }

  // ---- the drive ----

  /** The queue is the names that are not healed, in the order of the names. */
  ghost predicate QueueIs(queue: seq<bytes>, names: seq<bytes>, healed: seq<bytes>) {
    (forall x :: x in queue <==> x in names && x !in healed) && exists at :: Subsequence(queue, names, at)
  }

  /** Nothing but location, totals, queue and time of p is other than in t. */
  predicate OnlyPrepared(t: Tracker, p: Tracker) {
    t == p.(poolIndex := t.poolIndex, setIndex := t.setIndex, diskIndex := t.diskIndex, lastUpdate := t.lastUpdate,
            objectsTotalCount := t.objectsTotalCount, objectsTotalSize := t.objectsTotalSize,
            queuedBuckets := t.queuedBuckets)
  }

  /** The tracker with which a pass starts. */
  function Prepared(t: Tracker, at: Location, totals: Option<(uint64, uint64)>, names: seq<bytes>,
                    lookup: Option<Location>, now: Instant)
    : Tracker
  {
    var u := if totals.Some? then t.(objectsTotalCount := totals.value.0, objectsTotalSize := totals.value.1) else t;
    Stamped(Listed(Located(u, at), names), lookup, now)
  }

  /** What the environment does at each bucket of a queue. */
  function Along<T>(names: seq<bytes>, f: bytes -> T): (r: seq<T>)
    ensures |r| == |names|
    ensures forall i :: 0 <= i < |names| ==> r[i] == f(names[i])
  {
    seq(|names|, i requires 0 <= i < |names| => f(names[i]))
  }

  lemma {:induction false} PreparedQueue(t: Tracker, at: Location, totals: Option<(uint64, uint64)>,
                                         names: seq<bytes>, lookup: Option<Location>, now: Instant)
    requires Distinct(names) && forall x :: x in names ==> x != []
    ensures var p := Prepared(t, at, totals, names, lookup, now);
            Distinct(p.queuedBuckets) && (forall x :: x in p.queuedBuckets ==> x != [] && x !in p.healedBuckets) &&
            SameDrive(p, t)
    ensures var p := Prepared(t, at, totals, names, lookup, now);
            QueueIs(p.queuedBuckets, names, t.healedBuckets) && p.healedBuckets == t.healedBuckets && OnlyPrepared(t, p)
  {
    PendingDistinct(names, 0, t.healedBuckets);
    var positions := PendingInOrder(names, 0, t.healedBuckets);
    forall x ensures x in Pending(names, 0, t.healedBuckets) <==> x in names && x !in t.healedBuckets {
      PendingElements(names, 0, t.healedBuckets, x);
      assert names[0..] == names;
    }
    hide Pending, Distinct;
  }

  /** A tracker that is cleared for another pass can be saved. */
  lemma {:induction false} AgainEncodable(t: Tracker, p: Tracker, n: nat)
    requires EncodableTracker(p) && SameDrive(t, p) && n <= |p.queuedBuckets| && t.queuedBuckets == p.queuedBuckets[n..]
    ensures EncodableTracker(TrackerRuns.Retried(t))
  {
  }

  /** What became of a visit with tracker p, when the steps are those of its pass. */
  ghost predicate Visited(p: Tracker, base: TrackerRuns.Books, plan: bytes -> Fate, lag: bytes -> nat,
                          steps: seq<Step>, r: Result) {
    var fates, lags := Along(p.queuedBuckets, plan), Along(p.queuedBuckets, lag);
    var outcome, s := OutcomeFrom(fates, 0, false), After(Start(p, base), steps);
    s.Some? && s.value.sent == ItemsFrom(fates, 0, false) &&
    r == (if !NoError(outcome) then PassFailed(outcome)
          else if TrackerRuns.RetriesAgain(s.value.t) then Again else Concluding) &&
    (outcome == AllHealed ==> (s.value.mine.now == s.value.sent <==> NoneLate(fates, lags, |fates|)))
  }

  /**
   * After a pass without an error a drive is finished exactly if all attempts are used up, or no failed item is left in
   * the counters. (There are fewer than 2^64 items.)
   */
  lemma {:induction false} VisitConcludesExactly(p: Tracker, base: TrackerRuns.Books, plan: bytes -> Fate,
                                                 lag: bytes -> nat, steps: seq<Step>, r: Result)
    requires Visited(p, base, plan, lag, steps, r) && !r.PassFailed? && TrackerRuns.ShowsBooks(p, base)
    requires |ShownItems(After(Start(p, base), steps).value)| < CAP8
    ensures r == Concluding <==>
            p.retryAttempts >= TrackerRuns.MAX_RETRIES || !Fails(ShownItems(After(Start(p, base), steps).value))
  {
    ConcludesExactly(p, base, steps);
    hide After, Fails, ItemsFrom, NoneLate, OutcomeFrom, TrackerRuns.ShowsBooks, ShownItems;
  }

  /**
   * If every bucket was healed, some item failed and none was counted between one bucket and the next, the drive is
   * finished exactly if all attempts are used up.
   */
  lemma {:induction false} FailedConcludesExactly(p: Tracker, base: TrackerRuns.Books, plan: bytes -> Fate,
                                                  lag: bytes -> nat, steps: seq<Step>, r: Result)
    requires Visited(p, base, plan, lag, steps, r) && TrackerRuns.ShowsBooks(p, base)
    requires |ShownItems(After(Start(p, base), steps).value)| < CAP8
    requires var fates := Along(p.queuedBuckets, plan);
             OutcomeFrom(fates, 0, false) == AllHealed && Fails(ItemsFrom(fates, 0, false)) &&
             NoneLate(fates, Along(p.queuedBuckets, lag), |fates|)
    ensures r == Concluding <==> p.retryAttempts >= TrackerRuns.MAX_RETRIES
  {
    ConcludesOnTime(p, base, steps);
    hide After, Fails, ItemsFrom, NoneLate, OutcomeFrom, TrackerRuns.ShowsBooks, ShownItems;
  }

  /**
   * One visit to a drive: the tracker is saved with its queue, the pass takes place, and if items failed it is cleared
   * for another one.
   */
  method HealDrive(tracker: HealingTracker, drive: Drive, totals: Option<(uint64, uint64)>, names: seq<bytes>,
                   plan: bytes -> Fate, lag: bytes -> nat, lookup: Option<Location>, now: Instant, writes: bool,
                   again: Instant, rewrites: bool, ghost base: TrackerRuns.Books)
    returns (r: Result, ghost p: Tracker, ghost steps: seq<Step>)
    requires Distinct(names) && (forall x :: x in names ==> x != []) && |drive.id| < CAP4
    requires EncodableTracker(Prepared(tracker.h, drive.location, totals, names, lookup, now))
    modifies tracker, drive
    ensures forall x :: x in p.queuedBuckets <==> x in names && x !in old(tracker.h.healedBuckets)
    ensures exists at :: Subsequence(p.queuedBuckets, names, at)
    ensures p.healedBuckets == old(tracker.h.healedBuckets) && p.lastUpdate == now
    ensures 0 <= drive.location.0 && 0 <= drive.location.1 && 0 <= drive.location.2 ==>
              (p.poolIndex, p.setIndex, p.diskIndex) == drive.location
    ensures (p.objectsTotalCount, p.objectsTotalSize) ==
            if totals.Some? then totals.value
            else (old(tracker.h).objectsTotalCount, old(tracker.h).objectsTotalSize)
    ensures OnlyPrepared(old(tracker.h), p)
    ensures p == Prepared(old(tracker.h), drive.location, totals, names, lookup, now)
    ensures r == Unsaved <==> !writes
    ensures writes ==> Visited(p, base, plan, lag, steps, r)
    ensures r == Again ==> tracker.h.retryAttempts == p.retryAttempts + 1 && tracker.h.healedBuckets == []
    ensures r == Again && rewrites ==> EncodableTracker(tracker.h) && drive.file == Some(Encode(tracker.h))
    ensures r == Concluding && OutcomeFrom(Along(p.queuedBuckets, plan), 0, false) == AllHealed ==>
              tracker.h.queuedBuckets == [] && forall x :: x in names ==> x in tracker.h.healedBuckets
  {
    PreparedQueue(tracker.h, drive.location, totals, names, lookup, now);
    steps := [];
    var saved;
    saved, p := SaveQueue(tracker, drive, totals, names, lookup, now, writes);
    if !saved {
      return Unsaved, p, steps;
    }
    hide Prepared, Distinct, EncodableTracker, OutcomeFrom, ItemsFrom, NoneLate, After, GoodOnes, NoneReceivedLate;
    hide TrackerRuns.Retried, Encode, Plus, Stamped, Identified, NoGiveUp;
    var fates, lags := Along(tracker.h.queuedBuckets, plan), Along(tracker.h.queuedBuckets, lag);
    var outcome;
    outcome, steps := HealErasureSet(tracker, fates, lags, base);
    if !NoError(outcome) {
      return PassFailed(outcome), p, steps;
    }
    if tracker.h.itemsFailed > 0 && tracker.h.retryAttempts < TrackerRuns.MAX_RETRIES {
      RunSameDrive(p, base, steps);
      AgainEncodable(tracker.h, p, GoodOnes(fates, 0));
      ClearAgain(tracker, drive, lookup, again, rewrites);
      return Again, p, steps;
    }
    return Concluding, p, steps;
  }

  /** The location, the totals and the queue are filled in, and the tracker is saved. */
  method SaveQueue(tracker: HealingTracker, drive: Drive, totals: Option<(uint64, uint64)>, names: seq<bytes>,
                   lookup: Option<Location>, now: Instant, writes: bool)
    returns (ok: bool, ghost p: Tracker)
    requires EncodableTracker(Prepared(tracker.h, drive.location, totals, names, lookup, now))
    modifies tracker, drive
    ensures forall x :: x in p.queuedBuckets <==> x in names && x !in old(tracker.h.healedBuckets)
    ensures exists at :: Subsequence(p.queuedBuckets, names, at)
    ensures p.healedBuckets == old(tracker.h.healedBuckets) && p.lastUpdate == now
    ensures 0 <= drive.location.0 && 0 <= drive.location.1 && 0 <= drive.location.2 ==>
              (p.poolIndex, p.setIndex, p.diskIndex) == drive.location
    ensures (p.objectsTotalCount, p.objectsTotalSize) ==
            if totals.Some? then totals.value
            else (old(tracker.h).objectsTotalCount, old(tracker.h).objectsTotalSize)
    ensures OnlyPrepared(old(tracker.h), p)
    ensures p == Prepared(old(tracker.h), drive.location, totals, names, lookup, now) && tracker.h == p
    ensures ok == writes && drive.file == if writes then Some(Encode(p)) else old(drive.file)
  {
    p := Prepared(tracker.h, drive.location, totals, names, lookup, now);
    if totals.Some? {
      tracker.h := tracker.h.(objectsTotalCount := totals.value.0);
      tracker.h := tracker.h.(objectsTotalSize := totals.value.1);
    }
    tracker.h := tracker.h.(poolIndex := drive.location.0, setIndex := drive.location.1, diskIndex := drive.location.2);
    tracker.SetQueuedBuckets(names);
    hide Encode, Pending;
    ok := tracker.Save(drive, lookup, now, writes);
  }

  /** One more attempt: the counters and the healed buckets are cleared. */
  method ClearAgain(tracker: HealingTracker, drive: Drive, lookup: Option<Location>, now: Instant, writes: bool)
    requires EncodableTracker(TrackerRuns.Retried(tracker.h)) && |drive.id| < CAP4
    requires tracker.h.retryAttempts < TrackerRuns.MAX_RETRIES
    modifies tracker, drive
    ensures tracker.h == Stamped(Identified(TrackerRuns.Retried(old(tracker.h)), drive.id, drive.location), lookup, now)
    ensures tracker.h.retryAttempts == old(tracker.h.retryAttempts) + 1 && tracker.h.healedBuckets == []
    ensures EncodableTracker(tracker.h)
    ensures drive.file == if writes then Some(Encode(tracker.h)) else old(drive.file)
  {
    tracker.h := tracker.h.(retryAttempts := Plus(tracker.h.retryAttempts, 1));
    tracker.ResetHealing();
    hide Encode;
    var ok := tracker.Update(drive, lookup, now, writes);
  }
}
