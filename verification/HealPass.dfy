/** One pass over the buckets of an erasure set that heals a drive (cmd/global-heal.go). */
module HealPass {
  import opened Bytes
  import opened TrackerFields
  import opened BucketQueue
  import opened HealingTracker
  import TrackerRuns
  import opened HealReports

  /** While the workers of a bucket are about: one of them sends, or the draining goroutine receives if it can. */
  datatype Move = Put(report: Report) | Get

  /** What the storage makes of one bucket. */
  datatype Fate =
    | BucketFails     // the bucket or its configuration cannot be healed or read
    | AllHealing      // every drive of the set was reformatted
    | TooFewDrives
    | Scanned(moves: seq<Move>, complete: bool, cancelled: bool)

  datatype Outcome = AllHealed | SetIsHealing | Trouble | NotEnoughDrives | Cancelled | NotAllHealed

  /** The program returns no error for both. */
  predicate NoError(o: Outcome) {
    o == AllHealed || o == SetIsHealing
  }

  predicate Good(f: Fate) {
    f.Scanned? && f.complete && !f.cancelled
  }

  // ---- the outcome of a pass ----

  /** The outcome from the i-th bucket on; `trouble` if an earlier one was not healed. */
  function OutcomeFrom(fates: seq<Fate>, i: nat, trouble: bool): Outcome
    requires i <= |fates|
    decreases |fates| - i
  {
    if i == |fates| then (if trouble then Trouble else AllHealed)
    else match fates[i]
      case BucketFails => OutcomeFrom(fates, i + 1, true)
      case AllHealing => SetIsHealing
      case TooFewDrives => NotEnoughDrives
      case Scanned(_, complete, cancelled) =>
        if trouble || !complete then OutcomeFrom(fates, i + 1, true)
        else if cancelled then Cancelled
        else OutcomeFrom(fates, i + 1, false)
  }

  predicate AllGood(fates: seq<Fate>) {
    GoodBefore(fates, |fates|)
  }

  predicate GoodBefore(fates: seq<Fate>, i: nat)
    requires i <= |fates|
  {
    forall j :: 0 <= j < i ==> Good(fates[j])
  }

  /** The pass ends at the i-th bucket, if it comes so far. */
  predicate EndsAt(fates: seq<Fate>, i: nat)
    requires i < |fates|
  {
    fates[i].AllHealing? || fates[i].TooFewDrives? ||
    (fates[i].Scanned? && fates[i].complete && fates[i].cancelled && GoodBefore(fates, i))
  }

  /** The first bucket that ends the pass finds all drives healing. */
  predicate FoundHealing(fates: seq<Fate>, i: nat)
    requires i < |fates|
  {
    fates[i].AllHealing? && forall j :: 0 <= j < i ==> !EndsAt(fates, j)
  }

  lemma {:induction false} NoErrorFrom(fates: seq<Fate>, i: nat, trouble: bool)
    requires i <= |fates| && (trouble <==> !GoodBefore(fates, i)) && forall j :: 0 <= j < i ==> !EndsAt(fates, j)
    ensures OutcomeFrom(fates, i, trouble) == AllHealed <==> AllGood(fates)
    ensures OutcomeFrom(fates, i, trouble) == SetIsHealing <==> exists k :: 0 <= k < |fates| && FoundHealing(fates, k)
    decreases |fates| - i
  {
    if i == |fates| {
      forall k | 0 <= k < |fates| ensures !FoundHealing(fates, k) {
        assert !EndsAt(fates, k);
      }
    } else if EndsAt(fates, i) {
      assert FoundHealing(fates, i) <==> fates[i].AllHealing?;
      forall k | 0 <= k < |fates| && FoundHealing(fates, k) ensures k == i {
        assert EndsAt(fates, k);
      }
      assert !Good(fates[i]);
    } else {
      NoErrorFrom(fates, i + 1, !GoodBefore(fates, i + 1));
    }
  }

  /**
   * A pass returns no error exactly if every bucket was healed, or the first bucket that ends it finds all drives
   * healing.
   */
  lemma NoErrorExactly(fates: seq<Fate>)
    ensures NoError(OutcomeFrom(fates, 0, false)) <==>
            AllGood(fates) || exists k :: 0 <= k < |fates| && FoundHealing(fates, k)
  {
    NoErrorFrom(fates, 0, false);
  }

  /** An error of an earlier bucket is swallowed that way. */
  lemma ErrorSwallowed()
    ensures var fates := [BucketFails, AllHealing];
            !AllGood(fates) && FoundHealing(fates, 1) && NoError(OutcomeFrom(fates, 0, false))
  {
    var fates := [BucketFails, AllHealing];
    assert !Good(fates[0]) && !EndsAt(fates, 0);
    assert OutcomeFrom(fates, 0, false) == OutcomeFrom(fates, 1, true);
  }

  /** How many buckets are healed before the first that is not. */
  function GoodOnes(fates: seq<Fate>, i: nat): (n: nat)
    requires i <= |fates|
    ensures i + n <= |fates|
    decreases |fates| - i
  {
    if i == |fates| || !Good(fates[i]) then 0 else 1 + GoodOnes(fates, i + 1)
  }

  lemma {:induction false} GoodOnesSplit(fates: seq<Fate>, i: nat)
    requires i <= |fates| && GoodBefore(fates, i)
    ensures GoodOnes(fates, 0) == i + GoodOnes(fates, i)
  {
    if i > 0 {
      GoodOnesSplit(fates, i - 1);
    }
  }

  /** They are the buckets before the first that was not healed, or all. */
  lemma {:induction false} GoodOnesExactly(fates: seq<Fate>, n: nat)
    requires n <= |fates| && forall k :: 0 <= k < n ==> fates[k].Scanned? && fates[k].complete && !fates[k].cancelled
    requires n < |fates| ==> !fates[n].Scanned? || !fates[n].complete || fates[n].cancelled
    ensures GoodOnes(fates, 0) == n
  {
    GoodOnesSplit(fates, n);
  }

  /** The n-th bucket is the first that ends the pass, or no bucket does. */
  predicate FirstEnd(fates: seq<Fate>, n: nat) {
    n <= |fates| && (forall j :: 0 <= j < n ==> !EndsAt(fates, j)) && (n < |fates| ==> EndsAt(fates, n))
  }

  /** The outcome by the bucket that ends the pass. */
  lemma {:induction false} OutcomeExactly(fates: seq<Fate>, i: nat, n: nat)
    requires FirstEnd(fates, n) && i <= n
    ensures OutcomeFrom(fates, i, !GoodBefore(fates, i)) ==
            if n == |fates| then (if AllGood(fates) then AllHealed else Trouble)
            else if fates[n].AllHealing? then SetIsHealing
            else if fates[n].TooFewDrives? then NotEnoughDrives
            else Cancelled
    decreases n - i
  {
    if i < n {
      OutcomeExactly(fates, i + 1, n);
      assert !EndsAt(fates, i);
    }
  }

  // ---- the queue over a pass ----

  lemma {:induction false} SweepAbsent(q: seq<bytes>, i: nat, x: bytes)
    requires i <= |q| && forall k :: i <= k < |q| ==> q[k] != x
    ensures Sweep(q, i, x) == q[i..]
    decreases |q| - i
  {
    if i < |q| {
      SweepAbsent(q, i + 1, x);
    }
  }

  lemma SweepHead(q: seq<bytes>)
    requires q != [] && Distinct(q)
    ensures Sweep(q, 0, q[0]) == q[1..] && !Panics(q, q[0])
  {
    if |q| > 1 {
      SweepAbsent(q, 2, q[0]);
    }
  }

  /** The bucket behind the healed ones is taken off the queue. */
  lemma NextDone(buckets: seq<bytes>, n: nat)
    requires n < |buckets| && Distinct(buckets)
    ensures !Panics(buckets[n..], buckets[n]) && Sweep(buckets[n..], 0, buckets[n]) == buckets[n + 1..]
  {
    SweepHead(buckets[n..]);
  }

  /** Where the pass stands after i buckets, n of them healed. */
  ghost predicate Stands(t: Tracker, healed: seq<bytes>, buckets: seq<bytes>, fates: seq<Fate>, i: nat, n: nat,
                         trouble: bool)
    requires n <= |buckets| == |fates| && i <= |fates|
  {
    t.healedBuckets == healed + buckets[..n] && t.queuedBuckets == buckets[n..] &&
    if trouble then n == GoodOnes(fates, 0) && n < i && !Good(fates[n])
    else n == i && GoodBefore(fates, i)
  }

  /** The next bucket of a pass over distinct ones is not healed yet, and can be taken off the queue. */
  lemma NotYetHealed(t: Tracker, healed: seq<bytes>, buckets: seq<bytes>, fates: seq<Fate>, i: nat, n: nat,
                     trouble: bool)
    requires n <= i < |buckets| == |fates| && Stands(t, healed, buckets, fates, i, n, trouble)
    requires Distinct(buckets) && forall x :: x in buckets ==> x !in healed
    ensures buckets[i] !in t.healedBuckets && !Panics(t.queuedBuckets, buckets[i])
  {
  }

  /** One bucket of the pass. */
  lemma StandsStep(t: Tracker, u: Tracker, healed: seq<bytes>, buckets: seq<bytes>, fates: seq<Fate>, i: nat, n: nat,
                   trouble: bool, trouble': bool)
    requires n <= i < |buckets| == |fates| && Stands(t, healed, buckets, fates, i, n, trouble) && Distinct(buckets)
    requires var done := !trouble && Good(fates[i]);
             u.healedBuckets == t.healedBuckets + (if done then [buckets[i]] else []) &&
             u.queuedBuckets == if done then Sweep(t.queuedBuckets, 0, buckets[i]) else t.queuedBuckets
    requires trouble' == (trouble || fates[i].BucketFails? || (fates[i].Scanned? && !fates[i].complete))
    ensures !trouble && Good(fates[i]) ==> Stands(u, healed, buckets, fates, i + 1, n + 1, trouble')
    ensures trouble' ==> Stands(u, healed, buckets, fates, i + 1, n, trouble')
    ensures !Good(fates[i]) ==>
              n == GoodOnes(fates, 0) && u.healedBuckets == healed + buckets[..n] && u.queuedBuckets == buckets[n..]
  {
    hide Sweep, Panics, Distinct;
    if !trouble {
      GoodOnesSplit(fates, i);
    }
    if !trouble && Good(fates[i]) {
      NextDone(buckets, n);
      assert buckets[..n + 1] == buckets[..n] + [buckets[n]];
      Associative(healed, buckets[..n], [buckets[n]]);
    } else {
      assert t.healedBuckets + [] == t.healedBuckets;
    }
  }

  lemma PassEnd(t: Tracker, healed: seq<bytes>, buckets: seq<bytes>, fates: seq<Fate>, n: nat, trouble: bool)
    requires n <= |buckets| == |fates|
    requires t.healedBuckets == healed + buckets[..n] && t.queuedBuckets == buckets[n..]
    requires if trouble then n == GoodOnes(fates, 0) && n < |fates| && !Good(fates[n])
             else n == |fates| && AllGood(fates)
    ensures n == GoodOnes(fates, 0) && (trouble <==> !AllGood(fates)) && (!trouble ==> t.queuedBuckets == [])
  {
    if !trouble {
      GoodOnesSplit(fates, |fates|);
    }
  }

  // ---- the channel ----

  /** The reports on their way after a move; on a full channel a worker waits until one was received. */
  function AfterMove(channel: seq<Report>, m: Move): seq<Report> {
    match m
    case Put(r) => (if |channel| == UNCOUNTED then channel[1..] else channel) + [r]
    case Get => if channel == [] then [] else channel[1..]
  }

  function AfterMoves(channel: seq<Report>, moves: seq<Move>): seq<Report> {
    if moves == [] then channel else AfterMove(AfterMoves(channel, moves[..|moves| - 1]), moves[|moves| - 1])
  }

  /** The reports that the workers send. */
  function Reports(moves: seq<Move>): seq<Report> {
    if moves == [] then []
    else Reports(moves[..|moves| - 1]) + if moves[|moves| - 1].Put? then [moves[|moves| - 1].report] else []
  }

  /** The reports sent are those of the moves in which a worker sends, in order. */
  lemma {:induction false} ReportsConcat(a: seq<Move>, b: seq<Move>)
    ensures Reports(a + b) == Reports(a) + Reports(b)
    ensures Reports([Get]) == [] && forall r :: Reports([Put(r)]) == [r]
  {
    assert forall m: Move :: [m][..0] == [];
    if b == [] {
      assert a + b == a;
    } else {
      assert (a + b)[..|a + b| - 1] == a + b[..|b| - 1];
      ReportsConcat(a, b[..|b| - 1]);
    }
  }

  /** What is pending after some moves is what the moves make of it one after the other. */
  lemma {:induction false} MovesConcat(channel: seq<Report>, a: seq<Move>, b: seq<Move>)
    ensures AfterMoves(channel, a + b) == AfterMoves(AfterMoves(channel, a), b)
    ensures forall m :: AfterMoves(channel, [m]) == AfterMove(channel, m)
  {
    assert forall m: Move :: [m][..0] == [];
    hide AfterMove;
    if b == [] {
      assert a + b == a;
    } else {
      assert (a + b)[..|a + b| - 1] == a + b[..|b| - 1];
      MovesConcat(channel, a, b[..|b| - 1]);
    }
  }

  /** The workers of a bucket are only started if it comes so far. */
  function MovesOf(f: Fate): seq<Move> {
    if f.Scanned? then f.moves else []
  }

  /** The items that are reported from the i-th bucket on, up to the bucket that ends the pass. */
  function ItemsFrom(fates: seq<Fate>, i: nat, trouble: bool): seq<TrackerRuns.Item>
    requires i <= |fates|
    decreases |fates| - i
  {
    if i == |fates| || fates[i].AllHealing? || fates[i].TooFewDrives? then []
    else
      var trouble' := trouble || Troubles(fates[i]);
      ItemsIn(Reports(MovesOf(fates[i]))) +
      if !trouble' && fates[i].cancelled then [] else ItemsFrom(fates, i + 1, trouble')
  }

  /** All moves of the buckets from the i-th up to the n-th. */
  function AllMoves(fates: seq<Fate>, i: nat, n: nat): seq<Move>
    requires i <= n <= |fates|
    decreases n - i
  {
    if i == n then [] else (if fates[i].Scanned? then fates[i].moves else []) + AllMoves(fates, i + 1, n)
  }

  lemma {:induction false} ItemsOfNext(fates: seq<Fate>, i: nat)
    requires i < |fates|
    ensures ItemsFrom(fates, i, !GoodBefore(fates, i)) ==
            if EndsAt(fates, i) then ItemsIn(Reports(MovesOf(fates[i])))
            else ItemsIn(Reports(MovesOf(fates[i]))) + ItemsFrom(fates, i + 1, !GoodBefore(fates, i + 1))
  {
    assert Reports([]) == [] && ItemsIn([]) == [];
    hide Reports, ItemsIn;
  }

  lemma {:induction false} ItemsOfMoves(fates: seq<Fate>, i: nat, n: nat)
    requires i < n <= |fates|
    ensures ItemsIn(Reports(AllMoves(fates, i, n))) ==
            ItemsIn(Reports(MovesOf(fates[i]))) + ItemsIn(Reports(AllMoves(fates, i + 1, n)))
  {
    hide Reports, ItemsIn;
    ReportsConcat(MovesOf(fates[i]), AllMoves(fates, i + 1, n));
    ItemsConcat(Reports(MovesOf(fates[i])), Reports(AllMoves(fates, i + 1, n)));
  }

  /** From the i-th bucket on, the items reported are what is sent until bucket `end`. */
  predicate SentBetween(fates: seq<Fate>, i: nat, end: nat)
    requires i <= end <= |fates|
  {
    ItemsFrom(fates, i, !GoodBefore(fates, i)) == ItemsIn(Reports(AllMoves(fates, i, end)))
  }

  lemma {:induction false} SentBetweenStep(fates: seq<Fate>, i: nat, end: nat)
    requires i < end <= |fates| && !EndsAt(fates, i) && SentBetween(fates, i + 1, end)
    ensures SentBetween(fates, i, end)
  {
    ItemsOfNext(fates, i);
    ItemsOfMoves(fates, i, end);
    hide ItemsFrom, GoodBefore, AllMoves, Reports, ItemsIn, MovesOf, EndsAt;
  }

  lemma {:induction false} SentBetweenBefore(fates: seq<Fate>, i: nat, n: nat, end: nat)
    requires i <= n <= end <= |fates| && (forall j :: 0 <= j < n ==> !EndsAt(fates, j)) && SentBetween(fates, n, end)
    ensures SentBetween(fates, i, end)
    decreases n - i
  {
    hide SentBetween, EndsAt;
    if i < n {
      SentBetweenBefore(fates, i + 1, n, end);
      SentBetweenStep(fates, i, end);
    }
  }

  lemma {:induction false} SentBetweenLast(fates: seq<Fate>, n: nat)
    requires n <= |fates| && (n < |fates| ==> EndsAt(fates, n))
    ensures SentBetween(fates, n, if n < |fates| then n + 1 else n)
  {
    assert Reports([]) == [] && ItemsIn([]) == [];
    hide Reports, ItemsIn;
    if n < |fates| {
      ItemsOfNext(fates, n);
      ItemsOfMoves(fates, n, n + 1);
    }
  }

  /** Up to the bucket that ends the pass, whatever trouble there is, everything that a worker sends is reported. */
  lemma {:induction false} EverythingReported(fates: seq<Fate>, n: nat)
    requires FirstEnd(fates, n)
    ensures n == |fates| ==> ItemsFrom(fates, 0, false) == ItemsIn(Reports(AllMoves(fates, 0, n)))
    ensures n < |fates| ==> ItemsFrom(fates, 0, false) == ItemsIn(Reports(AllMoves(fates, 0, n + 1)))
  {
    SentBetweenLast(fates, n);
    SentBetweenBefore(fates, 0, n, if n < |fates| then n + 1 else n);
    hide ItemsFrom, AllMoves, Reports, ItemsIn, EndsAt;
  }

  predicate Troubles(f: Fate) {
    f.BucketFails? || (f.Scanned? && !f.complete)
  }

  /** How many of the pending reports the draining goroutine takes if it could take n. */
  function Taken(channel: seq<Report>, n: nat): (m: nat)
    ensures m <= |channel|
  {
    if n < |channel| then n else |channel|
  }

  /** The reports pending when the workers of the i-th bucket are done, and when the next bucket begins. */
  function PendingAt(fates: seq<Fate>, lags: seq<nat>, i: nat): seq<Report>
    requires i < |fates| == |lags|
    decreases i, 1
  {
    AfterMoves(PendingBefore(fates, lags, i), MovesOf(fates[i]))
  }

  function PendingBefore(fates: seq<Fate>, lags: seq<nat>, i: nat): seq<Report>
    requires i <= |fates| == |lags|
    decreases i, 0
  {
    if i == 0 then []
    else
      var pending := PendingAt(fates, lags, i - 1);
      pending[Taken(pending, lags[i - 1])..]
  }

  /** Items that are counted after the i-th bucket is done and before the next one begins. */
  function CountedLate(fates: seq<Fate>, lags: seq<nat>, i: nat): seq<TrackerRuns.Item>
    requires i < |fates| == |lags|
  {
    var pending := PendingAt(fates, lags, i);
    ItemsIn(pending[..Taken(pending, lags[i])])
  }

  predicate NoneLate(fates: seq<Fate>, lags: seq<nat>, n: nat)
    requires n <= |fates| == |lags|
  {
    forall i :: 0 <= i < n - 1 ==> CountedLate(fates, lags, i) == []
  }

  // ---- steps of a pass ----

  /** The tracker and the channel are where these steps lead. */
  ghost predicate At(start: Pass, steps: seq<Step>, t: Tracker, channel: seq<Report>, scanning: bool) {
    var s := After(start, steps);
    s.Some? && s.value.t == t && s.value.channel == channel && s.value.scanning == scanning
  }

  ghost function SentBy(start: Pass, steps: seq<Step>): seq<TrackerRuns.Item> {
    var s := After(start, steps);
    if s.Some? then s.value.sent else []
  }

  /** The steps go on, and the workers send exactly these items. */
  ghost predicate Goes(start: Pass, steps: seq<Step>, more: seq<Step>, items: seq<TrackerRuns.Item>) {
    steps <= more && SentBy(start, more) == SentBy(start, steps) + items
  }

  /** No bucket begins, finishes or is given up; so many items are received. */
  ghost predicate Scans(steps: seq<Step>, more: seq<Step>, received: nat) {
    Recent(more) == Recent(steps) + received && (OnTime(more) <==> OnTime(steps)) &&
    (NoGiveUp(steps) ==> NoGiveUp(more))
  }

  lemma GoesOn(start: Pass, a: seq<Step>, b: seq<Step>, c: seq<Step>, x: seq<TrackerRuns.Item>,
               y: seq<TrackerRuns.Item>)
    requires Goes(start, a, b, x) && Goes(start, b, c, y)
    ensures Goes(start, a, c, x + y)
  {
    Associative(SentBy(start, a), x, y);
  }

  lemma Stays(start: Pass, steps: seq<Step>)
    ensures Goes(start, steps, steps, []) && Scans(steps, steps, 0)
  {
    assert SentBy(start, steps) + [] == SentBy(start, steps);
  }

  lemma NextStep(start: Pass, steps: seq<Step>, t: Tracker, channel: seq<Report>, scanning: bool, e: Step)
    requires At(start, steps, t, channel, scanning) && Enabled(After(start, steps).value, e)
    ensures var s := Apply(After(start, steps).value, e); At(start, steps + [e], s.t, s.channel, s.scanning)
    ensures Goes(start, steps, steps + [e], if e.Send? then ItemsIn([e.report]) else [])
    ensures NoGiveUp(steps) && !e.GiveUp? ==> NoGiveUp(steps + [e])
    ensures e.Send? || e.Receive? ==> Scans(steps, steps + [e], if ReceivesItem(e) then 1 else 0)
  {
    Extend(start, steps, e);
    OneStepMore(steps, e);
    assert SentBy(start, steps) + [] == SentBy(start, steps);
    hide After, OnTime, Recent, ItemsIn;
  }

  predicate SameBuckets(t: Tracker, u: Tracker) {
    t.queuedBuckets == u.queuedBuckets && t.healedBuckets == u.healedBuckets && t.bucket == u.bucket
  }

  /** The draining goroutine puts the report at the front into the tracker. */
  method ReceiveOne(tracker: HealingTracker, channel: seq<Report>, ghost start: Pass, ghost steps: seq<Step>,
                    ghost scanning: bool)
    returns (channel': seq<Report>, ghost steps': seq<Step>)
    requires channel != [] && At(start, steps, tracker.h, channel, scanning)
    modifies tracker
    ensures channel' == channel[1..] && At(start, steps', tracker.h, channel', scanning)
    ensures tracker.h == match channel[0]
                         case Counted(i) => Progressed(old(tracker.h), i.success, i.skipped, i.size)
                         case EntryDone(name) => old(tracker.h).(objectName := name)
    ensures steps' == steps + [Receive(channel[0])] && Goes(start, steps, steps', [])
    ensures Scans(steps, steps', |ItemsIn(channel[..1])|) && SameBuckets(tracker.h, old(tracker.h))
  {
    var r := channel[0];
    NextStep(start, steps, tracker.h, channel, scanning, Receive(r));
    ItemsOne(r);
    assert channel[..1] == [r];
    hide After, Scans, Goes, ItemsIn;
    steps' := steps + [Receive(r)];
    match r {
      case Counted(i) => tracker.UpdateProgress(i.success, i.skipped, i.size);
      case EntryDone(name) => tracker.h := tracker.h.(objectName := name);
    }
    channel' := channel[1..];
  }

  lemma OneTakenMore(channel: seq<Report>, k: nat, a: seq<Step>, b: seq<Step>, c: seq<Step>)
    requires k < |channel| && Scans(a, b, |ItemsIn(channel[..k])|) && Scans(b, c, |ItemsIn(channel[k..][..1])|)
    ensures Scans(a, c, |ItemsIn(channel[..k + 1])|)
  {
    assert channel[..k + 1] == channel[..k] + channel[k..][..1];
    ItemsConcat(channel[..k], channel[k..][..1]);
    hide Recent, OnTime, NoGiveUp, ItemsIn;
  }

  /** It does so with up to n reports. */
  method Drain(tracker: HealingTracker, channel: seq<Report>, n: nat, ghost start: Pass, ghost steps: seq<Step>,
               ghost scanning: bool)
    returns (channel': seq<Report>, ghost steps': seq<Step>)
    requires At(start, steps, tracker.h, channel, scanning)
    modifies tracker
    ensures At(start, steps', tracker.h, channel', scanning) && channel' == channel[Taken(channel, n)..]
    ensures |channel'| == if n < |channel| then |channel| - n else 0
    ensures Goes(start, steps, steps', []) && Scans(steps, steps', |ItemsIn(channel[..Taken(channel, n)])|)
    ensures SameBuckets(tracker.h, old(tracker.h))
  {
    channel', steps' := channel, steps;
    Stays(start, steps);
    hide At, Scans, Goes;
    var k := 0;
    while k < n && channel' != []
      invariant k <= Taken(channel, n) && channel' == channel[k..]
      invariant At(start, steps', tracker.h, channel', scanning)
      invariant Goes(start, steps, steps', []) && Scans(steps, steps', |ItemsIn(channel[..k])|)
      invariant SameBuckets(tracker.h, old(tracker.h))
    {
      ghost var before := steps';
      channel', steps' := ReceiveOne(tracker, channel', start, steps', scanning);
      GoesOn(start, steps, before, steps', [], []);
      OneTakenMore(channel, k, steps, before, steps');
      k := k + 1;
    }
  }

  /** The workers of a bucket moved from here to there, receiving whatever they did. */
  ghost predicate Worked(start: Pass, steps: seq<Step>, more: seq<Step>, reports: seq<Report>) {
    Goes(start, steps, more, ItemsIn(reports)) && (OnTime(more) <==> OnTime(steps)) &&
    (NoGiveUp(steps) ==> NoGiveUp(more))
  }

  lemma WorksOn(start: Pass, a: seq<Step>, b: seq<Step>, c: seq<Step>, x: seq<Report>, y: seq<Report>)
    requires Worked(start, a, b, x) && Worked(start, b, c, y)
    ensures Worked(start, a, c, x + y)
  {
    GoesOn(start, a, b, c, ItemsIn(x), ItemsIn(y));
    ItemsConcat(x, y);
    hide Goes, OnTime, NoGiveUp, ItemsIn;
  }

  lemma ScanWorks(start: Pass, steps: seq<Step>, more: seq<Step>, reports: seq<Report>, received: nat)
    requires Goes(start, steps, more, ItemsIn(reports)) && Scans(steps, more, received)
    ensures Worked(start, steps, more, reports)
  {
  }

  /** A worker sends a report; on a full channel it waits until one is received. */
  method SendReport(tracker: HealingTracker, channel: seq<Report>, r: Report, ghost start: Pass, ghost steps: seq<Step>)
    returns (channel': seq<Report>, ghost steps': seq<Step>)
    requires At(start, steps, tracker.h, channel, true) && |channel| <= UNCOUNTED
    modifies tracker
    ensures At(start, steps', tracker.h, channel', true) && channel' == AfterMove(channel, Put(r))
    ensures channel' == (if |channel| == 1001 then channel[1..] else channel) + [r]
    ensures Worked(start, steps, steps', [r]) && SameBuckets(tracker.h, old(tracker.h))
  {
    channel', steps' := channel, steps;
    Stays(start, steps);
    ScanWorks(start, steps, steps, [], 0);
    if |channel'| == UNCOUNTED {
      channel', steps' := ReceiveOne(tracker, channel', start, steps', true);
      ScanWorks(start, steps, steps', [], |ItemsIn(channel[..1])|);
    }
    NextStep(start, steps', tracker.h, channel', true, Send(r));
    ScanWorks(start, steps', steps' + [Send(r)], [r], 0);
    WorksOn(start, steps, steps', steps' + [Send(r)], [], [r]);
    hide After, Worked, ItemsIn;
    assert [] + [r] == [r];
    steps' := steps' + [Send(r)];
    channel' := channel' + [r];
  }

  /** One move of the workers of a bucket or of the draining goroutine. */
  method MakeMove(tracker: HealingTracker, channel: seq<Report>, m: Move, ghost start: Pass, ghost steps: seq<Step>)
    returns (channel': seq<Report>, ghost steps': seq<Step>)
    requires At(start, steps, tracker.h, channel, true) && |channel| <= UNCOUNTED
    modifies tracker
    ensures At(start, steps', tracker.h, channel', true) && channel' == AfterMove(channel, m)
    ensures Worked(start, steps, steps', if m.Put? then [m.report] else []) && SameBuckets(tracker.h, old(tracker.h))
  {
    channel', steps' := channel, steps;
    match m {
      case Put(r) => channel', steps' := SendReport(tracker, channel', r, start, steps');
      case Get =>
        Stays(start, steps);
        ScanWorks(start, steps, steps, [], 0);
        if channel' != [] {
          channel', steps' := ReceiveOne(tracker, channel', start, steps', true);
          ScanWorks(start, steps, steps', [], |ItemsIn(channel[..1])|);
        }
    }
  }

  lemma {:induction false} FitsAfter(channel: seq<Report>, moves: seq<Move>)
    requires |channel| <= UNCOUNTED
    ensures |AfterMoves(channel, moves)| <= UNCOUNTED
  {
    if moves != [] {
      FitsAfter(channel, moves[..|moves| - 1]);
    }
  }

  lemma NoMoves(channel: seq<Report>)
    ensures AfterMoves(channel, []) == channel && Reports([]) == []
  {
  }

  lemma OneMoveMore(channel: seq<Report>, moves: seq<Move>, k: nat)
    requires k < |moves| && |channel| <= UNCOUNTED
    ensures |AfterMoves(channel, moves[..k])| <= UNCOUNTED
    ensures AfterMoves(channel, moves[..k + 1]) == AfterMove(AfterMoves(channel, moves[..k]), moves[k])
    ensures Reports(moves[..k + 1]) == Reports(moves[..k]) + if moves[k].Put? then [moves[k].report] else []
  {
    FitsAfter(channel, moves[..k]);
    assert moves[..k + 1][..k] == moves[..k];
    hide AfterMove;
  }

  /** The workers of a bucket and the draining goroutine, until all workers are done. */
  method Scan(tracker: HealingTracker, channel: seq<Report>, moves: seq<Move>, ghost start: Pass,
              ghost steps: seq<Step>)
    returns (channel': seq<Report>, ghost steps': seq<Step>)
    requires At(start, steps, tracker.h, channel, true) && |channel| <= UNCOUNTED
    modifies tracker
    ensures At(start, steps', tracker.h, channel', true) && channel' == AfterMoves(channel, moves)
    ensures Worked(start, steps, steps', Reports(moves)) && SameBuckets(tracker.h, old(tracker.h))
  {
    channel', steps' := channel, steps;
    Stays(start, steps);
    ScanWorks(start, steps, steps, [], 0);
    NoMoves(channel);
    hide *;
    assert moves[..0] == [];
    for k := 0 to |moves|
      invariant At(start, steps', tracker.h, channel', true) && channel' == AfterMoves(channel, moves[..k])
      invariant Worked(start, steps, steps', Reports(moves[..k])) && SameBuckets(tracker.h, old(tracker.h))
    {
      ghost var before := steps';
      OneMoveMore(channel, moves, k);
      channel', steps' := MakeMove(tracker, channel', moves[k], start, steps');
      WorksOn(start, steps, before, steps', Reports(moves[..k]), if moves[k].Put? then [moves[k].report] else []);
    }
    assert moves[..|moves|] == moves;
  }

  // ---- the loop ----

  /** Starts on a bucket: back to the snapshot if another was worked on before, and the new cursor. */
  method BeginBucket(tracker: HealingTracker, channel: seq<Report>, bucket: bytes, ghost start: Pass,
                     ghost steps: seq<Step>)
    returns (ghost steps': seq<Step>)
    requires At(start, steps, tracker.h, channel, false) && bucket != []
    modifies tracker
    ensures At(start, steps', tracker.h, channel, true) && tracker.h.bucket == bucket
    ensures tracker.h == (if old(tracker.h).bucket != [] then Resumed(old(tracker.h)) else old(tracker.h))
                         .(objectName := [], bucket := bucket)
    ensures steps' == steps + [Begin(bucket)] && Goes(start, steps, steps', [])
    ensures tracker.h.queuedBuckets == old(tracker.h.queuedBuckets)
    ensures tracker.h.healedBuckets == old(tracker.h.healedBuckets)
    ensures OnTime(steps') <==> OnTime(steps) && Recent(steps) == 0
    ensures NoGiveUp(steps) ==> NoGiveUp(steps')
  {
    NextStep(start, steps, tracker.h, channel, false, Begin(bucket));
    OneStepMore(steps, Begin(bucket));
    hide After, NoGiveUp, Goes, OnTime, Recent;
    steps' := steps + [Begin(bucket)];
    if tracker.h.bucket != [] {
      tracker.Resume();
    }
    tracker.h := tracker.h.(objectName := []);
    tracker.h := tracker.h.(bucket := bucket);
  }

  /** Ends the work on a bucket: `bucketDone`, or on to the next one if there was trouble. */
  method EndBucket(tracker: HealingTracker, channel: seq<Report>, done: bool, ghost start: Pass, ghost steps: seq<Step>)
    returns (ghost steps': seq<Step>)
    requires At(start, steps, tracker.h, channel, true) && !Panics(tracker.h.queuedBuckets, tracker.h.bucket)
    modifies tracker
    ensures At(start, steps', tracker.h, channel, false)
    ensures tracker.h == if done then Completed(old(tracker.h), old(tracker.h).bucket) else old(tracker.h)
    ensures steps' == steps + [if done then Finish else GiveUp] && Goes(start, steps, steps', [])
    ensures tracker.h.healedBuckets == old(tracker.h.healedBuckets) + (if done then [old(tracker.h.bucket)] else [])
    ensures tracker.h.queuedBuckets ==
            if done then Sweep(old(tracker.h.queuedBuckets), 0, old(tracker.h.bucket)) else old(tracker.h.queuedBuckets)
    ensures OnTime(steps') <==> OnTime(steps)
    ensures done ==> Recent(steps') == 0 && (NoGiveUp(steps) ==> NoGiveUp(steps'))
  {
    var e := if done then Finish else GiveUp;
    NextStep(start, steps, tracker.h, channel, true, e);
    OneStepMore(steps, e);
    hide After, NoGiveUp, Sweep, Panics, Goes, OnTime, Recent;
    steps' := steps + [e];
    if done {
      var panicked := tracker.BucketDone(tracker.h.bucket);
    }
  }

  /** One bucket; the loop goes on unless `end` tells the outcome. */
  method HealBucket(tracker: HealingTracker, channel: seq<Report>, bucket: bytes, fate: Fate, trouble: bool,
                    ghost start: Pass, ghost steps: seq<Step>)
    returns (end: Option<Outcome>, trouble': bool, channel': seq<Report>, ghost steps': seq<Step>)
    requires At(start, steps, tracker.h, channel, false) && |channel| <= UNCOUNTED
    requires bucket != [] && bucket !in tracker.h.healedBuckets && !Panics(tracker.h.queuedBuckets, bucket)
    modifies tracker
    ensures At(start, steps', tracker.h, channel', end.Some?) && channel' == AfterMoves(channel, MovesOf(fate))
    ensures steps + [Begin(bucket)] <= steps' && Goes(start, steps, steps', ItemsIn(Reports(MovesOf(fate))))
    ensures end == match fate
                   case BucketFails => None
                   case AllHealing => Some(SetIsHealing)
                   case TooFewDrives => Some(NotEnoughDrives)
                   case Scanned(_, complete, cancelled) =>
                     if !trouble && complete && cancelled then Some(Cancelled) else None
    ensures trouble' == (trouble || Troubles(fate))
    ensures var done := !trouble && Good(fate);
            tracker.h.healedBuckets == old(tracker.h.healedBuckets) + (if done then [bucket] else []) &&
            tracker.h.queuedBuckets ==
            if done then Sweep(old(tracker.h.queuedBuckets), 0, bucket) else old(tracker.h.queuedBuckets)
    ensures OnTime(steps') <==> OnTime(steps) && Recent(steps) == 0
    ensures !trouble && Good(fate) ==> Recent(steps') == 0
    ensures !trouble' && NoGiveUp(steps) ==> NoGiveUp(steps')
  {
    hide At, NoGiveUp, Sweep, Panics, Goes, OnTime, Recent;
    channel' := channel;
    steps' := BeginBucket(tracker, channel, bucket, start, steps);
    ghost var begun := steps';
    trouble' := trouble || Troubles(fate);
    end := None;
    NothingSent();
    assert tracker.h.healedBuckets + [] == tracker.h.healedBuckets;
    match fate {
      case BucketFails =>
        steps' := EndBucket(tracker, channel', false, start, steps');
        GoesOn(start, steps, begun, steps', [], []);
      case AllHealing => end := Some(SetIsHealing);
      case TooFewDrives => end := Some(NotEnoughDrives);
      case Scanned(moves, complete, cancelled) =>
        channel', steps' := Scan(tracker, channel', moves, start, steps');
        ghost var scanned := steps';
        BegunAndScanned(start, steps, begun, scanned, Reports(moves));
        if !trouble' && cancelled {
          end := Some(Cancelled);
        } else {
          steps' := EndBucket(tracker, channel', !trouble', start, steps');
          GoesOn(start, steps, scanned, steps', ItemsIn(Reports(moves)), []);
          assert ItemsIn(Reports(moves)) + [] == ItemsIn(Reports(moves));
        }
    }
  }

  lemma NothingSent()
    ensures ItemsIn(Reports([])) == []
  {
  }

  lemma BegunAndScanned(start: Pass, steps: seq<Step>, begun: seq<Step>, scanned: seq<Step>, reports: seq<Report>)
    requires Goes(start, steps, begun, []) && Worked(start, begun, scanned, reports)
    ensures Goes(start, steps, scanned, ItemsIn(reports)) && begun <= scanned
    ensures (OnTime(scanned) <==> OnTime(begun)) && (NoGiveUp(begun) ==> NoGiveUp(scanned))
  {
    GoesOn(start, steps, begun, scanned, [], ItemsIn(reports));
    assert [] + ItemsIn(reports) == ItemsIn(reports);
  }

  // ---- the whole pass ----

  /** Items counted between the bucket before the i-th and the i-th. */
  function LateBefore(fates: seq<Fate>, lags: seq<nat>, i: nat): nat
    requires i <= |fates| == |lags|
  {
    if i == 0 then 0 else |CountedLate(fates, lags, i - 1)|
  }

  /** Where the reports stand when the i-th bucket is next. */
  ghost predicate Reported(start: Pass, steps: seq<Step>, channel: seq<Report>, fates: seq<Fate>, lags: seq<nat>,
                           i: nat, trouble: bool)
    requires i <= |fates| == |lags|
  {
    channel == PendingBefore(fates, lags, i) &&
    SentBy(start, steps) + ItemsFrom(fates, i, trouble) == ItemsFrom(fates, 0, false) &&
    (!trouble ==> NoGiveUp(steps) && (OnTime(steps) <==> NoneLate(fates, lags, i)) &&
                  Recent(steps) == LateBefore(fates, lags, i))
  }

  predicate GoesOnAfter(f: Fate, trouble: bool) {
    !f.AllHealing? && !f.TooFewDrives? && !(!trouble && f.Scanned? && f.complete && f.cancelled)
  }

  lemma OneBucketLater(fates: seq<Fate>, lags: seq<nat>, i: nat)
    requires i < |fates| == |lags|
    ensures NoneLate(fates, lags, i + 1) <==> NoneLate(fates, lags, i) && LateBefore(fates, lags, i) == 0
  {
    hide CountedLate;
  }

  lemma {:induction false} PendingFits(fates: seq<Fate>, lags: seq<nat>, i: nat)
    requires i <= |fates| == |lags|
    ensures |PendingBefore(fates, lags, i)| <= UNCOUNTED
  {
    if i > 0 {
      PendingFits(fates, lags, i - 1);
      FitsAfter(PendingBefore(fates, lags, i - 1), MovesOf(fates[i - 1]));
      hide AfterMoves;
    }
  }

  lemma {:induction false} SentStep(start: Pass, steps: seq<Step>, mid: seq<Step>, more: seq<Step>, fates: seq<Fate>,
                                    i: nat, trouble: bool, trouble': bool)
    requires i < |fates| && GoesOnAfter(fates[i], trouble) && trouble' == (trouble || Troubles(fates[i]))
    requires SentBy(start, steps) + ItemsFrom(fates, i, trouble) == ItemsFrom(fates, 0, false)
    requires Goes(start, steps, mid, ItemsIn(Reports(MovesOf(fates[i])))) && Goes(start, mid, more, [])
    ensures SentBy(start, more) + ItemsFrom(fates, i + 1, trouble') == ItemsFrom(fates, 0, false)
  {
    var items := ItemsIn(Reports(MovesOf(fates[i])));
    assert items + [] == items;
    GoesOn(start, steps, mid, more, items, []);
    Associative(SentBy(start, steps), items, ItemsFrom(fates, i + 1, trouble'));
    hide SentBy, ItemsIn, Reports;
  }

  lemma {:induction false} ReportedStep(start: Pass, steps: seq<Step>, mid: seq<Step>, more: seq<Step>,
                                       channel: seq<Report>, fates: seq<Fate>, lags: seq<nat>, i: nat,
                                       trouble: bool, trouble': bool)
    requires i < |fates| == |lags| && Reported(start, steps, channel, fates, lags, i, trouble)
    requires Goes(start, steps, mid, ItemsIn(Reports(MovesOf(fates[i])))) && Goes(start, mid, more, [])
    requires OnTime(mid) <==> OnTime(steps) && Recent(steps) == 0
    requires !trouble && Good(fates[i]) ==> Recent(mid) == 0
    requires trouble' == (trouble || Troubles(fates[i])) && (!trouble' && NoGiveUp(steps) ==> NoGiveUp(mid))
    requires GoesOnAfter(fates[i], trouble)
    requires Scans(mid, more, |CountedLate(fates, lags, i)|)
    ensures Reported(start, more, PendingBefore(fates, lags, i + 1), fates, lags, i + 1, trouble')
  {
    SentStep(start, steps, mid, more, fates, i, trouble, trouble');
    OneBucketLater(fates, lags, i);
    hide PendingBefore, PendingAt, CountedLate, OnTime, Recent, NoGiveUp, NoneLate, SentBy, ItemsFrom, ItemsIn, Reports;
    hide AfterMoves, Goes;
  }

  lemma {:induction false} ReportedEnd(start: Pass, steps: seq<Step>, mid: seq<Step>, channel: seq<Report>,
                                      fates: seq<Fate>, lags: seq<nat>, i: nat, trouble: bool)
    requires i < |fates| == |lags| && Reported(start, steps, channel, fates, lags, i, trouble)
    requires Goes(start, steps, mid, ItemsIn(Reports(MovesOf(fates[i])))) && !GoesOnAfter(fates[i], trouble)
    ensures SentBy(start, mid) == ItemsFrom(fates, 0, false)
  {
    var items := ItemsIn(Reports(MovesOf(fates[i])));
    assert items + [] == items;
    hide SentBy, PendingBefore, OnTime, Recent, NoGiveUp, NoneLate, LateBefore;
  }

  lemma AtStart(t: Tracker, base: TrackerRuns.Books, fates: seq<Fate>, lags: seq<nat>)
    requires |fates| == |lags|
    ensures At(Start(t, base), [], t, [], false) && Reported(Start(t, base), [], [], fates, lags, 0, false)
  {
    assert [] + ItemsFrom(fates, 0, false) == ItemsFrom(fates, 0, false);
  }

  /** The reports between the i-th bucket and the next. */
  lemma Between(channel: seq<Report>, fates: seq<Fate>, lags: seq<nat>, i: nat)
    requires i < |fates| == |lags| && channel == PendingBefore(fates, lags, i)
    ensures var pending := AfterMoves(channel, MovesOf(fates[i])); var m := Taken(pending, lags[i]);
            pending[m..] == PendingBefore(fates, lags, i + 1) && ItemsIn(pending[..m]) == CountedLate(fates, lags, i)
  {
  }

  lemma AllSent(start: Pass, steps: seq<Step>, channel: seq<Report>, fates: seq<Fate>, lags: seq<nat>, trouble: bool)
    requires |fates| == |lags| && Reported(start, steps, channel, fates, lags, |fates|, trouble)
    ensures SentBy(start, steps) == ItemsFrom(fates, 0, false)
  {
    assert ItemsFrom(fates, |fates|, trouble) == [];
    hide PendingBefore, OnTime, Recent, NoGiveUp, NoneLate, LateBefore, SentBy;
  }

  lemma LastReceived(start: Pass, steps: seq<Step>, more: seq<Step>, received: nat)
    requires Goes(start, steps, more, []) && Scans(steps, more, received) && After(start, more).Some?
    ensures After(start, more).value.sent == SentBy(start, steps)
    ensures (OnTime(more) <==> OnTime(steps)) && (NoGiveUp(steps) ==> NoGiveUp(more))
  {
  }

  /**
   * What all this says about the books: they hold exactly the items reported if and only if no report pending at a
   * `bucketDone` is received before the next `resume`, that is, if none is counted between one bucket and the next.
   */
  lemma PassCounts(t: Tracker, base: TrackerRuns.Books, steps: seq<Step>, fates: seq<Fate>, lags: seq<nat>)
    requires |fates| == |lags| && After(Start(t, base), steps).Some? && NoGiveUp(steps)
    requires After(Start(t, base), steps).value.channel == []
    requires OnTime(steps) <==> NoneLate(fates, lags, |fates|)
    ensures var s := After(Start(t, base), steps).value;
            (s.mine.now == s.sent <==> NoneReceivedLate(steps)) &&
            (NoneReceivedLate(steps) <==> NoneLate(fates, lags, |fates|))
  {
    var s := After(Start(t, base), steps).value;
    FinishedPassCountsExactly(t, base, steps);
    EveryReportCountsExactly(t, base, steps);
    assert s.mine.now + ItemsIn([]) == s.mine.now;
    hide OnTime, NoGiveUp, NoneReceivedLate, NoneLate, After;
  }

  /** Where the loop over the buckets stands. */
  ghost predicate Loops(start: Pass, steps: seq<Step>, t: Tracker, channel: seq<Report>, healed: seq<bytes>,
                        buckets: seq<bytes>, fates: seq<Fate>, lags: seq<nat>, i: nat, n: nat, trouble: bool)
    requires n <= i <= |buckets| == |fates| == |lags|
  {
    Stands(t, healed, buckets, fates, i, n, trouble) && At(start, steps, t, channel, false) &&
    Reported(start, steps, channel, fates, lags, i, trouble) &&
    OutcomeFrom(fates, 0, false) == OutcomeFrom(fates, i, trouble)
  }

  /** One turn of the loop. */
  method HealNext(tracker: HealingTracker, channel: seq<Report>, ghost healed: seq<bytes>, buckets: seq<bytes>,
                  fates: seq<Fate>, lags: seq<nat>, i: nat, ghost n: nat, trouble: bool, ghost start: Pass,
                  ghost steps: seq<Step>)
    returns (end: Option<Outcome>, trouble': bool, channel': seq<Report>, ghost n': nat, ghost steps': seq<Step>)
    requires n <= i < |buckets| == |fates| == |lags| && Distinct(buckets)
    requires forall x :: x in buckets ==> x != [] && x !in healed
    requires Loops(start, steps, tracker.h, channel, healed, buckets, fates, lags, i, n, trouble)
    modifies tracker
    ensures n' <= i + 1
    ensures end.None? ==>
              Loops(start, steps', tracker.h, channel', healed, buckets, fates, lags, i + 1, n', trouble')
    ensures end.Some? ==> Ends(start, steps', tracker.h, channel', healed, buckets, fates, end.value, n')
  {
    hide Sweep, Panics, At, NoGiveUp, SentBy, Goes, OnTime, Recent, NoneLate, ItemsFrom, PendingAt, PendingBefore;
    hide CountedLate, Scans, Distinct, GoodBefore, GoodOnes, Reports, ItemsIn, AfterMoves;
    ghost var t := tracker.h;
    end, trouble', channel', n', steps' := None, trouble, channel, n, steps;
    NotYetHealed(t, healed, buckets, fates, i, n, trouble);
    PendingFits(fates, lags, i);
    var isHealed := tracker.IsHealed(buckets[i]);
    if isHealed {
      assert false;   // the loop would continue with the next bucket
    }
    end, trouble', channel', steps' := HealBucket(tracker, channel', buckets[i], fates[i], trouble, start, steps);
    ghost var mid := steps';
    StandsStep(t, tracker.h, healed, buckets, fates, i, n, trouble, trouble');
    if !trouble && Good(fates[i]) {
      n' := n + 1;
    }
    if end.Some? {
      ReportedEnd(start, steps, mid, channel, fates, lags, i, trouble);
      return;
    }
    channel', steps' := Drain(tracker, channel', lags[i], start, steps', false);
    Between(channel, fates, lags, i);
    ReportedStep(start, steps, mid, steps', channel, fates, lags, i, trouble, trouble');
  }

  /** The pass ended early, with n buckets healed. */
  ghost predicate Ends(start: Pass, steps: seq<Step>, t: Tracker, channel: seq<Report>, healed: seq<bytes>,
                       buckets: seq<bytes>, fates: seq<Fate>, outcome: Outcome, n: nat) {
    At(start, steps, t, channel, true) && SentBy(start, steps) == ItemsFrom(fates, 0, false) &&
    outcome == OutcomeFrom(fates, 0, false) && outcome != AllHealed && outcome != NotAllHealed &&
    n == GoodOnes(fates, 0) && n <= |buckets| &&
    t.healedBuckets == healed + buckets[..n] && t.queuedBuckets == buckets[n..]
  }

  lemma LoopStarts(t: Tracker, base: TrackerRuns.Books, buckets: seq<bytes>, fates: seq<Fate>, lags: seq<nat>)
    requires |fates| == |lags| == |buckets| && t.queuedBuckets == buckets
    ensures Loops(Start(t, base), [], t, [], t.healedBuckets, buckets, fates, lags, 0, 0, false)
  {
    AtStart(t, base, fates, lags);
    assert t.healedBuckets + buckets[..0] == t.healedBuckets;
    hide At, Reported, OutcomeFrom;
  }

  lemma LoopEnds(start: Pass, steps: seq<Step>, t: Tracker, channel: seq<Report>, healed: seq<bytes>,
                 buckets: seq<bytes>, fates: seq<Fate>, lags: seq<nat>, n: nat, trouble: bool)
    requires n <= |buckets| == |fates| == |lags|
    requires Loops(start, steps, t, channel, healed, buckets, fates, lags, |fates|, n, trouble)
    ensures At(start, steps, t, channel, false) && SentBy(start, steps) == ItemsFrom(fates, 0, false)
    ensures OutcomeFrom(fates, 0, false) == if trouble then Trouble else AllHealed
    ensures n == GoodOnes(fates, 0) && t.healedBuckets == healed + buckets[..n] && t.queuedBuckets == buckets[n..]
    ensures !trouble ==>
              t.queuedBuckets == [] && NoGiveUp(steps) && (OnTime(steps) <==> NoneLate(fates, lags, |fates|))
  {
    PassEnd(t, healed, buckets, fates, n, trouble);
    AllSent(start, steps, channel, fates, lags, trouble);
    hide At, SentBy, ItemsFrom, OnTime, NoneLate, NoGiveUp, GoodOnes, PendingBefore, LateBefore, Recent;
  }

  lemma EndMeans(start: Pass, steps: seq<Step>, t: Tracker, channel: seq<Report>, healed: seq<bytes>,
                 buckets: seq<bytes>, fates: seq<Fate>, outcome: Outcome, n: nat)
    requires Ends(start, steps, t, channel, healed, buckets, fates, outcome, n)
    ensures At(start, steps, t, channel, true) && SentBy(start, steps) == ItemsFrom(fates, 0, false)
    ensures outcome == OutcomeFrom(fates, 0, false) && outcome != AllHealed && outcome != NotAllHealed
    ensures n == GoodOnes(fates, 0) && n <= |buckets|
    ensures t.healedBuckets == healed + buckets[..n] && t.queuedBuckets == buckets[n..]
  {
    hide At, SentBy, ItemsFrom, GoodOnes, OutcomeFrom;
  }

  /**
   * A pass heals exactly the buckets before the first that cannot be healed, in the order of the queue: once there
   * was trouble nothing is taken off the queue any more. Its last check, that the queue is empty, never fails. The
   * workers send the items of all buckets up to the one that ends the pass, and in the end all reports are received;
   * they all count exactly if none is counted between one bucket and the next. `lags` says how many reports the
   * draining goroutine could take there.
   */
  method HealErasureSet(tracker: HealingTracker, fates: seq<Fate>, lags: seq<nat>, ghost base: TrackerRuns.Books)
    returns (outcome: Outcome, ghost steps: seq<Step>)
    requires |fates| == |lags| == |tracker.h.queuedBuckets| && Distinct(tracker.h.queuedBuckets)
    requires forall x :: x in tracker.h.queuedBuckets ==> x != [] && x !in tracker.h.healedBuckets
    modifies tracker
    ensures var n := GoodOnes(fates, 0); var q := old(tracker.h.queuedBuckets);
            tracker.h.healedBuckets == old(tracker.h.healedBuckets) + q[..n] && tracker.h.queuedBuckets == q[n..]
    ensures outcome == OutcomeFrom(fates, 0, false) && outcome != NotAllHealed
    ensures outcome == AllHealed ==> tracker.h.queuedBuckets == [] && NoGiveUp(steps)
    ensures var s := After(Start(old(tracker.h), base), steps);
            s.Some? && s.value.channel == [] && tracker.h == s.value.t.(objectName := [], bucket := []) &&
            s.value.sent == ItemsFrom(fates, 0, false)
    ensures var s := After(Start(old(tracker.h), base), steps);
            outcome == AllHealed ==>
              (s.value.mine.now == ItemsFrom(fates, 0, false) <==> NoneReceivedLate(steps)) &&
              (NoneReceivedLate(steps) <==> NoneLate(fates, lags, |fates|))
  {
    hide Sweep, Panics, After, NoGiveUp, SentBy, Goes, OnTime, Recent, NoneLate, ItemsFrom, Scans, NoneReceivedLate;
    hide Loops, Ends, Distinct;
    var buckets := tracker.h.queuedBuckets;   // a copy: the queue is changed in place
    ghost var healed := tracker.h.healedBuckets;
    ghost var t0 := tracker.h;
    ghost var start := Start(t0, base);
    ghost var n: nat := 0;
    var trouble, i := false, 0;
    var channel: seq<Report> := [];
    var end: Option<Outcome> := None;
    steps := [];
    LoopStarts(t0, base, buckets, fates, lags);
    while i < |buckets| && end.None?
      invariant n <= i <= |buckets|
      invariant end.None? ==> Loops(start, steps, tracker.h, channel, healed, buckets, fates, lags, i, n, trouble)
      invariant end.Some? ==> Ends(start, steps, tracker.h, channel, healed, buckets, fates, end.value, n)
    {
      end, trouble, channel, n, steps :=
        HealNext(tracker, channel, healed, buckets, fates, lags, i, n, trouble, start, steps);
      i := i + 1;
    }
    if end.None? {
      LoopEnds(start, steps, tracker.h, channel, healed, buckets, fates, lags, n, trouble);
    } else {
      EndMeans(start, steps, tracker.h, channel, healed, buckets, fates, end.value, n);
    }
    ghost var last, m := steps, |ItemsIn(channel)|;
    assert channel[..|channel|] == channel;
    channel, steps := Drain(tracker, channel, |channel|, start, steps, end.Some?);
    LastReceived(start, last, steps, m);
    outcome := if end.Some? then end.value else if trouble then Trouble
               else if |tracker.h.queuedBuckets| > 0 then NotAllHealed else AllHealed;
    if outcome.AllHealed? {
      PassCounts(t0, base, steps, fates, lags);
    }
    tracker.h := tracker.h.(objectName := []);
    tracker.h := tracker.h.(bucket := []);
  }
}
