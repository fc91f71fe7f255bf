/**
 * How reports of healed, failed and skipped items reach the tracker during a pass over a drive: through a channel
 * that another goroutine drains in its own time (cmd/global-heal.go).
 */
module HealReports {
  import opened Bytes
  import opened TrackerFields
  import opened BucketQueue
  import opened HealingTracker
  import opened TrackerRuns

  /** What the heal workers send: an item, or the name of an entry that is done with. */
  datatype Report = Counted(item: Item) | EntryDone(name: bytes)

  const CAPACITY := 1000             // of the channel
  const UNCOUNTED := CAPACITY + 1    // the draining goroutine may hold one report more


  datatype Step =
    | Begin(bucket: bytes)      // `resume` if a bucket was worked on before, and the new cursor
    | Send(report: Report)
    | Receive(report: Report)   // the draining goroutine puts it into the tracker
    | Finish                    // `bucketDone`, after all workers of the bucket have sent
    | GiveUp                    // on to the next bucket without `bucketDone`

  /**
   * The tracker; the books it shows, split into what was there before the pass and what the pass reported; whether
   * workers of a bucket are about; the channel, at its front what the draining goroutine holds; and all items sent.
   */
  datatype Pass = Pass(t: Tracker, base: Books, mine: Book, scanning: bool, channel: seq<Report>, sent: seq<Item>)

  predicate Enabled(s: Pass, e: Step) {
    match e
    case Begin(b) => !s.scanning && b != []
    case Send(_) => s.scanning && |s.channel| < UNCOUNTED
    case Receive(r) => s.channel != [] && s.channel[0] == r
    case Finish => s.scanning && !Panics(s.t.queuedBuckets, s.t.bucket)
    case GiveUp => s.scanning
  }

  function Resumes(t: Tracker): Tracker {
    if t.bucket != [] then Resumed(t) else t
  }

  function Back(b: Book): Book {
    Book(b.atDone, b.atDone)
  }

  function Kept(b: Book): Book {
    Book(b.now, b.now)
  }

  function Apply(s: Pass, e: Step): Pass
    requires Enabled(s, e)
  {
    match e
    case Begin(b) =>
      var t := Resumes(s.t).(objectName := [], bucket := b);
      if s.t.bucket == [] then s.(t := t, scanning := true)
      else s.(t := t, scanning := true, mine := Back(s.mine),
              base := Books(Back(s.base.items), Back(s.base.skips), None))
    case Send(r) => s.(channel := s.channel + [r], sent := s.sent + ItemsIn([r]))
    case Receive(Counted(i)) =>
      s.(t := Progressed(s.t, i.success, i.skipped, i.size), mine := s.mine.(now := s.mine.now + [i]),
         channel := s.channel[1..])
    case Receive(EntryDone(name)) => s.(t := s.t.(objectName := name), channel := s.channel[1..])
    case Finish =>
      s.(t := Completed(s.t, s.t.bucket), scanning := false, mine := Kept(s.mine),
         base := Books(Kept(s.base.items), Kept(s.base.skips), None))
    case GiveUp => s.(scanning := false)
  }

  function Start(t: Tracker, base: Books): Pass {
    Pass(t, base.(names := None), EMPTY, false, [], [])
  }

  function After(start: Pass, steps: seq<Step>): Option<Pass> {
    if steps == [] then Some(start)
    else
      var before := After(start, steps[..|steps| - 1]);
      var e := steps[|steps| - 1];
      if before.Some? && Enabled(before.value, e) then Some(Apply(before.value, e)) else None
  }

  lemma Extend(start: Pass, steps: seq<Step>, e: Step)
    requires After(start, steps).Some? && Enabled(After(start, steps).value, e)
    ensures After(start, steps + [e]) == Some(Apply(After(start, steps).value, e))
  {
    assert (steps + [e])[..|steps|] == steps;
  }

  /** The items among some reports. */
  function ItemsIn(reports: seq<Report>): seq<Item> {
    if reports == [] then []
    else ItemsIn(reports[..|reports| - 1]) +
         if reports[|reports| - 1].Counted? then [reports[|reports| - 1].item] else []
  }

  lemma {:induction false} ItemsConcat(a: seq<Report>, b: seq<Report>)
    ensures ItemsIn(a + b) == ItemsIn(a) + ItemsIn(b)
  {
    if b == [] {
      assert a + b == a;
    } else {
      assert (a + b)[..|a + b| - 1] == a + b[..|b| - 1];
      ItemsConcat(a, b[..|b| - 1]);
    }
  }

  lemma ItemsOne(r: Report)
    ensures ItemsIn([r]) == if r.Counted? then [r.item] else []
  {
    assert [r][..0] == [];
  }

  lemma ItemsFront(reports: seq<Report>)
    requires reports != []
    ensures ItemsIn(reports) == ItemsIn([reports[0]]) + ItemsIn(reports[1..])
  {
    assert reports == [reports[0]] + reports[1..];
    ItemsConcat([reports[0]], reports[1..]);
  }

  // ---- the tracker shows what the books say ----

  function Both(base: Book, mine: Book): Book {
    Book(base.now + mine.now, base.atDone + mine.atDone)
  }

  function Shown(s: Pass): Books {
    Books(Both(s.base.items, s.mine), Both(s.base.skips, s.mine), None)
  }

  lemma ReceiveShows(s: Pass, i: Item)
    requires ShowsBooks(s.t, Shown(s)) && Enabled(s, Receive(Counted(i)))
    ensures ShowsBooks(Apply(s, Receive(Counted(i))).t, Shown(Apply(s, Receive(Counted(i)))))
  {
    ProgressKeeps(s.t, Shown(s), i);
    Associative(s.base.items.now, s.mine.now, [i]);
    Associative(s.base.skips.now, s.mine.now, [i]);
    hide ShowsBooks;
  }

  lemma StepShows(s: Pass, e: Step)
    requires ShowsBooks(s.t, Shown(s)) && Enabled(s, e)
    ensures ShowsBooks(Apply(s, e).t, Shown(Apply(s, e)))
  {
    hide Shows, Sweep, Panics, ItemsIn;
    match e
    case Receive(Counted(i)) => ReceiveShows(s, i);
    case _ =>
  }

  lemma {:induction false} RunShows(t: Tracker, base: Books, steps: seq<Step>)
    requires ShowsBooks(t, base) && After(Start(t, base), steps).Some?
    ensures var s := After(Start(t, base), steps).value; ShowsBooks(s.t, Shown(s))
  {
    if steps == [] {
      StartShows(t, base);
    } else {
      var init := steps[..|steps| - 1];
      RunShows(t, base, init);
      StepShows(After(Start(t, base), init).value, steps[|steps| - 1]);
    }
  }

  lemma StartShows(t: Tracker, base: Books)
    requires ShowsBooks(t, base)
    ensures ShowsBooks(t, Shown(Start(t, base)))
  {
    assert base.items.now + [] == base.items.now && base.items.atDone + [] == base.items.atDone;
    assert base.skips.now + [] == base.skips.now && base.skips.atDone + [] == base.skips.atDone;
  }

  // ---- which reports count ----

  predicate ReceivesItem(e: Step) {
    e.Receive? && e.report.Counted?
  }

  /** How many items were received since a bucket was last finished or begun. */
  function Recent(steps: seq<Step>): nat {
    if steps == [] then 0
    else
      var e := steps[|steps| - 1];
      if e.Begin? || e.Finish? then 0
      else Recent(steps[..|steps| - 1]) + if ReceivesItem(e) then 1 else 0
  }

  /** No bucket begins while items that were received are not secured by a `bucketDone`. */
  predicate OnTime(steps: seq<Step>) {
    forall j :: 0 <= j < |steps| && steps[j].Begin? ==> Recent(steps[..j]) == 0
  }

  /** How many items the resumes of a run forget. */
  function Forgotten(steps: seq<Step>): nat {
    if steps == [] then 0
    else
      var init := steps[..|steps| - 1];
      Forgotten(init) + if steps[|steps| - 1].Begin? then Recent(init) else 0
  }

  lemma {:induction false} ForgottenExactly(steps: seq<Step>)
    ensures Forgotten(steps) == 0 <==> OnTime(steps)
  {
    if steps != [] {
      var n := |steps| - 1;
      var init := steps[..n];
      ForgottenExactly(init);
      assert forall j :: 0 <= j <= n ==> init[..j] == steps[..j];
      if OnTime(steps) {
        assert forall j :: 0 <= j < n && init[j].Begin? ==> steps[j].Begin?;
        assert steps[n].Begin? ==> Recent(steps[..n]) == 0;
      } else if OnTime(init) {
        assert steps[n].Begin? && Recent(steps[..n]) != 0;
      }
    }
  }

  lemma OneStepMore(steps: seq<Step>, e: Step)
    ensures Recent(steps + [e]) ==
            if e.Begin? || e.Finish? then 0 else Recent(steps) + if ReceivesItem(e) then 1 else 0
    ensures OnTime(steps + [e]) <==> OnTime(steps) && (e.Begin? ==> Recent(steps) == 0)
  {
    var more, n := steps + [e], |steps|;
    assert more[..n] == steps && more[n] == e;
    assert forall j :: 0 <= j < n ==> more[..j] == steps[..j] && more[j] == steps[j];
  }

  /** What the pass reported and what became of it. */
  predicate Ledgered(s: Pass, recent: nat, forgotten: nat) {
    (s.t.bucket == [] ==> s.mine == EMPTY && recent == 0) &&
    s.mine.atDone <= s.mine.now && |s.mine.now| == |s.mine.atDone| + recent &&
    |s.mine.now| + |ItemsIn(s.channel)| + forgotten == |s.sent| &&
    (forgotten == 0 ==> s.mine.now + ItemsIn(s.channel) == s.sent)
  }

  lemma SendLedgered(s: Pass, r: Report, recent: nat, forgotten: nat)
    requires Ledgered(s, recent, forgotten) && Enabled(s, Send(r))
    ensures Ledgered(Apply(s, Send(r)), recent, forgotten)
  {
    ItemsConcat(s.channel, [r]);
    Associative(s.mine.now, ItemsIn(s.channel), ItemsIn([r]));
    hide ItemsIn;
  }

  lemma ReceiveLedgered(s: Pass, r: Report, recent: nat, forgotten: nat)
    requires Ledgered(s, recent, forgotten) && Enabled(s, Receive(r)) && s.t.bucket != []
    ensures Ledgered(Apply(s, Receive(r)), recent + (if r.Counted? then 1 else 0), forgotten)
  {
    ItemsFront(s.channel);
    ItemsOne(r);
    Associative(s.mine.now, ItemsIn([r]), ItemsIn(s.channel[1..]));
    assert s.mine.now + [] == s.mine.now;
    hide ItemsIn;
  }

  lemma StepLedgered(s: Pass, e: Step, recent: nat, forgotten: nat)
    requires Ledgered(s, recent, forgotten) && Enabled(s, e) && (s.t.bucket == [] ==> s.channel == [] && !s.scanning)
    ensures var recent' := if e.Begin? || e.Finish? then 0 else recent + if ReceivesItem(e) then 1 else 0;
            Ledgered(Apply(s, e), recent', forgotten + if e.Begin? then recent else 0)
    ensures Apply(s, e).t.bucket == [] ==> Apply(s, e).channel == [] && !Apply(s, e).scanning
  {
    match e
    case Send(r) => SendLedgered(s, r, recent, forgotten);
    case Receive(r) => ReceiveLedgered(s, r, recent, forgotten);
    case _ => hide ItemsIn;
  }

  lemma {:induction false} RunLedgered(t: Tracker, base: Books, steps: seq<Step>)
    requires After(Start(t, base), steps).Some?
    ensures var s := After(Start(t, base), steps).value;
            Ledgered(s, Recent(steps), Forgotten(steps)) &&
            (s.t.bucket == [] ==> s.channel == [] && !s.scanning)
  {
    hide Ledgered;
    if steps == [] {
      StartLedgered(t, base);
    } else {
      var init := steps[..|steps| - 1];
      RunLedgered(t, base, init);
      StepLedgered(After(Start(t, base), init).value, steps[|steps| - 1], Recent(init), Forgotten(init));
    }
  }

  lemma StartLedgered(t: Tracker, base: Books)
    ensures Ledgered(Start(t, base), 0, 0)
  {
    assert EMPTY.now + ItemsIn([]) == [];
  }

  /**
   * Every report counts, in the order in which they were sent, exactly if no bucket begins while reports that were
   * received are not secured by a `bucketDone`.
   */
  lemma EveryReportCountsExactly(t: Tracker, base: Books, steps: seq<Step>)
    requires After(Start(t, base), steps).Some?
    ensures var s := After(Start(t, base), steps).value;
            s.mine.now + ItemsIn(s.channel) == s.sent <==> OnTime(steps)
  {
    RunLedgered(t, base, steps);
    ForgottenExactly(steps);
    var s := After(Start(t, base), steps).value;
    if s.mine.now + ItemsIn(s.channel) == s.sent {
      assert |s.mine.now + ItemsIn(s.channel)| == |s.sent|;
    }
    hide After, Start, ItemsIn, Recent, Forgotten, OnTime;
  }

  // ---- passes in which every bucket is finished ----

  predicate NoGiveUp(steps: seq<Step>) {
    forall i :: 0 <= i < |steps| ==> !steps[i].GiveUp?
  }

  /** No worker is about: the last bucket begun was finished. */
  predicate Idle(steps: seq<Step>) {
    if steps == [] then true
    else match steps[|steps| - 1]
      case Begin(_) => false
      case Finish => true
      case GiveUp => true
      case _ => Idle(steps[..|steps| - 1])
  }

  lemma {:induction false} IdleExactly(start: Pass, steps: seq<Step>)
    requires !start.scanning && After(start, steps).Some?
    ensures Idle(steps) <==> !After(start, steps).value.scanning
  {
    if steps != [] {
      IdleExactly(start, steps[..|steps| - 1]);
    }
  }

  /**
   * A report that was pending when a bucket was done is received before the `resume` of the next bucket: the i-th step
   * receives it while no worker is about, so it was sent before, and a bucket begins later.
   */
  predicate ReceivedLate(steps: seq<Step>, i: nat)
    requires i < |steps|
  {
    ReceivesItem(steps[i]) && Idle(steps[..i]) && exists k :: i < k < |steps| && steps[k].Begin?
  }

  predicate NoneReceivedLate(steps: seq<Step>) {
    forall i :: 0 <= i < |steps| ==> !ReceivedLate(steps, i)
  }

  /** While no worker is about nothing is sent, and only a bucket's begin changes that. */
  lemma StillIdle(start: Pass, steps: seq<Step>, m: nat)
    requires !start.scanning && After(start, steps).Some? && m < |steps| && Idle(steps[..m])
    ensures steps[m].Begin? || (steps[m].Receive? && Idle(steps[..m + 1]))
    ensures !steps[m].Begin? ==> Recent(steps[..m + 1]) >= Recent(steps[..m]) + if ReceivesItem(steps[m]) then 1 else 0
  {
    PrefixRuns(start, steps, m);
    PrefixRuns(start, steps, m + 1);
    assert steps[..m + 1][..m] == steps[..m];
    IdleExactly(start, steps[..m]);
  }

  lemma {:induction false} PrefixRuns(start: Pass, steps: seq<Step>, m: nat)
    requires After(start, steps).Some? && m <= |steps|
    ensures After(start, steps[..m]).Some?
    decreases |steps|
  {
    if m < |steps| {
      var init := steps[..|steps| - 1];
      assert init[..m] == steps[..m];
      PrefixRuns(start, init, m);
    } else {
      assert steps[..m] == steps;
    }
  }

  /** From a late receipt on, recent items remain until a bucket begins. */
  lemma {:induction false} LateStaysRecent(start: Pass, steps: seq<Step>, i: nat, k: nat) returns (j: nat)
    requires !start.scanning && After(start, steps).Some? && i < k < |steps| && steps[k].Begin?
    requires Idle(steps[..i]) && (Recent(steps[..i]) > 0 || ReceivesItem(steps[i]))
    ensures j <= k && steps[j].Begin? && Recent(steps[..j]) > 0
    decreases k - i
  {
    if steps[i].Begin? {
      j := i;
    } else {
      StillIdle(start, steps, i);
      if i + 1 == k {
        j := k;
      } else {
        j := LateStaysRecent(start, steps, i + 1, k);
      }
    }
  }

  /** A recent item at an idle time was received at an idle time. */
  lemma {:induction false} RecentWasLate(start: Pass, steps: seq<Step>, j: nat) returns (i: nat)
    requires !start.scanning && After(start, steps).Some? && NoGiveUp(steps) && j <= |steps|
    requires Idle(steps[..j]) && Recent(steps[..j]) > 0
    ensures i < j && ReceivesItem(steps[i]) && Idle(steps[..i])
    decreases j
  {
    assert steps[..j][..j - 1] == steps[..j - 1];
    var e := steps[j - 1];
    if ReceivesItem(e) {
      i := j - 1;
    } else {
      i := RecentWasLate(start, steps, j - 1);
    }
  }

  /**
   * When every bucket is finished: every report counts exactly if no report that is pending at a `bucketDone` is
   * received before the `resume` that follows it.
   */
  lemma FinishedPassCountsExactly(t: Tracker, base: Books, steps: seq<Step>)
    requires After(Start(t, base), steps).Some? && NoGiveUp(steps)
    ensures var s := After(Start(t, base), steps).value;
            s.mine.now + ItemsIn(s.channel) == s.sent <==> NoneReceivedLate(steps)
  {
    var start := Start(t, base);
    EveryReportCountsExactly(t, base, steps);
    if !NoneReceivedLate(steps) {
      var i :| 0 <= i < |steps| && ReceivedLate(steps, i);
      var k :| i < k < |steps| && steps[k].Begin?;
      var j := LateStaysRecent(start, steps, i, k);
    }
    if !OnTime(steps) {
      var j :| 0 <= j < |steps| && steps[j].Begin? && Recent(steps[..j]) != 0;
      BeginsIdle(start, steps, j);
      var i := RecentWasLate(start, steps, j);
      assert ReceivedLate(steps, i);
    }
  }

  lemma BeginsIdle(start: Pass, steps: seq<Step>, j: nat)
    requires !start.scanning && After(start, steps).Some? && j < |steps| && steps[j].Begin?
    ensures Idle(steps[..j])
  {
    PrefixRuns(start, steps, j + 1);
    assert steps[..j + 1][..j] == steps[..j];
    IdleExactly(start, steps[..j]);
  }

  // ---- a report that is lost ----

  lemma Then(start: Pass, steps: seq<Step>, s: Pass, e: Step) returns (more: seq<Step>, s': Pass)
    requires After(start, steps) == Some(s) && Enabled(s, e) && NoGiveUp(steps) && !e.GiveUp?
    ensures more == steps + [e] && s' == Apply(s, e) && After(start, more) == Some(s') && NoGiveUp(more)
  {
    more, s' := steps + [e], Apply(s, e);
    Extend(start, steps, e);
  }

  lemma HeadOfTwo(a: bytes, b: bytes)
    requires a != b
    ensures !Panics([a, b], a) && Sweep([a, b], 0, a) == [b]
    ensures !Panics([b], b) && Sweep([b], 0, b) == []
  {
    assert Sweep([a, b], 0, a) == [b] + Sweep([a, b], 2, a);
  }

  /** A bucket is done while the report of a failed item is still pending; then the report is received. */
  lemma DoneBeforeReceived(t: Tracker, a: bytes, b: bytes, i: Item) returns (steps: seq<Step>, s: Pass)
    requires t.queuedBuckets == [a, b] && a != [] && a != b && t.bucket == [] && i.Class() == FailedItem
    ensures After(Start(t, NOTHING), steps) == Some(s) && NoGiveUp(steps)
    ensures s.sent == [i] && s.channel == [] && s.mine.atDone == [] && !s.scanning
    ensures s.t.bucket == a && s.t.resumeItemsFailed == t.itemsFailed && s.t.itemsFailed == Plus(t.itemsFailed, 1)
    ensures s.t.queuedBuckets == [b] && s.t.healedBuckets == t.healedBuckets + [a]
  {
    var start := Start(t, NOTHING);
    assert After(start, []) == Some(start);
    hide After;
    ItemsOne(Counted(i));
    HeadOfTwo(a, b);
    steps, s := Then(start, [], start, Begin(a));
    steps, s := Then(start, steps, s, Send(Counted(i)));
    steps, s := Then(start, steps, s, Finish);
    hide Sweep, Panics, ItemsIn;
    steps, s := Then(start, steps, s, Receive(Counted(i)));
  }

  /**
   * Two buckets, and one item that fails in the first. Its report is pending when that bucket is done, received after
   * that, and forgotten by the resume of the second bucket: both buckets are healed, and no failed item is left to
   * make the drive be healed again.
   */
  lemma LateReportVanishes(t: Tracker, a: bytes, b: bytes, i: Item) returns (steps: seq<Step>)
    requires t.queuedBuckets == [a, b] && a != [] && b != [] && a != b && t.bucket == [] && t.itemsFailed == 0
    requires i.Class() == FailedItem
    ensures After(Start(t, NOTHING), steps).Some? && NoGiveUp(steps)
    ensures var s := After(Start(t, NOTHING), steps).value;
            s.sent == [i] && s.channel == [] && s.mine.now == [] &&
            s.t.queuedBuckets == [] && s.t.healedBuckets == t.healedBuckets + [a, b] && s.t.itemsFailed == 0
  {
    hide After;
    var start := Start(t, NOTHING);
    var s;
    steps, s := DoneBeforeReceived(t, a, b, i);
    HeadOfTwo(a, b);
    steps, s := Then(start, steps, s, Begin(b));
    steps, s := Then(start, steps, s, Finish);
    assert t.healedBuckets + [a, b] == t.healedBuckets + [a] + [b];
  }
}
