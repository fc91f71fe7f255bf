/**
 * A whole batch-expire job: the walk, workers that share the job's counters and the object layer in any
 * interleaving, and what is left in the bucket (cmd/batch-expire.go, cmd/batch-handlers.go).
 */
module ExpireJob {
  import opened ExpireWalk
  import opened ExpireLoops
  import opened ExpireDelete
  import opened RetryLaws
  import opened ExpireWorker
  import opened Retention

  // ---- counting operations ----

  /** One update of the counters, under their lock. */
  datatype Op =
    | ItemOp(size: int, dmarker: bool, success: bool, attempt: int)
    | WholeOp(e: Entry, success: bool)

  function Counted1(c: Counters, op: Op): Counters {
    match op
    case ItemOp(size, dmarker, success, attempt) => ItemCounted(c, size, dmarker, success, attempt)
    case WholeOp(e, success) => WholeCounted(c, e, success)
  }

  function CountAll(c: Counters, ops: seq<Op>): Counters {
    if ops == [] then c else Counted1(CountAll(c, ops[..|ops| - 1]), ops[|ops| - 1])
  }

  const ZERO := Counters(0, 0, 0, 0, 0, 0, 0)

  function Plus(c: Counters, d: Counters): Counters {
    Counters(c.attempts + d.attempts, c.objects + d.objects, c.deleteMarkers + d.deleteMarkers,
             c.objectsFailed + d.objectsFailed, c.deleteMarkersFailed + d.deleteMarkersFailed,
             c.bytesTransferred + d.bytesTransferred, c.bytesFailed + d.bytesFailed)
  }

  lemma {:induction false} Counted1IsPlus(c: Counters, d: Counters, op: Op)
    ensures Counted1(Plus(c, d), op) == Plus(c, Counted1(d, op))
  {
  }

  lemma {:induction false} CountAllIsPlus(c: Counters, ops: seq<Op>)
    ensures CountAll(c, ops) == Plus(c, CountAll(ZERO, ops))
  {
    if ops != [] {
      var init, last := ops[..|ops| - 1], ops[|ops| - 1];
      CountAllIsPlus(c, init);
      Counted1IsPlus(c, CountAll(ZERO, init), last);
      hide Counted1;
    }
  }

  lemma {:induction false} CountAllConcat(c: Counters, a: seq<Op>, b: seq<Op>)
    ensures CountAll(c, a + b) == CountAll(CountAll(c, a), b)
  {
    if b == [] {
      assert a + b == a;
    } else {
      var init := b[..|b| - 1];
      CountAllConcat(c, a, init);
      assert (a + b)[..|a + b| - 1] == a + init;
    }
  }

  lemma {:induction false} CountOne(c: Counters, ops: seq<Op>, op: Op)
    ensures CountAll(c, ops + [op]) == Counted1(CountAll(c, ops), op)
  {
    assert (ops + [op])[..|ops|] == ops;
  }

  // ---- any interleaving of the workers ----

  /** These operations are those of the lists, each list in its own order. */
  predicate IsInterleaving(ops: seq<Op>, lists: seq<seq<Op>>)
    decreases |ops|, 1
  {
    if ops == [] then forall w :: 0 <= w < |lists| ==> lists[w] == []
    else exists w :: 0 <= w < |lists| && LastFrom(ops, lists, w)
  }

  /** The last operation is the last one of list w, and the others are an interleaving of the rest. */
  predicate LastFrom(ops: seq<Op>, lists: seq<seq<Op>>, w: nat)
    requires ops != [] && w < |lists|
    decreases |ops|, 0
  {
    lists[w] != [] && lists[w][|lists[w]| - 1] == ops[|ops| - 1] &&
    IsInterleaving(ops[..|ops| - 1], lists[w := lists[w][..|lists[w]| - 1]])
  }

  /** What the first n lists together add. */
  function Total(lists: seq<seq<Op>>, n: nat): Counters
    requires n <= |lists|
  {
    if n == 0 then ZERO else Plus(Total(lists, n - 1), CountAll(ZERO, lists[n - 1]))
  }

  lemma {:induction false} TotalOfNothing(lists: seq<seq<Op>>, n: nat)
    requires n <= |lists| && forall w :: 0 <= w < |lists| ==> lists[w] == []
    ensures Total(lists, n) == ZERO
  {
    if n > 0 {
      TotalOfNothing(lists, n - 1);
      assert lists[n - 1] == [];
      assert CountAll(ZERO, []) == ZERO;
      hide CountAll;
    }
  }

  lemma {:induction false} TotalElsewhere(lists: seq<seq<Op>>, w: nat, l: seq<Op>, n: nat)
    requires n <= w < |lists|
    ensures Total(lists[w := l], n) == Total(lists, n)
  {
    hide CountAll, Plus;
    if n > 0 {
      TotalElsewhere(lists, w, l, n - 1);
    }
  }

  lemma {:induction false} TotalUpdate(lists: seq<seq<Op>>, w: nat, l: seq<Op>, op: Op, n: nat)
    requires w < n <= |lists| && lists[w] == l + [op]
    ensures Total(lists, n) == Counted1(Total(lists[w := l], n), op)
  {
    hide CountAll, Plus, Counted1;
    if w == n - 1 {
      TotalElsewhere(lists, w, l, w);
      CountOne(ZERO, l, op);
      Counted1IsPlus(Total(lists, w), CountAll(ZERO, l), op);
    } else {
      TotalUpdate(lists, w, l, op, n - 1);
      PlusSwaps(Total(lists[w := l], n - 1), CountAll(ZERO, lists[n - 1]), op);
    }
  }

  lemma {:induction false} PlusSwaps(c: Counters, d: Counters, op: Op)
    ensures Plus(Counted1(c, op), d) == Counted1(Plus(c, d), op)
  {
  }

  lemma {:induction false} LastSplit(ops: seq<Op>, lists: seq<seq<Op>>, w: nat)
    returns (init: seq<Op>, op: Op, l: seq<Op>)
    requires ops != [] && w < |lists| && LastFrom(ops, lists, w)
    ensures ops == init + [op] && lists[w] == l + [op] && IsInterleaving(init, lists[w := l])
  {
    init, op, l := ops[..|ops| - 1], ops[|ops| - 1], lists[w][..|lists[w]| - 1];
    assert ops == init + [op] && lists[w] == l + [op];
  }

  /**
   * Whatever the interleaving of workers that share the counters: in the end the counters are where they started,
   * plus what each worker adds on its own.
   */
  lemma {:induction false} InterleavingsAddUp(c: Counters, ops: seq<Op>, lists: seq<seq<Op>>)
    requires IsInterleaving(ops, lists)
    ensures CountAll(c, ops) == Plus(c, Total(lists, |lists|))
    decreases |ops|
  {
    if ops == [] {
      TotalOfNothing(lists, |lists|);
    } else {
      var w :| 0 <= w < |lists| && LastFrom(ops, lists, w);
      var init, op, l := LastSplit(ops, lists, w);
      hide *;
      InterleavingsAddUp(c, init, lists[w := l]);
      TotalUpdate(lists, w, l, op, |lists|);
      CountOne(c, init, op);
      Counted1IsPlus(c, Total(lists[w := l], |lists|), op);
    }
  }

  // ---- workers ----

  /** The record of one worker: its batch, and what the object layer answered. */
  datatype Worker = Worker(batch: seq<Entry>, outcomes: seq<bool>, calls: seq<seq<Slot>>, trace: seq<seq<Slot>>)

  /** Records of workers, cancelled or not. */
  predicate IsWorker(w: Worker, retries: nat) {
    |w.outcomes| == |w.calls| <= |Wholes(w.batch)| &&
    (forall i :: 0 <= i < |w.calls| ==> WholeCalls(Wholes(w.batch)[i], w.calls[i], w.outcomes[i], retries)) &&
    IsTrace(Singles(w.batch), w.trace)
  }

  predicate IsFinished(w: Worker, retries: nat) {
    IsWorker(w, retries) && |w.outcomes| == |Wholes(w.batch)| && Finished(w.trace, retries)
  }

  function SlotOps(cache: Cache, slots: seq<Slot>, attempt: int): seq<Op> {
    if slots == [] then []
    else
      var s := slots[|slots| - 1];
      SlotOps(cache, slots[..|slots| - 1], attempt) +
      if CacheKey(s.obj) in cache
      then [ItemOp(cache[CacheKey(s.obj)].size, cache[CacheKey(s.obj)].deleteMarker, !s.failed, attempt)]
      else []
  }

  function TraceOps(cache: Cache, trace: seq<seq<Slot>>): seq<Op> {
    if trace == [] then []
    else TraceOps(cache, trace[..|trace| - 1]) + SlotOps(cache, trace[|trace| - 1], |trace|)
  }

  function WholeOps(es: seq<Entry>, outcomes: seq<bool>): seq<Op>
    requires |outcomes| <= |es|
  {
    if outcomes == [] then []
    else
      var last := |outcomes| - 1;
      WholeOps(es, outcomes[..last]) + [WholeOp(es[last], outcomes[last])]
  }

  /** The counting operations of a worker, in its order. */
  function OpsOf(w: Worker): seq<Op>
    requires |w.outcomes| <= |Wholes(w.batch)|
  {
    WholeOps(Wholes(w.batch), w.outcomes) + TraceOps(CacheOf(w.batch), w.trace)
  }

  lemma {:induction false} SlotOpsTally(c: Counters, cache: Cache, slots: seq<Slot>, attempt: int)
    ensures CountAll(c, SlotOps(cache, slots, attempt)) == AttemptTally(c, cache, slots, attempt)
  {
    if slots != [] {
      var init, s := slots[..|slots| - 1], slots[|slots| - 1];
      SlotOpsTally(c, cache, init, attempt);
      var ops := SlotOps(cache, init, attempt);
      if CacheKey(s.obj) in cache {
        CountOne(c, ops, ItemOp(cache[CacheKey(s.obj)].size, cache[CacheKey(s.obj)].deleteMarker, !s.failed, attempt));
      } else {
        assert ops + [] == ops;
      }
      hide CountAll, ItemCounted, CacheKey;
    }
  }

  lemma {:induction false} TraceOpsTally(c: Counters, cache: Cache, trace: seq<seq<Slot>>)
    ensures CountAll(c, TraceOps(cache, trace)) == TraceTally(c, cache, trace)
  {
    hide SlotOps, AttemptTally, Counted1;
    if trace != [] {
      var init, last := trace[..|trace| - 1], trace[|trace| - 1];
      TraceOpsTally(c, cache, init);
      CountAllConcat(c, TraceOps(cache, init), SlotOps(cache, last, |trace|));
      SlotOpsTally(TraceTally(c, cache, init), cache, last, |trace|);
    }
  }

  lemma {:induction false} WholeOpsTally(c: Counters, es: seq<Entry>, outcomes: seq<bool>)
    requires |outcomes| <= |es|
    ensures CountAll(c, WholeOps(es, outcomes)) == WholesTally(c, es, outcomes)
  {
    if outcomes != [] {
      var last := |outcomes| - 1;
      WholeOpsTally(c, es, outcomes[..last]);
      CountOne(c, WholeOps(es, outcomes[..last]), WholeOp(es[last], outcomes[last]));
    }
  }

  /** The operations of a worker are what a worker on its own does to the counters. */
  lemma {:induction false} OpsAreWork(c: Counters, w: Worker)
    requires |w.outcomes| <= |Wholes(w.batch)|
    ensures CountAll(c, OpsOf(w)) ==
            TraceTally(WholesTally(c, Wholes(w.batch), w.outcomes), CacheOf(w.batch), w.trace)
  {
    WholeOpsTally(c, Wholes(w.batch), w.outcomes);
    TraceOpsTally(WholesTally(c, Wholes(w.batch), w.outcomes), CacheOf(w.batch), w.trace);
    CountAllConcat(c, WholeOps(Wholes(w.batch), w.outcomes), TraceOps(CacheOf(w.batch), w.trace));
    hide CountAll, WholeOps, TraceOps, TraceTally, WholesTally;
  }

  // ---- what a job adds to the counters ----

  predicate AllWorkers(ws: seq<Worker>, retries: nat) {
    forall i :: 0 <= i < |ws| ==> IsWorker(ws[i], retries)
  }

  predicate AllFinished(ws: seq<Worker>, retries: nat) {
    forall i :: 0 <= i < |ws| ==> IsFinished(ws[i], retries)
  }

  function Lists(ws: seq<Worker>, retries: nat): (lists: seq<seq<Op>>)
    requires AllWorkers(ws, retries)
    ensures |lists| == |ws|
  {
    seq(|ws|, i requires 0 <= i < |ws| => OpsOf(ws[i]))
  }

  /** The versions that a worker deleted, and those it left although they were asked for. */
  function Gone(w: Worker): int
    requires |w.outcomes| <= |Wholes(w.batch)|
  {
    WholeVersions(Wholes(w.batch), w.outcomes, true) + |Successes(w.trace)|
  }

  function Missed(w: Worker): int
    requires |w.outcomes| <= |Wholes(w.batch)|
  {
    WholeVersions(Wholes(w.batch), w.outcomes, false) + |Next(Singles(w.batch), w.trace)|
  }

  function SumGone(ws: seq<Worker>, retries: nat, n: nat): int
    requires AllWorkers(ws, retries) && n <= |ws|
  {
    if n == 0 then 0 else SumGone(ws, retries, n - 1) + Gone(ws[n - 1])
  }

  function SumMissed(ws: seq<Worker>, retries: nat, n: nat): int
    requires AllWorkers(ws, retries) && n <= |ws|
  {
    if n == 0 then 0 else SumMissed(ws, retries, n - 1) + Missed(ws[n - 1])
  }

  function SumVersions(ws: seq<Worker>, n: nat): int
    requires n <= |ws|
  {
    if n == 0 then 0 else SumVersions(ws, n - 1) + BatchVersions(ws[n - 1].batch)
  }

  lemma {:induction false} FinishedMeans(w: Worker, retries: nat)
    requires IsFinished(w, retries)
    ensures |w.outcomes| == |Wholes(w.batch)| && IsTrace(Singles(w.batch), w.trace) && w.trace != []
  {
  }

  /** What a worker does to counters that start at zero. */
  lemma {:induction false} WorkerTally(w: Worker)
    requires |w.outcomes| == |Wholes(w.batch)| && IsTrace(Singles(w.batch), w.trace) && w.trace != []
    ensures var t := TraceTally(WholesTally(ZERO, Wholes(w.batch), w.outcomes), CacheOf(w.batch), w.trace);
            t.Gone() == Gone(w) && t.Missed() == Missed(w) && Gone(w) + Missed(w) == BatchVersions(w.batch)
  {
    hide TraceTally, WholesTally, Wholes, Singles, IsTrace, WholeVersions, BatchVersions, Successes, Next, CacheOf;
    BatchConserves(ZERO, w.batch, w.outcomes, w.trace);
  }

  lemma {:induction false} WorkerAdds(w: Worker, retries: nat)
    requires IsFinished(w, retries)
    ensures var t := CountAll(ZERO, OpsOf(w));
            t.Gone() == Gone(w) && t.Missed() == Missed(w) && Gone(w) + Missed(w) == BatchVersions(w.batch)
  {
    hide *;
    FinishedMeans(w, retries);
    OpsAreWork(ZERO, w);
    WorkerTally(w);
  }

  lemma {:induction false} TotalStep(ws: seq<Worker>, retries: nat, n: nat)
    requires AllWorkers(ws, retries) && AllFinished(ws, retries) && 0 < n <= |ws|
    ensures var t, d := Total(Lists(ws, retries), n), CountAll(ZERO, OpsOf(ws[n - 1]));
            t.Gone() == Total(Lists(ws, retries), n - 1).Gone() + d.Gone() &&
            t.Missed() == Total(Lists(ws, retries), n - 1).Missed() + d.Missed()
    ensures IsFinished(ws[n - 1], retries)
  {
    hide IsFinished, IsWorker, CountAll, OpsOf;
  }

  lemma {:induction false} SumStep(ws: seq<Worker>, retries: nat, n: nat)
    requires AllWorkers(ws, retries) && 0 < n <= |ws|
    ensures SumGone(ws, retries, n) == SumGone(ws, retries, n - 1) + Gone(ws[n - 1])
    ensures SumMissed(ws, retries, n) == SumMissed(ws, retries, n - 1) + Missed(ws[n - 1])
    ensures SumVersions(ws, n) == SumVersions(ws, n - 1) + BatchVersions(ws[n - 1].batch)
  {
  }

  lemma {:induction false} WorkersAdd(ws: seq<Worker>, retries: nat, n: nat)
    requires AllWorkers(ws, retries) && AllFinished(ws, retries) && n <= |ws|
    ensures var t := Total(Lists(ws, retries), n);
            t.Gone() == SumGone(ws, retries, n) && t.Missed() == SumMissed(ws, retries, n) &&
            SumGone(ws, retries, n) + SumMissed(ws, retries, n) == SumVersions(ws, n)
  {
    hide *;
    if n > 0 {
      WorkersAdd(ws, retries, n - 1);
      TotalStep(ws, retries, n);
      SumStep(ws, retries, n);
      WorkerAdds(ws[n - 1], retries);
    } else {
      NoLists(Lists(ws, retries));
      NoSums(ws, retries);
    }
  }

  lemma {:induction false} NoLists(lists: seq<seq<Op>>)
    ensures Total(lists, 0).Gone() == 0 && Total(lists, 0).Missed() == 0
  {
  }

  lemma {:induction false} NoSums(ws: seq<Worker>, retries: nat)
    requires AllWorkers(ws, retries)
    ensures SumGone(ws, retries, 0) == 0 && SumMissed(ws, retries, 0) == 0 && SumVersions(ws, 0) == 0
  {
    hide AllWorkers;
  }

  /**
   * Conservation for a whole job that was not cancelled, whatever the interleaving of its workers and whatever fails:
   * the counters grow by exactly what all workers deleted and by exactly what all workers left.
   */
  lemma {:induction false} JobConserves(c: Counters, ops: seq<Op>, ws: seq<Worker>, retries: nat)
    requires AllWorkers(ws, retries) && AllFinished(ws, retries) && IsInterleaving(ops, Lists(ws, retries))
    ensures var t := CountAll(c, ops);
            t.Gone() - c.Gone() == SumGone(ws, retries, |ws|) &&
            t.Missed() - c.Missed() == SumMissed(ws, retries, |ws|) &&
            (t.Gone() - c.Gone()) + (t.Missed() - c.Missed()) == SumVersions(ws, |ws|)
  {
    InterleavingsAddUp(c, ops, Lists(ws, retries));
    WorkersAdd(ws, retries, |ws|);
    hide IsInterleaving, Total, SumGone, SumMissed, SumVersions, CountAll, AllFinished, AllWorkers;
  }

  // ---- what the object layer's log says is deleted ----

  /** A successful call of the worker deleted the version, with its whole object or on its own. */
  predicate Deletes(w: Worker, v: Version) {
    Slot(ObjectToDelete(v.name, ""), false) in Flatten(w.calls) ||
    Slot(ObjectToDelete(v.name, v.versionID), false) in Flatten(w.trace)
  }

  predicate JobDeletes(ws: seq<Worker>, v: Version) {
    exists i :: 0 <= i < |ws| && Deletes(ws[i], v)
  }

  /** The object layer's log, worker after worker: calls for whole objects, and slots of calls for versions. */
  function WholeLog(ws: seq<Worker>): seq<Slot> {
    if ws == [] then [] else WholeLog(ws[..|ws| - 1]) + Flatten(ws[|ws| - 1].calls)
  }

  function SlotLog(ws: seq<Worker>): seq<Slot> {
    if ws == [] then [] else SlotLog(ws[..|ws| - 1]) + Flatten(ws[|ws| - 1].trace)
  }

  lemma {:induction false} DeletesSplit(ws: seq<Worker>, v: Version)
    requires ws != []
    ensures JobDeletes(ws, v) <==> JobDeletes(ws[..|ws| - 1], v) || Deletes(ws[|ws| - 1], v)
  {
    hide Deletes;
    var n := |ws| - 1;
    if i :| 0 <= i < |ws| && Deletes(ws[i], v) {
      assert i < n ==> Deletes(ws[..n][i], v);
    }
    if i :| 0 <= i < n && Deletes(ws[..n][i], v) {
      assert Deletes(ws[i], v);
    }
  }

  /** A job deletes what the successful calls in the log name, in whatever order the calls were made. */
  lemma {:induction false} LogDeletes(ws: seq<Worker>, v: Version)
    ensures JobDeletes(ws, v) <==>
            Slot(ObjectToDelete(v.name, ""), false) in WholeLog(ws) ||
            Slot(ObjectToDelete(v.name, v.versionID), false) in SlotLog(ws)
  {
    if ws != [] {
      LogDeletes(ws[..|ws| - 1], v);
      DeletesSplit(ws, v);
      hide Flatten, JobDeletes;
    }
  }

  function Batches(ws: seq<Worker>): (bs: seq<seq<Entry>>)
    ensures |bs| == |ws|
  {
    seq(|ws|, i requires 0 <= i < |ws| => ws[i].batch)
  }

  lemma {:induction false} InFlatten<T>(lists: seq<seq<T>>, x: T)
    ensures x in Flatten(lists) <==> exists i :: 0 <= i < |lists| && x in lists[i]
  {
    if lists != [] {
      var n := |lists| - 1;
      InFlatten(lists[..n], x);
      if i :| 0 <= i < |lists| && x in lists[i] {
        assert i < n ==> x in lists[..n][i];
      }
    }
  }

  lemma {:induction false} InWholes(es: seq<Entry>, e: Entry)
    ensures e in Wholes(es) <==> e in es && e.expireAll
  {
    if es != [] {
      InWholes(es[..|es| - 1], e);
      assert es == es[..|es| - 1] + [es[|es| - 1]];
    }
  }

  lemma {:induction false} InSingles(es: seq<Entry>, o: ObjectToDelete)
    ensures o in Singles(es) <==> exists e :: e in es && !e.expireAll && ToDelete(e) == o
  {
    if es != [] {
      var init, last := es[..|es| - 1], es[|es| - 1];
      InSingles(init, o);
      assert es == init + [last];
      assert last in es;
    }
  }

  lemma {:induction false} InPick(slots: seq<Slot>, which: bool, o: ObjectToDelete)
    ensures o in Pick(slots, which) <==> Slot(o, which) in slots
  {
    if slots != [] {
      InPick(slots[..|slots| - 1], which, o);
      assert slots == slots[..|slots| - 1] + [slots[|slots| - 1]];
    }
  }

  lemma {:induction false} InObjs(slots: seq<Slot>, s: Slot)
    requires s in slots
    ensures s.obj in Objs(slots)
  {
    var i :| 0 <= i < |slots| && slots[i] == s;
    assert Objs(slots)[i] == s.obj;
  }

  /** An attempt asks only for objects that the worker was to delete. */
  lemma {:induction false} AskedFor(objs: seq<ObjectToDelete>, trace: seq<seq<Slot>>, s: Slot)
    requires IsTrace(objs, trace)
    ensures s in Flatten(trace) ==> s.obj in objs
    ensures s.obj in Next(objs, trace) ==> s.obj in objs
  {
    if trace != [] {
      var init, last := trace[..|trace| - 1], trace[|trace| - 1];
      AskedFor(objs, init, s);
      if s in last {
        InObjs(last, s);
      }
      InPick(last, true, s.obj);
      if Slot(s.obj, true) in last {
        InObjs(last, Slot(s.obj, true));
      }
    }
  }

  /** Every object is left in the end, or a call for it succeeded. */
  lemma {:induction false} SettledOrLeft(objs: seq<ObjectToDelete>, trace: seq<seq<Slot>>, o: ObjectToDelete)
    requires IsTrace(objs, trace) && o in objs
    ensures o in Next(objs, trace) || Slot(o, false) in Flatten(trace)
  {
    if trace != [] {
      var init, last := trace[..|trace| - 1], trace[|trace| - 1];
      SettledOrLeft(objs, init, o);
      if o in Next(objs, init) {
        var i :| 0 <= i < |last| && Objs(last)[i] == o;
        assert last[i] == Slot(o, true) || last[i] == Slot(o, false);
        InPick(last, true, o);
      }
    }
  }

  /** What a worker deletes is hit by an entry of its batch. */
  lemma {:induction false} DeletesWhatIsSent(w: Worker, retries: nat, v: Version)
    requires IsWorker(w, retries) && Deletes(w, v)
    ensures Deleted(w.batch, v)
  {
    var s := Slot(ObjectToDelete(v.name, ""), false);
    if s in Flatten(w.calls) {
      InFlatten(w.calls, s);
      var i :| 0 <= i < |w.calls| && s in w.calls[i];
      var e := Wholes(w.batch)[i];
      assert WholeCalls(e, w.calls[i], w.outcomes[i], retries);
      InWholes(w.batch, e);
      var x :| 0 <= x < |w.batch| && w.batch[x] == e;
      assert Hits(w.batch[x], v);
    } else {
      s := Slot(ObjectToDelete(v.name, v.versionID), false);
      AskedFor(Singles(w.batch), w.trace, s);
      InSingles(w.batch, s.obj);
      var e :| e in w.batch && !e.expireAll && ToDelete(e) == s.obj;
      var x :| 0 <= x < |w.batch| && w.batch[x] == e;
      assert Hits(w.batch[x], v);
    }
  }

  predicate NothingFailed(w: Worker) {
    (forall i :: 0 <= i < |w.outcomes| ==> w.outcomes[i]) && Next(Singles(w.batch), w.trace) == []
  }

  /** If nothing failed, whatever an entry of the batch hits is deleted. */
  lemma {:induction false} DeletesAllThatIsSent(w: Worker, retries: nat, v: Version)
    requires IsFinished(w, retries) && NothingFailed(w) && Deleted(w.batch, v)
    ensures Deletes(w, v)
  {
    var x :| 0 <= x < |w.batch| && Hits(w.batch[x], v);
    var e := w.batch[x];
    if e.expireAll {
      InWholes(w.batch, e);
      var i :| 0 <= i < |Wholes(w.batch)| && Wholes(w.batch)[i] == e;
      var calls := w.calls[i];
      assert WholeCalls(e, calls, w.outcomes[i], retries);
      var s := calls[|calls| - 1];
      assert s in calls && s == Slot(ObjectToDelete(v.name, ""), false);
      InFlatten(w.calls, s);
    } else {
      InSingles(w.batch, ToDelete(e));
      SettledOrLeft(Singles(w.batch), w.trace, ToDelete(e));
    }
  }

  lemma {:induction false} DeletedInBatches(ws: seq<Worker>, v: Version)
    ensures Deleted(Flatten(Batches(ws)), v) <==> exists i :: 0 <= i < |ws| && Deleted(ws[i].batch, v)
  {
    var es := Flatten(Batches(ws));
    if Deleted(es, v) {
      var x :| 0 <= x < |es| && Hits(es[x], v);
      InFlatten(Batches(ws), es[x]);
      var i :| 0 <= i < |ws| && es[x] in Batches(ws)[i];
      var y :| 0 <= y < |ws[i].batch| && ws[i].batch[y] == es[x];
      assert Deleted(ws[i].batch, v);
    }
    if i :| 0 <= i < |ws| && Deleted(ws[i].batch, v) {
      var y :| 0 <= y < |ws[i].batch| && Hits(ws[i].batch[y], v);
      var e := ws[i].batch[y];
      assert e in Batches(ws)[i];
      InFlatten(Batches(ws), e);
      var x :| 0 <= x < |es| && es[x] == e;
      assert Hits(es[x], v);
    }
  }

  /**
   * Safety of a whole job, cancelled or not and whatever fails: no successful call in the object layer's log deletes
   * a version that its object is to keep.
   */
  lemma {:induction false} JobIsSafe(objs: seq<seq<Version>>, rules: seq<Rule>, ws: seq<Worker>,
                                       retries: nat, j: nat, i: nat)
    requires IsBucket(objs) && j < |objs| && DistinctIDs(objs[j]) && i < Keeps(rules, objs[j])
    requires AllWorkers(ws, retries)
    requires Plain(Flatten(Batches(ws))) <= Expected(Flatten(objs), rules, |Flatten(objs)|)
    ensures !JobDeletes(ws, objs[j][i])
  {
    var v := objs[j][i];
    RetainedIsSafe(objs, rules, Flatten(Batches(ws)), j, i);
    DeletedInBatches(ws, v);
    forall k | 0 <= k < |ws| ensures !Deletes(ws[k], v) {
      if Deletes(ws[k], v) {
        DeletesWhatIsSent(ws[k], retries, v);
      }
    }
  }

  /** If nothing failed the log deletes exactly the versions beyond the ones an object keeps. */
  lemma {:induction false} JobRetention(objs: seq<seq<Version>>, rules: seq<Rule>, ws: seq<Worker>,
                                          retries: nat, j: nat, i: nat)
    requires IsBucket(objs) && j < |objs| && DistinctIDs(objs[j]) && i < |objs[j]|
    requires AllFinished(ws, retries) && forall k :: 0 <= k < |ws| ==> NothingFailed(ws[k])
    requires Plain(Flatten(Batches(ws))) == Expected(Flatten(objs), rules, |Flatten(objs)|)
    ensures JobDeletes(ws, objs[j][i]) <==> i >= Keeps(rules, objs[j])
  {
    var v := objs[j][i];
    SentHitsExactly(objs, rules, Flatten(Batches(ws)), j, i);
    DeletedInBatches(ws, v);
    if k :| 0 <= k < |ws| && Deletes(ws[k], v) {
      DeletesWhatIsSent(ws[k], retries, v);
    }
    if k :| 0 <= k < |ws| && Deleted(ws[k].batch, v) {
      DeletesAllThatIsSent(ws[k], retries, v);
    }
  }

  // ---- what the counters tell ----

  /** A whole object has at least one version. */
  predicate CountsVersions(w: Worker) {
    forall e :: e in w.batch && e.expireAll ==> e.v.numVersions > 0
  }

  lemma {:induction false} MissedWholes(es: seq<Entry>, outcomes: seq<bool>)
    requires |outcomes| <= |es| && forall e :: e in es ==> e.v.numVersions > 0
    ensures WholeVersions(es, outcomes, false) >= 0
    ensures WholeVersions(es, outcomes, false) == 0 <==> forall i :: 0 <= i < |outcomes| ==> outcomes[i]
  {
    if outcomes != [] {
      var n := |outcomes| - 1;
      MissedWholes(es, outcomes[..n]);
      assert es[n] in es;
      assert (forall i :: 0 <= i < |outcomes| ==> outcomes[i]) <==>
             (outcomes[n] && forall i :: 0 <= i < n ==> outcomes[..n][i]);
    }
  }

  lemma {:induction false} MissedExactly(w: Worker)
    requires |w.outcomes| <= |Wholes(w.batch)| && CountsVersions(w)
    ensures Missed(w) >= 0 && (Missed(w) == 0 <==> NothingFailed(w))
  {
    forall e | e in Wholes(w.batch) ensures e.v.numVersions > 0 {
      InWholes(w.batch, e);
    }
    MissedWholes(Wholes(w.batch), w.outcomes);
  }

  lemma {:induction false} SumMissedExactly(ws: seq<Worker>, retries: nat, n: nat)
    requires AllWorkers(ws, retries) && n <= |ws| && forall k :: 0 <= k < |ws| ==> CountsVersions(ws[k])
    ensures SumMissed(ws, retries, n) >= 0
    ensures SumMissed(ws, retries, n) == 0 <==> forall k :: 0 <= k < n ==> NothingFailed(ws[k])
  {
    hide NothingFailed, CountsVersions, Missed;
    if n > 0 {
      SumMissedExactly(ws, retries, n - 1);
      assert IsWorker(ws[n - 1], retries);
      MissedExactly(ws[n - 1]);
    }
  }

  /**
   * The counters of a job that was not cancelled tell the truth: the failed ones do not move exactly if nothing
   * failed, and then the calls in the log delete exactly the versions beyond the ones that each object keeps.
   */
  lemma {:induction false} CountersTellTheTruth(objs: seq<seq<Version>>, rules: seq<Rule>, c: Counters,
                                                  ops: seq<Op>, ws: seq<Worker>, retries: nat, j: nat, i: nat)
    requires IsBucket(objs) && j < |objs| && DistinctIDs(objs[j]) && i < |objs[j]|
    requires AllWorkers(ws, retries) && AllFinished(ws, retries) && IsInterleaving(ops, Lists(ws, retries))
    requires forall k :: 0 <= k < |ws| ==> CountsVersions(ws[k])
    requires Plain(Flatten(Batches(ws))) == Expected(Flatten(objs), rules, |Flatten(objs)|)
    ensures CountAll(c, ops).Missed() == c.Missed() <==> forall k :: 0 <= k < |ws| ==> NothingFailed(ws[k])
    ensures CountAll(c, ops).Missed() == c.Missed() ==> (JobDeletes(ws, objs[j][i]) <==> i >= Keeps(rules, objs[j]))
  {
    JobConserves(c, ops, ws, retries);
    SumMissedExactly(ws, retries, |ws|);
    hide NothingFailed, CountsVersions, IsInterleaving, SumMissed, SumGone, SumVersions, CountAll, Lists, Batches,
         JobDeletes, Expected, IsFinished, IsWorker, Keeps, DistinctIDs, IsBucket, Flatten, Plain;
    if CountAll(c, ops).Missed() == c.Missed() {
      JobRetention(objs, rules, ws, retries, j, i);
    }
  }

  // ---- one schedule of a whole job ----

  lemma {:induction false} TotalPrefix(lists: seq<seq<Op>>, l: seq<Op>, n: nat)
    requires n <= |lists|
    ensures Total(lists + [l], n) == Total(lists, n)
  {
    hide CountAll, Plus;
    if n > 0 {
      TotalPrefix(lists, l, n - 1);
    }
  }

  lemma {:induction false} OneListMore(ws: seq<Worker>, w: Worker, retries: nat)
    requires AllWorkers(ws, retries) && IsWorker(w, retries)
    ensures AllWorkers(ws + [w], retries)
    ensures Lists(ws + [w], retries) == Lists(ws, retries) + [OpsOf(w)]
    ensures Batches(ws + [w]) == Batches(ws) + [w.batch]
    ensures AllFinished(ws, retries) && IsFinished(w, retries) ==> AllFinished(ws + [w], retries)
  {
    hide IsWorker, IsFinished, OpsOf;
    assert forall i :: 0 <= i < |ws| ==> (ws + [w])[i] == ws[i];
  }

  lemma {:induction false} TotalOneMore(lists: seq<seq<Op>>, l: seq<Op>)
    ensures Total(lists + [l], |lists| + 1) == Plus(Total(lists, |lists|), CountAll(ZERO, l))
  {
    TotalPrefix(lists, l, |lists|);
  }

  lemma {:induction false} PlusAssociative(a: Counters, b: Counters, c: Counters)
    ensures Plus(Plus(a, b), c) == Plus(a, Plus(b, c))
  {
  }

  lemma {:induction false} OutcomesFit(w: Worker, retries: nat)
    requires IsWorker(w, retries)
    ensures |w.outcomes| <= |Wholes(w.batch)|
  {
    hide Wholes;
  }

  lemma {:induction false} OneWorkerMore(c: Counters, ws: seq<Worker>, w: Worker, retries: nat)
    requires AllWorkers(ws, retries) && IsWorker(w, retries)
    ensures AllWorkers(ws + [w], retries)
    ensures Plus(c, Total(Lists(ws + [w], retries), |ws| + 1)) ==
            TraceTally(WholesTally(Plus(c, Total(Lists(ws, retries), |ws|)), Wholes(w.batch), w.outcomes),
                       CacheOf(w.batch), w.trace)
  {
    OneListMore(ws, w, retries);
    OutcomesFit(w, retries);
    hide *;
    var t := Total(Lists(ws, retries), |ws|);
    TotalOneMore(Lists(ws, retries), OpsOf(w));
    CountAllIsPlus(Plus(c, t), OpsOf(w));
    PlusAssociative(c, t, CountAll(ZERO, OpsOf(w)));
    OpsAreWork(Plus(c, t), w);
  }

  lemma {:induction false} FlattenPrefix(sent: seq<seq<Entry>>, i: nat)
    requires i <= |sent|
    ensures Plain(Flatten(sent[..i])) <= Plain(Flatten(sent))
    decreases |sent| - i
  {
    if i == |sent| {
      assert sent[..i] == sent;
    } else {
      FlattenPrefix(sent, i + 1);
      assert sent[..i + 1][..i] == sent[..i];
      PlainConcat(Flatten(sent[..i]), sent[i]);
      hide Plain;
    }
  }

  /** The walk of a job: the batches that it sends, and whether it was cancelled or failed. */
  method Walk(stream: seq<WalkResult>, rules: seq<Rule>, cancellable: bool)
    returns (cancelled: bool, sent: seq<seq<Entry>>, failed: bool)
    requires WellFormed(Items(stream))
    ensures cancelled ==> cancellable
    ensures Plain(Flatten(sent)) <= Expected(Items(stream), rules, |Items(stream)|)
    ensures !cancelled ==> Plain(Flatten(sent)) == Expected(Items(stream), rules, |Items(stream)|)
    ensures !cancelled ==> (failed <==> WalkError in stream)
  {
    hide WellFormed, Expected, Items, Plain, Flatten, HasError;
    var loop := new ExpireLoop(cancellable);
    cancelled := loop.Start(stream, rules);
    cancelled, sent, failed := cancelled || loop.cancelled, loop.sent, loop.failed;
  }

  /**
   * The job with its workers one after the other: what the workers were given, the counters and the flags at the end.
   * Other schedules interleave the same operations of the workers.
   */
  method RunJob(bucket: string, stream: seq<WalkResult>, rules: seq<Rule>, configuredRetries: int,
                cancellable: bool, api: ObjectLayer, ri: BatchJobInfo)
    returns (cancelled: bool, ghost ws: seq<Worker>)
    requires WellFormed(Items(stream))
    modifies api, ri
    ensures cancelled ==> cancellable
    ensures AllWorkers(ws, RetryAttempts(configuredRetries))
    ensures Plain(Flatten(Batches(ws))) <= Expected(Items(stream), rules, |Items(stream)|)
    ensures ri.Value() == Plus(old(ri.Value()), Total(Lists(ws, RetryAttempts(configuredRetries)), |ws|))
    ensures !cancelled ==> AllFinished(ws, RetryAttempts(configuredRetries)) &&
                           Plain(Flatten(Batches(ws))) == Expected(Items(stream), rules, |Items(stream)|)
    ensures !cancelled ==> (ri.complete <==> WalkError !in stream && ri.objectsFailed == 0)
    ensures api.wholes == old(api.wholes) + WholeLog(ws) && api.slots == old(api.slots) + SlotLog(ws)
  {
    hide WellFormed, Expected, Items;
    var sent, walkFailed, workersCancelled;
    cancelled, sent, walkFailed := Walk(stream, rules, cancellable);
    workersCancelled, ws := RunWorkers(bucket, sent, configuredRetries, cancellable, api, ri);
    hide AllWorkers, AllFinished, Lists, Total, Plus, Batches, Flatten, Plain;
    FlattenPrefix(sent, |ws|);
    assert !workersCancelled ==> sent[..|ws|] == sent;
    cancelled := cancelled || workersCancelled;
    if !cancelled {
      ri.Finish(walkFailed);
    }
  }

  /** These workers took the first of the batches sent, and the counters show what they did. */
  ghost predicate Ran(ws: seq<Worker>, retries: nat, sent: seq<seq<Entry>>, before: Counters, now: Counters) {
    AllWorkers(ws, retries) && |ws| <= |sent| && Batches(ws) == sent[..|ws|] &&
    now == Plus(before, Total(Lists(ws, retries), |ws|))
  }

  lemma {:induction false} OneMoreRan(ws: seq<Worker>, retries: nat, sent: seq<seq<Entry>>, before: Counters,
                                      now: Counters, w: Worker)
    requires Ran(ws, retries, sent, before, now) && |ws| < |sent| && w.batch == sent[|ws|] && IsWorker(w, retries)
    ensures Ran(ws + [w], retries, sent, before,
                TraceTally(WholesTally(now, Wholes(w.batch), w.outcomes), CacheOf(w.batch), w.trace))
    ensures AllFinished(ws, retries) && IsFinished(w, retries) ==> AllFinished(ws + [w], retries)
  {
    OneListMore(ws, w, retries);
    OneWorkerMore(before, ws, w, retries);
    assert sent[..|ws| + 1] == sent[..|ws|] + [sent[|ws|]];
    hide Lists, Total, Plus, AllWorkers, AllFinished, IsWorker, IsFinished;
    hide Batches, TraceTally, WholesTally, Wholes, CacheOf;
  }

  /** One worker takes one batch. */
  method RunWorker(bucket: string, batch: seq<Entry>, configuredRetries: int, cancellable: bool, api: ObjectLayer,
                   ri: BatchJobInfo)
    returns (cancelled: bool, ghost w: Worker)
    modifies api, ri
    ensures IsWorker(w, RetryAttempts(configuredRetries)) && w.batch == batch
    ensures ri.Value() ==
            TraceTally(WholesTally(old(ri.Value()), Wholes(batch), w.outcomes), CacheOf(batch), w.trace)
    ensures (!cancelled ==> IsFinished(w, RetryAttempts(configuredRetries))) && (cancelled ==> cancellable)
    ensures api.wholes == old(api.wholes) + Flatten(w.calls) && api.slots == old(api.slots) + Flatten(w.trace)
  {
    hide TraceTally, WholesTally, Wholes, Singles, CacheOf, Flatten, RetryAttempts, IsTrace, Finished, WholeCalls;
    ghost var outcomes, calls, trace;
    cancelled, outcomes, calls, trace := Work(bucket, batch, configuredRetries, cancellable, api, ri);
    w := Worker(batch, outcomes, calls, trace);
  }

  /** The workers take the batches in the order in which they were sent. */
  method RunWorkers(bucket: string, sent: seq<seq<Entry>>, configuredRetries: int, cancellable: bool,
                    api: ObjectLayer, ri: BatchJobInfo)
    returns (cancelled: bool, ghost ws: seq<Worker>)
    modifies api, ri
    ensures Ran(ws, RetryAttempts(configuredRetries), sent, old(ri.Value()), ri.Value())
    ensures !cancelled ==> |ws| == |sent| && AllFinished(ws, RetryAttempts(configuredRetries))
    ensures cancelled ==> cancellable
    ensures api.wholes == old(api.wholes) + WholeLog(ws) && api.slots == old(api.slots) + SlotLog(ws)
  {
    ghost var retries, before := RetryAttempts(configuredRetries), ri.Value();
    LogStarts(api.wholes, api.slots);
    ws := [];
    cancelled := false;
    NoWorkerYet(before, retries);
    hide *;
    for i := 0 to |sent|
      invariant |ws| == i && Ran(ws, retries, sent, before, ri.Value()) && AllFinished(ws, retries)
      invariant api.wholes == old(api.wholes) + WholeLog(ws) && api.slots == old(api.slots) + SlotLog(ws)
    {
      ghost var w;
      ghost var now := ri.Value();
      cancelled, w := RunWorker(bucket, sent[i], configuredRetries, cancellable, api, ri);
      OneMoreRan(ws, retries, sent, before, now, w);
      LogGrows(old(api.wholes), old(api.slots), ws, w);
      ws := ws + [w];
      if cancelled {
        return;
      }
    }
  }

  lemma {:induction false} LogStarts(wholes: seq<Slot>, slots: seq<Slot>)
    ensures wholes + WholeLog([]) == wholes && slots + SlotLog([]) == slots
  {
  }

  lemma {:induction false} LogGrows(wholes: seq<Slot>, slots: seq<Slot>, ws: seq<Worker>, w: Worker)
    ensures wholes + WholeLog(ws + [w]) == wholes + WholeLog(ws) + Flatten(w.calls)
    ensures slots + SlotLog(ws + [w]) == slots + SlotLog(ws) + Flatten(w.trace)
  {
    assert (ws + [w])[..|ws|] == ws;
    hide Flatten;
  }

  lemma {:induction false} NoWorkerYet(c: Counters, retries: nat)
    ensures AllWorkers([], retries) && AllFinished([], retries) && Batches([]) == []
    ensures Plus(c, Total(Lists([], retries), 0)) == c
  {
  }
}
