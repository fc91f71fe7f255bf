/**
 * When the completion flag of a batch-expire job tells the truth: the job calls itself complete if `ObjectsFailed` is 0
 * (cmd/batch-expire.go, cmd/batch-handlers.go).
 */
module ExpireCompletion {
  import opened Bytes
  import opened ExpireWalk
  import opened ExpireDelete
  import opened RetryLaws
  import opened ExpireWorker
  import opened Retention
  import opened ExpireJob

  // ---- what the counters count ----

  /** Over the whole objects with this outcome: their delete-marker counts, or the versions beside these. */
  function WholeSum(es: seq<Entry>, outcomes: seq<bool>, which: bool, markers: bool): int
    requires |outcomes| <= |es|
  {
    if outcomes == [] then 0
    else
      var e := es[|outcomes| - 1];
      WholeSum(es, outcomes[..|outcomes| - 1], which, markers) +
      if outcomes[|outcomes| - 1] != which then 0
      else if markers then e.deleteMarkerCount
      else e.v.numVersions - e.deleteMarkerCount
  }

  /** What a worker adds to the counters: deleted and failed whole objects, and the single versions beside them. */
  function ShareOf(w: Worker): Counters
    requires |w.outcomes| <= |Wholes(w.batch)|
  {
    var es, cache, left := Wholes(w.batch), CacheOf(w.batch), Next(Singles(w.batch), w.trace);
    var deleted := Successes(w.trace);
    Counters(Sum(Known(cache), Objs(Flatten(w.trace))),
             WholeSum(es, w.outcomes, true, false) + Sum(Plainly(cache), deleted),
             WholeSum(es, w.outcomes, true, true) + Sum(AsMarker(cache), deleted),
             WholeSum(es, w.outcomes, false, false) + Sum(Plainly(cache), left),
             WholeSum(es, w.outcomes, false, true) + Sum(AsMarker(cache), left),
             Sum(Sized(cache), deleted),
             Sum(Sized(cache), left) + 2 * Sum(Sized(cache), Recovered(w.trace)))
  }

  function SumShares(ws: seq<Worker>, retries: nat, n: nat): Counters
    requires AllWorkers(ws, retries) && n <= |ws|
  {
    if n == 0 then ZERO else Plus(SumShares(ws, retries, n - 1), ShareOf(ws[n - 1]))
  }

  lemma {:induction false} WholesSplit(c: Counters, es: seq<Entry>, outcomes: seq<bool>)
    requires |outcomes| <= |es|
    ensures WholesTally(c, es, outcomes) ==
            c.(objects := c.objects + WholeSum(es, outcomes, true, false),
               deleteMarkers := c.deleteMarkers + WholeSum(es, outcomes, true, true),
               objectsFailed := c.objectsFailed + WholeSum(es, outcomes, false, false),
               deleteMarkersFailed := c.deleteMarkersFailed + WholeSum(es, outcomes, false, true))
  {
    if outcomes != [] {
      WholesSplit(c, es, outcomes[..|outcomes| - 1]);
    }
  }

  lemma {:induction false} TraceClosed(c: Counters, cache: Cache, objs: seq<ObjectToDelete>, trace: seq<seq<Slot>>)
    requires IsTrace(objs, trace) && trace != []
    ensures TraceTally(c, cache, trace) ==
            Counters(c.attempts + Sum(Known(cache), Objs(Flatten(trace))),
                     c.objects + Sum(Plainly(cache), Successes(trace)),
                     c.deleteMarkers + Sum(AsMarker(cache), Successes(trace)),
                     c.objectsFailed + Sum(Plainly(cache), Next(objs, trace)),
                     c.deleteMarkersFailed + Sum(AsMarker(cache), Next(objs, trace)),
                     c.bytesTransferred + Sum(Sized(cache), Successes(trace)),
                     c.bytesFailed + (Sum(Sized(cache), Next(objs, trace)) + 2 * Sum(Sized(cache), Recovered(trace))))
  {
    TraceSums(c, cache, objs, trace);
    AttemptsCounted(c, cache, trace);
    hide *;
  }

  lemma {:induction false} ShareIs(w: Worker)
    requires |w.outcomes| == |Wholes(w.batch)| && IsTrace(Singles(w.batch), w.trace) && w.trace != []
    ensures TraceTally(WholesTally(ZERO, Wholes(w.batch), w.outcomes), CacheOf(w.batch), w.trace) == ShareOf(w)
  {
    hide Wholes, WholesTally, WholeSum, CacheOf, Singles, TraceTally, Sum, Next, IsTrace, Successes, Recovered, Flatten,
         Objs, Known, Plainly, AsMarker, Sized;
    WholesSplit(ZERO, Wholes(w.batch), w.outcomes);
    TraceClosed(WholesTally(ZERO, Wholes(w.batch), w.outcomes), CacheOf(w.batch), Singles(w.batch), w.trace);
  }

  lemma {:induction false} WorkerShare(w: Worker, retries: nat)
    requires IsFinished(w, retries)
    ensures |w.outcomes| <= |Wholes(w.batch)| && CountAll(ZERO, OpsOf(w)) == ShareOf(w)
  {
    hide *;
    FinishedMeans(w, retries);
    OpsAreWork(ZERO, w);
    ShareIs(w);
  }

  lemma {:induction false} WorkersShare(ws: seq<Worker>, retries: nat, n: nat)
    requires AllWorkers(ws, retries) && AllFinished(ws, retries) && n <= |ws|
    ensures Total(Lists(ws, retries), n) == SumShares(ws, retries, n)
  {
    hide IsFinished, IsWorker, CountAll, OpsOf, ShareOf, Plus;
    if n > 0 {
      WorkersShare(ws, retries, n - 1);
      WorkerShare(ws[n - 1], retries);
    }
  }

  /**
   * All seven counters after an uncancelled job, for every interleaving of its workers and every pattern of failures:
   * the sums over the workers of what each deleted and left, in closed form.
   */
  lemma {:induction false} JobCounters(c: Counters, ops: seq<Op>, ws: seq<Worker>, retries: nat)
    requires AllWorkers(ws, retries) && AllFinished(ws, retries) && IsInterleaving(ops, Lists(ws, retries))
    ensures CountAll(c, ops) == Plus(c, SumShares(ws, retries, |ws|))
  {
    InterleavingsAddUp(c, ops, Lists(ws, retries));
    WorkersShare(ws, retries, |ws|);
    hide IsInterleaving, Total, SumShares, CountAll, AllFinished, AllWorkers, Plus;
  }

  /** With distinct keys the weights of a single version are its own: is it a delete marker, and what is its size? */
  lemma {:induction false} WeightsAreOwn(batch: seq<Entry>, e: Entry)
    requires DistinctKeys(batch) && e in batch && !e.expireAll
    ensures var cache, o := CacheOf(batch), ToDelete(e);
            Known(cache)(o) == 1 && Plainly(cache)(o) == (if e.v.deleteMarker then 0 else 1) &&
            AsMarker(cache)(o) == (if e.v.deleteMarker then 1 else 0) &&
            Sized(cache)(o) == if e.v.deleteMarker then 0 else e.v.size
  {
    var i :| 0 <= i < |batch| && batch[i] == e;
    CacheIsExact(batch, i);
    hide CacheOf, CacheKey;
  }

  /** An object of 3 versions, one of them a delete marker, deleted at the first call: 2 objects, 1 delete marker. */
  lemma {:induction false} WholeObjectCounts(v: Version)
    requires v.numVersions == 3
    ensures WholesTally(ZERO, [Entry(v, true, 1)], [true]) == Counters(0, 2, 1, 0, 0, 0, 0)
  {
    WholesSplit(ZERO, [Entry(v, true, 1)], [true]);
    assert [true][..0] == [];
  }

  // ---- what ObjectsFailed counts ----

  /** What a worker leaves that counts as objects: no version that was counted as a delete marker. */
  function MissedObjects(w: Worker): int
    requires |w.outcomes| <= |Wholes(w.batch)|
  {
    WholeSum(Wholes(w.batch), w.outcomes, false, false) +
    Sum(Plainly(CacheOf(w.batch)), Next(Singles(w.batch), w.trace))
  }

  function SumMissedObjects(ws: seq<Worker>, retries: nat, n: nat): int
    requires AllWorkers(ws, retries) && n <= |ws|
  {
    if n == 0 then 0 else SumMissedObjects(ws, retries, n - 1) + MissedObjects(ws[n - 1])
  }

  lemma {:induction false} WorkerObjectsFailed(w: Worker, retries: nat)
    requires IsFinished(w, retries)
    ensures CountAll(ZERO, OpsOf(w)).objectsFailed == MissedObjects(w)
  {
    WorkerShare(w, retries);
    hide CountAll, OpsOf, WholeSum, Sum, IsWorker;
  }

  lemma {:induction false} WorkersObjectsFailed(ws: seq<Worker>, retries: nat, n: nat)
    requires AllWorkers(ws, retries) && AllFinished(ws, retries) && n <= |ws|
    ensures Total(Lists(ws, retries), n).objectsFailed == SumMissedObjects(ws, retries, n)
  {
    hide IsFinished, IsWorker, CountAll, OpsOf, MissedObjects;
    if n > 0 {
      WorkersObjectsFailed(ws, retries, n - 1);
      WorkerObjectsFailed(ws[n - 1], retries);
    }
  }

  /** `ObjectsFailed` after an uncancelled job, for every interleaving of its workers and every pattern of failures. */
  lemma {:induction false} JobObjectsFailed(c: Counters, ops: seq<Op>, ws: seq<Worker>, retries: nat)
    requires AllWorkers(ws, retries) && AllFinished(ws, retries) && IsInterleaving(ops, Lists(ws, retries))
    ensures CountAll(c, ops).objectsFailed == c.objectsFailed + SumMissedObjects(ws, retries, |ws|)
  {
    InterleavingsAddUp(c, ops, Lists(ws, retries));
    WorkersObjectsFailed(ws, retries, |ws|);
    hide IsInterleaving, Total, SumMissedObjects, CountAll, AllFinished, AllWorkers;
  }

  // ---- when every failure shows ----

  /** No whole object has fewer versions than were counted as its delete markers. */
  predicate CountsFit(batch: seq<Entry>) {
    forall e :: e in batch && e.expireAll ==> 0 <= e.deleteMarkerCount <= e.v.numVersions
  }

  predicate DistinctKeys(batch: seq<Entry>) {
    forall i, j :: 0 <= i < j < |batch| && !batch[i].expireAll && !batch[j].expireAll ==>
      CacheKey(ToDelete(batch[i])) != CacheKey(ToDelete(batch[j]))
  }

  /** So it is if no version is sent twice on its own, and version IDs have the forms that there are. */
  lemma KeysAreDistinct(batch: seq<Entry>)
    requires forall e :: e in batch && !e.expireAll ==> IsVersionID(e.v.versionID)
    requires forall i, j :: 0 <= i < j < |batch| && !batch[i].expireAll && !batch[j].expireAll ==>
               ToDelete(batch[i]) != ToDelete(batch[j])
    ensures DistinctKeys(batch)
  {
    forall i, j | 0 <= i < j < |batch| && !batch[i].expireAll && !batch[j].expireAll
      ensures CacheKey(ToDelete(batch[i])) != CacheKey(ToDelete(batch[j]))
    {
      if CacheKey(ToDelete(batch[i])) == CacheKey(ToDelete(batch[j])) {
        CacheKeyInjective(ToDelete(batch[i]), ToDelete(batch[j]));
      }
    }
  }

  /** A failure of the entry would count as a failed object. */
  predicate Shows(e: Entry) {
    if e.expireAll then e.deleteMarkerCount != e.v.numVersions else !e.v.deleteMarker
  }

  /** No single version is a delete marker, no whole object consists of delete markers only. */
  predicate AllShow(batch: seq<Entry>) {
    forall e :: e in batch ==> Shows(e)
  }

  lemma {:induction false} FailedWholesExactly(es: seq<Entry>, outcomes: seq<bool>)
    requires |outcomes| <= |es| && CountsFit(es) && forall e :: e in es ==> e.expireAll
    ensures WholeSum(es, outcomes, false, false) >= 0
    ensures WholeSum(es, outcomes, false, false) == 0 <==>
            forall i :: 0 <= i < |outcomes| && !outcomes[i] ==> !Shows(es[i])
  {
    if outcomes != [] {
      var n := |outcomes| - 1;
      FailedWholesExactly(es, outcomes[..n]);
      assert es[n] in es;
      assert (forall i :: 0 <= i < |outcomes| && !outcomes[i] ==> !Shows(es[i])) <==>
             ((!outcomes[n] ==> !Shows(es[n])) && forall i :: 0 <= i < n && !outcomes[..n][i] ==> !Shows(es[i]));
    }
  }

  lemma {:induction false} SumPlainlyExactly(cache: Cache, objs: seq<ObjectToDelete>)
    ensures Sum(Plainly(cache), objs) >= 0
    ensures Sum(Plainly(cache), objs) == 0 <==> forall o :: o in objs ==> Plainly(cache)(o) == 0
  {
    if objs != [] {
      SumPlainlyExactly(cache, objs[..|objs| - 1]);
      assert objs == objs[..|objs| - 1] + [objs[|objs| - 1]];
    }
  }

  /** With distinct keys, a single version counts as an object exactly if it is no delete marker. */
  lemma {:induction false} PlainlyIsShows(batch: seq<Entry>, e: Entry)
    requires DistinctKeys(batch) && e in batch && !e.expireAll
    ensures Plainly(CacheOf(batch))(ToDelete(e)) == 0 <==> !Shows(e)
  {
    var i :| 0 <= i < |batch| && batch[i] == e;
    CacheIsExact(batch, i);
    hide CacheOf, CacheKey;
  }

  lemma {:induction false} LeftIsSingle(w: Worker, o: ObjectToDelete) returns (e: Entry)
    requires IsTrace(Singles(w.batch), w.trace) && o in Next(Singles(w.batch), w.trace)
    ensures e in w.batch && !e.expireAll && ToDelete(e) == o
  {
    AskedFor(Singles(w.batch), w.trace, Slot(o, true));
    InSingles(w.batch, o);
    e :| e in w.batch && !e.expireAll && ToDelete(e) == o;
  }

  /** If every failure shows, a worker without missed objects did not fail at all. */
  lemma {:induction false} AllShowTells(w: Worker, retries: nat)
    requires IsWorker(w, retries) && CountsFit(w.batch) && DistinctKeys(w.batch)
    ensures MissedObjects(w) >= 0
    ensures AllShow(w.batch) && MissedObjects(w) == 0 ==> NothingFailed(w)
  {
    var es, left := Wholes(w.batch), Next(Singles(w.batch), w.trace);
    forall e | e in es ensures e in w.batch && e.expireAll {
      InWholes(w.batch, e);
    }
    FailedWholesExactly(es, w.outcomes);
    SumPlainlyExactly(CacheOf(w.batch), left);
    if AllShow(w.batch) && MissedObjects(w) == 0 {
      forall i | 0 <= i < |w.outcomes| ensures w.outcomes[i] {
        assert es[i] in es;
      }
      if left != [] {
        assert left[0] in left;
        var e := LeftIsSingle(w, left[0]);
        PlainlyIsShows(w.batch, e);
        assert false;
      }
    }
  }

  // ---- a worker of which one thing fails for good ----

  /** One attempt in which only `bad` fails. */
  function Answers(objs: seq<ObjectToDelete>, bad: Option<ObjectToDelete>): (slots: seq<Slot>)
    ensures |slots| == |objs|
    ensures forall i :: 0 <= i < |objs| ==> slots[i] == Slot(objs[i], Some(objs[i]) == bad)
  {
    seq(|objs|, i requires 0 <= i < |objs| => Slot(objs[i], Some(objs[i]) == bad))
  }

  function Attempts(objs: seq<ObjectToDelete>, bad: Option<ObjectToDelete>, n: nat): seq<seq<Slot>> {
    if n == 0 then []
    else
      var before := Attempts(objs, bad, n - 1);
      if before != [] && Pick(before[|before| - 1], true) == [] then before
      else before + [Answers(Next(objs, before), bad)]
  }

  /** What is left after some attempts: only `bad`, if it is among the objects at all. */
  predicate OnlyBadLeft(objs: seq<ObjectToDelete>, bad: Option<ObjectToDelete>, trace: seq<seq<Slot>>) {
    (forall o :: o in Next(objs, trace) ==> o in objs && (trace != [] ==> Some(o) == bad)) &&
    (bad.Some? && bad.value in objs ==> bad.value in Next(objs, trace))
  }

  lemma {:induction false} AnswersLeave(asked: seq<ObjectToDelete>, bad: Option<ObjectToDelete>, o: ObjectToDelete)
    ensures o in Pick(Answers(asked, bad), true) <==> o in asked && Some(o) == bad
  {
    var slots := Answers(asked, bad);
    InPick(slots, true, o);
    if Slot(o, true) in slots {
      var i :| 0 <= i < |slots| && slots[i] == Slot(o, true);
    }
    if o in asked && Some(o) == bad {
      var i :| 0 <= i < |asked| && asked[i] == o;
      assert slots[i] == Slot(o, true);
    }
    hide Pick;
  }

  lemma {:induction false} AttemptsFinish(objs: seq<ObjectToDelete>, bad: Option<ObjectToDelete>, n: nat)
    ensures var t := Attempts(objs, bad, n);
            IsTrace(objs, t) && OnlyBadLeft(objs, bad, t) && if n == 0 then t == [] else Finished(t, n)
  {
    hide Pick, IsTrace, OnlyBadLeft;
    if n == 0 {
      NoAttempts(objs, bad);
    } else {
      AttemptsFinish(objs, bad, n - 1);
      var before := Attempts(objs, bad, n - 1);
      OneAttemptMore(objs, before, Answers(Next(objs, before), bad));
      OneMoreLeaves(objs, bad, before);
    }
  }

  lemma {:induction false} NoAttempts(objs: seq<ObjectToDelete>, bad: Option<ObjectToDelete>)
    ensures IsTrace(objs, []) && OnlyBadLeft(objs, bad, [])
  {
  }

  lemma {:induction false} OneMoreLeaves(objs: seq<ObjectToDelete>, bad: Option<ObjectToDelete>, before: seq<seq<Slot>>)
    requires IsTrace(objs, before) && OnlyBadLeft(objs, bad, before)
    ensures OnlyBadLeft(objs, bad, before + [Answers(Next(objs, before), bad)])
  {
    var slots := Answers(Next(objs, before), bad);
    OneAttemptMore(objs, before, slots);
    forall o ensures o in Pick(slots, true) <==> o in Next(objs, before) && Some(o) == bad {
      AnswersLeave(Next(objs, before), bad, o);
    }
    hide Pick, IsTrace, Answers;
  }

  lemma {:induction false} OneAttemptMore(objs: seq<ObjectToDelete>, before: seq<seq<Slot>>, slots: seq<Slot>)
    requires IsTrace(objs, before) && Objs(slots) == Next(objs, before)
    ensures IsTrace(objs, before + [slots]) && Next(objs, before + [slots]) == Pick(slots, true)
  {
    assert (before + [slots])[..|before|] == before;
    hide Pick;
  }

  /** Of whole objects, only `bad` fails. */
  function ScriptedOutcomes(es: seq<Entry>, bad: Option<Entry>): (outcomes: seq<bool>)
    ensures |outcomes| == |es| && forall i :: 0 <= i < |es| ==> (outcomes[i] <==> Some(es[i]) != bad)
  {
    seq(|es|, i requires 0 <= i < |es| => Some(es[i]) != bad)
  }

  function CallsFor(e: Entry, success: bool, retries: nat): seq<Slot> {
    if success then [Slot(WholeObject(e), false)] else seq(retries, _ => Slot(WholeObject(e), true))
  }

  function ScriptedCalls(es: seq<Entry>, bad: Option<Entry>, retries: nat): (calls: seq<seq<Slot>>)
    ensures |calls| == |es| && forall i :: 0 <= i < |es| ==> calls[i] == CallsFor(es[i], Some(es[i]) != bad, retries)
  {
    seq(|es|, i requires 0 <= i < |es| => CallsFor(es[i], Some(es[i]) != bad, retries))
  }

  function BadSingle(bad: Option<Entry>): Option<ObjectToDelete> {
    if bad.Some? && !bad.value.expireAll then Some(ToDelete(bad.value)) else None
  }

  /** The worker of a batch of which only this entry fails, and whenever it is asked for. */
  function Scripted(batch: seq<Entry>, bad: Option<Entry>, retries: nat): Worker {
    Worker(batch, ScriptedOutcomes(Wholes(batch), bad), ScriptedCalls(Wholes(batch), bad, retries),
           Attempts(Singles(batch), BadSingle(bad), retries))
  }

  lemma {:induction false} ScriptedCallsFit(es: seq<Entry>, bad: Option<Entry>, retries: nat, i: nat)
    requires retries > 0 && i < |es|
    ensures WholeCalls(es[i], ScriptedCalls(es, bad, retries)[i], ScriptedOutcomes(es, bad)[i], retries)
  {
  }

  lemma {:induction false} ScriptedFinishes(batch: seq<Entry>, bad: Option<Entry>, retries: nat)
    requires retries > 0
    ensures IsFinished(Scripted(batch, bad, retries), retries)
  {
    var es := Wholes(batch);
    AttemptsFinish(Singles(batch), BadSingle(bad), retries);
    forall i | 0 <= i < |es|
      ensures WholeCalls(es[i], ScriptedCalls(es, bad, retries)[i], ScriptedOutcomes(es, bad)[i], retries)
    {
      ScriptedCallsFit(es, bad, retries, i);
    }
    hide Attempts, Wholes, Singles, Finished, IsTrace, ScriptedCalls, ScriptedOutcomes, WholeCalls, CallsFor, Pick,
         OnlyBadLeft, BadSingle;
  }

  lemma {:induction false} ScriptedWholes(batch: seq<Entry>, bad: Option<Entry>)
    requires CountsFit(batch) && (bad.Some? ==> bad.value in batch && !Shows(bad.value))
    ensures WholeSum(Wholes(batch), ScriptedOutcomes(Wholes(batch), bad), false, false) == 0
    ensures bad.Some? && bad.value.expireAll ==>
              exists i :: 0 <= i < |Wholes(batch)| && !ScriptedOutcomes(Wholes(batch), bad)[i]
  {
    var es := Wholes(batch);
    forall e | e in es ensures e in batch && e.expireAll {
      InWholes(batch, e);
    }
    FailedWholesExactly(es, ScriptedOutcomes(es, bad));
    if bad.Some? && bad.value.expireAll {
      InWholes(batch, bad.value);
      var i :| 0 <= i < |es| && es[i] == bad.value;
      assert !ScriptedOutcomes(es, bad)[i];
    }
    hide Wholes, WholeSum;
  }

  lemma {:induction false} ScriptedSingles(batch: seq<Entry>, bad: Option<Entry>, retries: nat)
    requires retries > 0 && DistinctKeys(batch) && (bad.Some? ==> bad.value in batch && !Shows(bad.value))
    ensures var left := Next(Singles(batch), Attempts(Singles(batch), BadSingle(bad), retries));
            Sum(Plainly(CacheOf(batch)), left) == 0 && (bad.Some? && !bad.value.expireAll ==> left != [])
  {
    var objs, o := Singles(batch), BadSingle(bad);
    var trace := Attempts(objs, o, retries);
    AttemptsFinish(objs, o, retries);
    SumPlainlyExactly(CacheOf(batch), Next(objs, trace));
    if o.Some? {
      PlainlyIsShows(batch, bad.value);
      InSingles(batch, o.value);
    }
    hide Attempts, Singles, CacheOf, Plainly, Sum, Next, IsTrace, Pick, CacheKey, DistinctKeys, Shows;
    assert trace != [];
  }

  lemma {:induction false} ScriptedMisses(batch: seq<Entry>, bad: Option<Entry>, retries: nat)
    requires retries > 0 && CountsFit(batch) && DistinctKeys(batch)
    requires bad.Some? ==> bad.value in batch && !Shows(bad.value)
    ensures MissedObjects(Scripted(batch, bad, retries)) == 0
    ensures bad.Some? ==> !NothingFailed(Scripted(batch, bad, retries))
  {
    ScriptedWholes(batch, bad);
    ScriptedSingles(batch, bad, retries);
    hide Attempts, Wholes, Singles, CacheOf, Plainly, Sum, WholeSum, Next, CountsFit, DistinctKeys, Shows, BadSingle;
  }

  // ---- there is an interleaving ----

  function Size(lists: seq<seq<Op>>, n: nat): nat
    requires n <= |lists|
  {
    if n == 0 then 0 else Size(lists, n - 1) + |lists[n - 1]|
  }

  lemma {:induction false} SizeUpdate(lists: seq<seq<Op>>, w: nat, l: seq<Op>, n: nat)
    requires w < |lists| && n <= |lists| && |lists[w]| == |l| + 1
    ensures Size(lists, n) == Size(lists[w := l], n) + if w < n then 1 else 0
  {
    if n > 0 {
      SizeUpdate(lists, w, l, n - 1);
    }
  }

  lemma {:induction false} SomeInterleaving(lists: seq<seq<Op>>) returns (ops: seq<Op>)
    ensures IsInterleaving(ops, lists)
    decreases Size(lists, |lists|)
  {
    if w :| 0 <= w < |lists| && lists[w] != [] {
      var l := lists[w][..|lists[w]| - 1];
      SizeUpdate(lists, w, l, |lists|);
      var init := SomeInterleaving(lists[w := l]);
      ops := init + [lists[w][|lists[w]| - 1]];
      assert ops[..|ops| - 1] == init;
      assert LastFrom(ops, lists, w);
    } else {
      ops := [];
    }
  }

  // ---- the flag ----

  /** Whatever the answers and the interleaving: if `ObjectsFailed` does not move, nothing failed. */
  ghost predicate TellsTruth(batches: seq<seq<Entry>>, retries: nat) {
    forall c, ops, ws ::
      AllWorkers(ws, retries) && AllFinished(ws, retries) && Batches(ws) == batches &&
      IsInterleaving(ops, Lists(ws, retries)) && CountAll(c, ops).objectsFailed == c.objectsFailed ==>
        NoneFailed(ws)
  }

  predicate NoneFailed(ws: seq<Worker>) {
    forall k :: 0 <= k < |ws| ==> NothingFailed(ws[k])
  }

  predicate BatchesFit(batches: seq<seq<Entry>>) {
    forall k :: 0 <= k < |batches| ==> CountsFit(batches[k]) && DistinctKeys(batches[k])
  }

  predicate EverythingShows(batches: seq<seq<Entry>>) {
    forall k :: 0 <= k < |batches| ==> AllShow(batches[k])
  }

  lemma {:induction false} NoneMissedNoneFailed(ws: seq<Worker>, retries: nat, n: nat)
    requires AllWorkers(ws, retries) && n <= |ws| && BatchesFit(Batches(ws))
    ensures SumMissedObjects(ws, retries, n) >= 0
    ensures EverythingShows(Batches(ws)) && SumMissedObjects(ws, retries, n) == 0 ==>
              forall k :: 0 <= k < n ==> NothingFailed(ws[k])
  {
    hide NothingFailed, CountsFit, DistinctKeys, AllShow, MissedObjects, IsWorker;
    if n > 0 {
      NoneMissedNoneFailed(ws, retries, n - 1);
      assert ws[n - 1].batch == Batches(ws)[n - 1];
      AllShowTells(ws[n - 1], retries);
    }
  }

  /** The workers of these batches, of which only this entry of the k-th batch fails. */
  function ScriptedAll(batches: seq<seq<Entry>>, k: nat, bad: Entry, retries: nat): (ws: seq<Worker>)
    ensures |ws| == |batches|
    ensures forall i :: 0 <= i < |ws| ==> ws[i] == Scripted(batches[i], if i == k then Some(bad) else None, retries)
  {
    seq(|batches|, i requires 0 <= i < |batches| => Scripted(batches[i], if i == k then Some(bad) else None, retries))
  }

  lemma {:induction false} ScriptedAllFinish(batches: seq<seq<Entry>>, k: nat, bad: Entry, retries: nat)
    requires retries > 0
    ensures var ws := ScriptedAll(batches, k, bad, retries);
            AllWorkers(ws, retries) && AllFinished(ws, retries) && Batches(ws) == batches
  {
    var ws := ScriptedAll(batches, k, bad, retries);
    forall i | 0 <= i < |ws| ensures IsFinished(ws[i], retries) && ws[i].batch == batches[i] {
      ScriptedFinishes(batches[i], if i == k then Some(bad) else None, retries);
    }
    assert forall i :: 0 <= i < |ws| ==> IsFinished(ws[i], retries) ==> IsWorker(ws[i], retries);
    hide IsWorker, Scripted;
  }

  lemma {:induction false} ScriptedAllMiss(batches: seq<seq<Entry>>, k: nat, bad: Entry, retries: nat, n: nat)
    requires retries > 0 && n <= |batches| && BatchesFit(batches)
    requires k < |batches| && bad in batches[k] && !Shows(bad)
    requires AllWorkers(ScriptedAll(batches, k, bad, retries), retries)
    ensures SumMissedObjects(ScriptedAll(batches, k, bad, retries), retries, n) == 0
  {
    hide Scripted, MissedObjects, IsWorker, CountsFit, DistinctKeys, Shows;
    if n > 0 {
      ScriptedAllMiss(batches, k, bad, retries, n - 1);
      ScriptedMisses(batches[n - 1], if n - 1 == k then Some(bad) else None, retries);
    }
  }

  lemma {:induction false} HiddenFailure(batches: seq<seq<Entry>>, k: nat, bad: Entry, retries: nat)
    requires retries > 0 && BatchesFit(batches) && k < |batches| && bad in batches[k] && !Shows(bad)
    ensures !TellsTruth(batches, retries)
  {
    var ws := ScriptedAll(batches, k, bad, retries);
    ScriptedAllFinish(batches, k, bad, retries);
    ScriptedAllMiss(batches, k, bad, retries, |ws|);
    ScriptedMisses(batches[k], Some(bad), retries);
    var ops := SomeInterleaving(Lists(ws, retries));
    JobObjectsFailed(ZERO, ops, ws, retries);
    hide AllWorkers, AllFinished, IsInterleaving, Lists, CountAll, NothingFailed, Batches, SumMissedObjects, Scripted;
    assert !NoneFailed(ws);
  }

  /**
   * An `ObjectsFailed` of 0 means that nothing failed, for every pattern of answers and every interleaving, exactly if
   * no single version sent is a delete marker and no whole object sent consists of delete markers only.
   */
  lemma {:induction false} CompletionTellsExactly(batches: seq<seq<Entry>>, retries: nat)
    requires retries > 0 && BatchesFit(batches)
    ensures TellsTruth(batches, retries) <==> EverythingShows(batches)
  {
    if EverythingShows(batches) {
      forall c, ops, ws |
        AllWorkers(ws, retries) && AllFinished(ws, retries) && Batches(ws) == batches &&
        IsInterleaving(ops, Lists(ws, retries)) && CountAll(c, ops).objectsFailed == c.objectsFailed
        ensures NoneFailed(ws)
      {
        UnmovedMeans(c, ops, ws, retries);
      }
    } else {
      var k :| 0 <= k < |batches| && !AllShow(batches[k]);
      var bad :| bad in batches[k] && !Shows(bad);
      HiddenFailure(batches, k, bad, retries);
    }
  }

  lemma {:induction false} UnmovedMeans(c: Counters, ops: seq<Op>, ws: seq<Worker>, retries: nat)
    requires AllWorkers(ws, retries) && AllFinished(ws, retries) && IsInterleaving(ops, Lists(ws, retries))
    requires BatchesFit(Batches(ws)) && EverythingShows(Batches(ws))
    requires CountAll(c, ops).objectsFailed == c.objectsFailed
    ensures NoneFailed(ws)
  {
    JobObjectsFailed(c, ops, ws, retries);
    NoneMissedNoneFailed(ws, retries, |ws|);
    hide AllFinished, IsInterleaving, Lists, CountAll, NothingFailed, Batches, SumMissedObjects;
  }

  /** Then a complete job of a bucket deleted exactly the versions beyond the ones that its objects keep. */
  lemma {:induction false} CompleteMeansDeleted(objs: seq<seq<Version>>, rules: seq<Rule>, c: Counters, ops: seq<Op>,
                                                ws: seq<Worker>, retries: nat, j: nat, i: nat)
    requires IsBucket(objs) && j < |objs| && DistinctIDs(objs[j]) && i < |objs[j]|
    requires AllWorkers(ws, retries) && AllFinished(ws, retries) && IsInterleaving(ops, Lists(ws, retries))
    requires Plain(Flatten(Batches(ws))) == Expected(Flatten(objs), rules, |Flatten(objs)|)
    requires BatchesFit(Batches(ws)) && EverythingShows(Batches(ws))
    requires CountAll(c, ops).objectsFailed == c.objectsFailed
    ensures JobDeletes(ws, objs[j][i]) <==> i >= Keeps(rules, objs[j])
  {
    UnmovedMeans(c, ops, ws, retries);
    JobRetention(objs, rules, ws, retries, j, i);
    hide *;
  }

  /** Two jobs that call themselves complete although a delete marker, alone or as a whole object, is left. */
  lemma {:induction false} CompleteIgnoresMarkers(v: Version, retries: nat)
    requires v.deleteMarker && v.numVersions == 1 && retries > 0
    ensures !TellsTruth([[Entry(v, false, 0)]], retries) && !TellsTruth([[Entry(v, true, 1)]], retries)
  {
    HiddenFailure([[Entry(v, false, 0)]], 0, Entry(v, false, 0), retries);
    HiddenFailure([[Entry(v, true, 1)]], 0, Entry(v, true, 1), retries);
    hide TellsTruth;
  }
}
