/** What the retry loop and the job's counters conserve, for every pattern of failures. */
module RetryLaws {
  import opened Bytes
  import opened ExpireWalk
  import opened ExpireDelete

  // ---- sums over objects ----

  function Sum(w: ObjectToDelete -> int, objs: seq<ObjectToDelete>): int {
    if objs == [] then 0 else Sum(w, objs[..|objs| - 1]) + w(objs[|objs| - 1])
  }

  /** 1 for an object whose cached info is not a delete marker. */
  function Plainly(cache: Cache): ObjectToDelete -> int {
    (o: ObjectToDelete) => if CacheKey(o) in cache && !cache[CacheKey(o)].deleteMarker then 1 else 0
  }

  /** 1 for an object whose cached info is a delete marker. */
  function AsMarker(cache: Cache): ObjectToDelete -> int {
    (o: ObjectToDelete) => if CacheKey(o) in cache && cache[CacheKey(o)].deleteMarker then 1 else 0
  }

  /** 1 for an object with cached info. */
  function Known(cache: Cache): ObjectToDelete -> int {
    (o: ObjectToDelete) => if CacheKey(o) in cache then 1 else 0
  }

  /** The cached size of an object that is not a delete marker. */
  function Sized(cache: Cache): ObjectToDelete -> int {
    (o: ObjectToDelete) =>
      if CacheKey(o) in cache && !cache[CacheKey(o)].deleteMarker then cache[CacheKey(o)].size else 0
  }

  /** Everything deleted in the attempts of a trace, and what of it was deleted in a retry. */
  function Successes(trace: seq<seq<Slot>>): seq<ObjectToDelete> {
    if trace == [] then [] else Successes(trace[..|trace| - 1]) + Pick(trace[|trace| - 1], false)
  }

  function Recovered(trace: seq<seq<Slot>>): seq<ObjectToDelete> {
    if |trace| <= 1 then [] else Recovered(trace[..|trace| - 1]) + Pick(trace[|trace| - 1], false)
  }

  lemma {:induction false} SumConcat(w: ObjectToDelete -> int, a: seq<ObjectToDelete>, b: seq<ObjectToDelete>)
    ensures Sum(w, a + b) == Sum(w, a) + Sum(w, b)
  {
    if b == [] {
      assert a + b == a;
    } else {
      assert (a + b)[..|a + b| - 1] == a + b[..|b| - 1];
      SumConcat(w, a, b[..|b| - 1]);
    }
  }

  lemma OneSlotMore(slots: seq<Slot>)
    requires slots != []
    ensures var init, last := slots[..|slots| - 1], slots[|slots| - 1];
            Objs(slots) == Objs(init) + [last.obj] &&
            Pick(slots, last.failed) == Pick(init, last.failed) + [last.obj] &&
            Pick(slots, !last.failed) == Pick(init, !last.failed)
  {
    var init := slots[..|slots| - 1];
    assert Pick(init, true) + [] == Pick(init, true) && Pick(init, false) + [] == Pick(init, false);
  }

  lemma {:induction false} PickSplits(w: ObjectToDelete -> int, slots: seq<Slot>)
    ensures Sum(w, Objs(slots)) == Sum(w, Pick(slots, true)) + Sum(w, Pick(slots, false))
  {
    if slots != [] {
      var init, last := slots[..|slots| - 1], slots[|slots| - 1];
      PickSplits(w, init);
      OneSlotMore(slots);
      SumSnoc(w, Objs(init), last.obj);
      SumSnoc(w, Pick(init, last.failed), last.obj);
      hide *;
    }
  }

  /** Every object is either deleted in exactly one attempt or left at the end, for every weight of objects. */
  lemma {:induction false} NothingLost(w: ObjectToDelete -> int, objs: seq<ObjectToDelete>, trace: seq<seq<Slot>>)
    requires IsTrace(objs, trace)
    ensures Sum(w, objs) == Sum(w, Successes(trace)) + Sum(w, Next(objs, trace))
  {
    if trace != [] {
      var init, last := trace[..|trace| - 1], trace[|trace| - 1];
      NothingLost(w, objs, init);
      PickSplits(w, last);
      SumConcat(w, Successes(init), Pick(last, false));
    }
  }

  // ---- the counters ----

  /** The four sums over some objects: known ones, plain ones, delete markers, and bytes of the plain ones. */
  datatype Sums = Sums(known: int, plain: int, markers: int, bytes: int)
  {
    function Plus(that: Sums): Sums {
      Sums(known + that.known, plain + that.plain, markers + that.markers, bytes + that.bytes)
    }
  }

  function SumsOf(cache: Cache, objs: seq<ObjectToDelete>): Sums {
    Sums(Sum(Known(cache), objs), Sum(Plainly(cache), objs), Sum(AsMarker(cache), objs), Sum(Sized(cache), objs))
  }

  function SumsOne(cache: Cache, o: ObjectToDelete): Sums {
    Sums(Known(cache)(o), Plainly(cache)(o), AsMarker(cache)(o), Sized(cache)(o))
  }

  /**
   * What one attempt adds to the counters: it counts up what it deletes (s); of what fails (f), a first
   * attempt counts up, and a retry counts down what it deletes.
   */
  function Gain(c: Counters, retry: bool, s: Sums, f: Sums): Counters {
    Counters(c.attempts + s.known + f.known,
             c.objects + s.plain,
             c.deleteMarkers + s.markers,
             c.objectsFailed + (if retry then -s.plain else f.plain),
             c.deleteMarkersFailed + (if retry then -s.markers else f.markers),
             c.bytesTransferred + s.bytes,
             c.bytesFailed + (if retry then s.bytes else f.bytes))
  }

  function AttemptGain(c: Counters, cache: Cache, slots: seq<Slot>, attempt: int): Counters {
    Gain(c, attempt > 1, SumsOf(cache, Pick(slots, false)), SumsOf(cache, Pick(slots, true)))
  }

  lemma GainStep(c: Counters, cache: Cache, s: Sums, f: Sums, slot: Slot, attempt: int)
    ensures SlotCounted(Gain(c, attempt > 1, s, f), cache, slot, attempt) ==
            if slot.failed then Gain(c, attempt > 1, s, f.Plus(SumsOne(cache, slot.obj)))
            else Gain(c, attempt > 1, s.Plus(SumsOne(cache, slot.obj)), f)
  {
  }

  lemma SumSnoc(w: ObjectToDelete -> int, a: seq<ObjectToDelete>, o: ObjectToDelete)
    ensures Sum(w, a + [o]) == Sum(w, a) + w(o)
  {
    assert (a + [o])[..|a|] == a;
  }

  lemma SumsSnoc(cache: Cache, objs: seq<ObjectToDelete>, o: ObjectToDelete)
    ensures SumsOf(cache, objs + [o]) == SumsOf(cache, objs).Plus(SumsOne(cache, o))
  {
    SumSnoc(Known(cache), objs, o);
    SumSnoc(Plainly(cache), objs, o);
    SumSnoc(AsMarker(cache), objs, o);
    SumSnoc(Sized(cache), objs, o);
  }

  lemma {:induction false} AttemptSums(c: Counters, cache: Cache, slots: seq<Slot>, attempt: int)
    ensures AttemptTally(c, cache, slots, attempt) == AttemptGain(c, cache, slots, attempt)
  {
    if slots == [] {
    } else {
      hide Gain, SumsOf, SumsOne, SlotCounted;
      var init, last := slots[..|slots| - 1], slots[|slots| - 1];
      AttemptSums(c, cache, init, attempt);
      GainStep(c, cache, SumsOf(cache, Pick(init, false)), SumsOf(cache, Pick(init, true)), last, attempt);
      SumsSnoc(cache, Pick(init, last.failed), last.obj);
      assert Pick(slots, !last.failed) == Pick(init, !last.failed);
    }
  }

  /**
   * The counters after any trace: deletions count what was deleted, and whatever was retried how often,
   * failures count what is left. Failed bytes exceed what is left by twice what a retry deleted.
   */
  lemma {:induction false} TraceSums(c: Counters, cache: Cache, objs: seq<ObjectToDelete>, trace: seq<seq<Slot>>)
    requires IsTrace(objs, trace) && trace != []
    ensures var t := TraceTally(c, cache, trace);
            t.objects == c.objects + Sum(Plainly(cache), Successes(trace)) &&
            t.deleteMarkers == c.deleteMarkers + Sum(AsMarker(cache), Successes(trace)) &&
            t.bytesTransferred == c.bytesTransferred + Sum(Sized(cache), Successes(trace)) &&
            t.objectsFailed == c.objectsFailed + Sum(Plainly(cache), Next(objs, trace)) &&
            t.deleteMarkersFailed == c.deleteMarkersFailed + Sum(AsMarker(cache), Next(objs, trace)) &&
            t.bytesFailed == c.bytesFailed + Sum(Sized(cache), Next(objs, trace)) +
                             2 * Sum(Sized(cache), Recovered(trace))
  {
    var init, last := trace[..|trace| - 1], trace[|trace| - 1];
    AttemptSums(TraceTally(c, cache, init), cache, last, |trace|);
    if init != [] {
      TraceSums(c, cache, objs, init);
    }
    TraceWeight(Plainly(cache), objs, trace);
    TraceWeight(AsMarker(cache), objs, trace);
    TraceWeight(Sized(cache), objs, trace);
  }

  lemma {:induction false} ObjsConcat(a: seq<Slot>, b: seq<Slot>)
    ensures Objs(a + b) == Objs(a) + Objs(b)
  {
  }

  /** Every position answered, in every attempt, counts as one attempt if its object has cached info. */
  lemma {:induction false} AttemptsCounted(c: Counters, cache: Cache, trace: seq<seq<Slot>>)
    ensures TraceTally(c, cache, trace).attempts == c.attempts + Sum(Known(cache), Objs(Flatten(trace)))
  {
    if trace != [] {
      var init, last := trace[..|trace| - 1], trace[|trace| - 1];
      AttemptsCounted(c, cache, init);
      AttemptSums(TraceTally(c, cache, init), cache, last, |trace|);
      PickSplits(Known(cache), last);
      ObjsConcat(Flatten(init), last);
      SumConcat(Known(cache), Objs(Flatten(init)), Objs(last));
      hide Sum, Objs, Pick, Known, AttemptTally;
    }
  }

  /** One attempt of a trace, weighed: what it was about is what it deleted and what it left. */
  lemma TraceWeight(w: ObjectToDelete -> int, objs: seq<ObjectToDelete>, trace: seq<seq<Slot>>)
    requires IsTrace(objs, trace) && trace != []
    ensures var init, last := trace[..|trace| - 1], trace[|trace| - 1];
            Sum(w, Next(objs, init)) == Sum(w, Pick(last, true)) + Sum(w, Pick(last, false)) &&
            Sum(w, Successes(trace)) == Sum(w, Successes(init)) + Sum(w, Pick(last, false)) &&
            (init != [] ==> Sum(w, Recovered(trace)) == Sum(w, Recovered(init)) + Sum(w, Pick(last, false)))
  {
    var init, last := trace[..|trace| - 1], trace[|trace| - 1];
    PickSplits(w, last);
    SumConcat(w, Successes(init), Pick(last, false));
    SumConcat(w, Recovered(init), Pick(last, false));
  }

  predicate AllCached(cache: Cache, objs: seq<ObjectToDelete>) {
    forall i :: 0 <= i < |objs| ==> CacheKey(objs[i]) in cache
  }

  lemma {:induction false} EveryOneCounts(cache: Cache, objs: seq<ObjectToDelete>)
    requires AllCached(cache, objs)
    ensures Sum(Plainly(cache), objs) + Sum(AsMarker(cache), objs) == |objs|
    ensures Sum(Plainly(cache), objs) >= 0 && Sum(AsMarker(cache), objs) >= 0
  {
    if objs != [] {
      EveryOneCounts(cache, objs[..|objs| - 1]);
    }
  }

  lemma {:induction false} PickedCached(cache: Cache, slots: seq<Slot>, which: bool)
    requires AllCached(cache, Objs(slots))
    ensures AllCached(cache, Pick(slots, which))
  {
    if slots != [] {
      var init := slots[..|slots| - 1];
      assert forall i :: 0 <= i < |init| ==> Objs(init)[i] == Objs(slots)[i];
      assert CacheKey(Objs(slots)[|slots| - 1]) in cache;
      PickedCached(cache, init, which);
    }
  }

  lemma {:induction false} TraceCached(cache: Cache, objs: seq<ObjectToDelete>, trace: seq<seq<Slot>>)
    requires IsTrace(objs, trace) && AllCached(cache, objs)
    ensures AllCached(cache, Next(objs, trace)) && AllCached(cache, Successes(trace))
  {
    if trace != [] {
      TraceCached(cache, objs, trace[..|trace| - 1]);
      PickedCached(cache, trace[|trace| - 1], true);
      PickedCached(cache, trace[|trace| - 1], false);
    }
  }

  /**
   * Conservation: whatever fails and is retried, the batch adds exactly what was deleted to
   * Objects + DeleteMarkers and exactly what is left to ObjectsFailed + DeleteMarkersFailed;
   * together these are the objects asked for, and no failed counter drops below its starting value.
   */
  lemma RetriesConserve(c: Counters, cache: Cache, objs: seq<ObjectToDelete>, trace: seq<seq<Slot>>)
    requires IsTrace(objs, trace) && trace != [] && AllCached(cache, objs)
    ensures var t := TraceTally(c, cache, trace);
            t.Gone() - c.Gone() == |Successes(trace)| &&
            t.Missed() - c.Missed() == |Next(objs, trace)| &&
            |Successes(trace)| + |Next(objs, trace)| == |objs| &&
            t.objectsFailed >= c.objectsFailed && t.deleteMarkersFailed >= c.deleteMarkersFailed
  {
    TraceSums(c, cache, objs, trace);
    TraceCached(cache, objs, trace);
    EveryOneCounts(cache, Next(objs, trace));
    EveryOneCounts(cache, Successes(trace));
    EveryOneCounts(cache, objs);
    NothingLost(Plainly(cache), objs, trace);
    NothingLost(AsMarker(cache), objs, trace);
  }

  /** BytesFailed is the size of what is left exactly when no retry deleted anything of size. */
  lemma BytesFailedExactly(c: Counters, cache: Cache, objs: seq<ObjectToDelete>, trace: seq<seq<Slot>>)
    requires IsTrace(objs, trace) && trace != []
    ensures TraceTally(c, cache, trace).bytesFailed - c.bytesFailed == Sum(Sized(cache), Next(objs, trace)) <==>
            Sum(Sized(cache), Recovered(trace)) == 0
  {
    TraceSums(c, cache, objs, trace);
  }

  lemma PickOne(o: ObjectToDelete, failed: bool, which: bool)
    ensures Pick([Slot(o, failed)], which) == if failed == which then [o] else []
  {
    assert [Slot(o, failed)][..0] == [];
  }

  /** A version of 5 bytes that is deleted by its second attempt leaves 10 bytes counted as failed. */
  lemma BytesFailedDrifts()
    ensures var o, v := ObjectToDelete("a", "1"), Version("a", "1", true, false, 1, 5);
            var cache, trace := map[CacheKey(o) := v], [[Slot(o, true)], [Slot(o, false)]];
            IsTrace([o], trace) && Next([o], trace) == [] &&
            TraceTally(Counters(0, 0, 0, 0, 0, 0, 0), cache, trace).bytesFailed == 10
  {
    var o, v := ObjectToDelete("a", "1"), Version("a", "1", true, false, 1, 5);
    var cache, trace := map[CacheKey(o) := v], [[Slot(o, true)], [Slot(o, false)]];
    var first := [[Slot(o, true)]];
    assert trace[..1] == first && first[..0] == [];
    PickOne(o, true, true);
    PickOne(o, false, true);
    PickOne(o, false, false);
    assert IsTrace([o], first);
    assert IsTrace([o], trace);
    TraceSums(Counters(0, 0, 0, 0, 0, 0, 0), cache, [o], trace);
    assert Recovered(first) == [] && Recovered(trace) == [] + [o];
    SumSnoc(Sized(cache), [], o);
  }

  // ---- which objects an attempt is about ----

  predicate FailedIn(slots: seq<Slot>, o: ObjectToDelete) {
    exists i :: 0 <= i < |slots| && slots[i] == Slot(o, true)
  }

  predicate FailedAll(trace: seq<seq<Slot>>, o: ObjectToDelete) {
    forall k :: 0 <= k < |trace| ==> FailedIn(trace[k], o)
  }

  /** The subsequence of the objects that failed in every attempt of a trace. */
  function StillFailing(objs: seq<ObjectToDelete>, trace: seq<seq<Slot>>): seq<ObjectToDelete> {
    if objs == [] then []
    else StillFailing(objs[..|objs| - 1], trace) +
         if FailedAll(trace, objs[|objs| - 1]) then [objs[|objs| - 1]] else []
  }

  lemma {:induction false} StillFailingNothing(objs: seq<ObjectToDelete>)
    ensures StillFailing(objs, []) == objs
  {
    if objs != [] {
      StillFailingNothing(objs[..|objs| - 1]);
    }
  }

  /** Filtering by one more attempt, on the objects and on the slots it answered. */
  lemma {:induction false} PickIsStillFailing(objs: seq<ObjectToDelete>, trace: seq<seq<Slot>>, slots: seq<Slot>,
                                              some: seq<Slot>)
    requires Distinct(Objs(slots)) && some <= slots
    requires Objs(some) == StillFailing(objs, trace)
    ensures Pick(some, true) == StillFailing(objs, trace + [slots])
    decreases |objs|
  {
    if objs == [] {
      assert some == [];
    } else {
      var init, o := objs[..|objs| - 1], objs[|objs| - 1];
      FailedAllSnoc(trace, slots, o);
      if FailedAll(trace, o) {
        var less := some[..|some| - 1];
        assert Objs(less) == StillFailing(init, trace);
        PickIsStillFailing(init, trace, slots, less);
        var last := |some| - 1;
        assert some[last] == slots[last] && Objs(slots)[last] == o;
        assert FailedIn(slots, o) <==> slots[last].failed by {
          if FailedIn(slots, o) {
            var i :| 0 <= i < |slots| && slots[i] == Slot(o, true);
            assert Objs(slots)[i] == o;
          }
        }
      } else {
        PickIsStillFailing(init, trace, slots, some);
      }
    }
  }

  lemma FailedAllSnoc(trace: seq<seq<Slot>>, slots: seq<Slot>, o: ObjectToDelete)
    ensures FailedAll(trace + [slots], o) <==> FailedAll(trace, o) && FailedIn(slots, o)
  {
    var t := trace + [slots];
    assert t[|trace|] == slots;
    assert forall k :: 0 <= k < |trace| ==> t[k] == trace[k];
  }

  lemma {:induction false} StillFailingDistinct(objs: seq<ObjectToDelete>, trace: seq<seq<Slot>>)
    requires Distinct(objs)
    ensures Distinct(StillFailing(objs, trace))
    ensures forall o :: o in StillFailing(objs, trace) ==> o in objs
  {
    if objs != [] {
      var init, some := objs[..|objs| - 1], StillFailing(objs[..|objs| - 1], trace);
      StillFailingDistinct(init, trace);
      forall i | 0 <= i < |some| ensures some[i] != objs[|objs| - 1] && some[i] in objs {
        assert some[i] in init;
      }
    }
  }

  /** An attempt is about exactly the objects that failed in all the attempts before it, in their original order. */
  lemma {:induction false} RetriesWhatFailed(objs: seq<ObjectToDelete>, trace: seq<seq<Slot>>)
    requires IsTrace(objs, trace) && Distinct(objs)
    ensures Next(objs, trace) == StillFailing(objs, trace)
  {
    if trace == [] {
      StillFailingNothing(objs);
    } else {
      var init, last := trace[..|trace| - 1], trace[|trace| - 1];
      RetriesWhatFailed(objs, init);
      StillFailingDistinct(objs, init);
      PickIsStillFailing(objs, init, last, last);
      assert init + [last] == trace;
    }
  }
}
