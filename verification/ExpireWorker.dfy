/**
 * One delete worker of a batch-expire job: whole objects first, then single versions with retries
 * (cmd/batch-expire.go).
 */
module ExpireWorker {
  import opened ExpireWalk
  import opened ExpireDelete
  import opened RetryLaws

  function Wholes(es: seq<Entry>): seq<Entry> {
    if es == [] then []
    else Wholes(es[..|es| - 1]) + if es[|es| - 1].expireAll then [es[|es| - 1]] else []
  }

  function Singles(es: seq<Entry>): seq<ObjectToDelete> {
    if es == [] then []
    else Singles(es[..|es| - 1]) + if es[|es| - 1].expireAll then [] else [ToDelete(es[|es| - 1])]
  }

  /** The two lists are the batch without the entries of the other kind, in its order. */
  lemma {:induction false} SplitConcat(a: seq<Entry>, b: seq<Entry>)
    ensures Wholes(a + b) == Wholes(a) + Wholes(b) && Singles(a + b) == Singles(a) + Singles(b)
  {
    if b == [] {
      assert a + b == a;
    } else {
      assert (a + b)[..|a + b| - 1] == a + b[..|b| - 1];
      SplitConcat(a, b[..|b| - 1]);
    }
  }

  lemma SplitOne(e: Entry)
    ensures Wholes([e]) == if e.expireAll then [e] else []
    ensures Singles([e]) == if e.expireAll then [] else [ObjectToDelete(e.v.name, e.v.versionID)]
  {
    assert [e][..0] == [];
  }

  /** The info of every single version, under its cache key; the last one wins. */
  function CacheOf(es: seq<Entry>): Cache {
    if es == [] then map[]
    else
      var e := es[|es| - 1];
      var before := CacheOf(es[..|es| - 1]);
      if e.expireAll then before else before[CacheKey(ToDelete(e)) := e.v]
  }

  /** The counters after the whole objects of es had these outcomes. */
  function WholesTally(c: Counters, es: seq<Entry>, outcomes: seq<bool>): Counters
    requires |outcomes| <= |es|
  {
    if outcomes == [] then c
    else
      var last := |outcomes| - 1;
      WholeCounted(WholesTally(c, es, outcomes[..last]), es[last], outcomes[last])
  }

  /** A whole object is deleted by its name alone, as an exact prefix. */
  function WholeObject(e: Entry): ObjectToDelete {
    ObjectToDelete(e.v.name, "")
  }

  /** The calls made for one object: it is asked for until a call succeeds, at most `retries` times. */
  predicate WholeCalls(e: Entry, calls: seq<Slot>, success: bool, retries: nat) {
    |calls| <= retries &&
    (forall i :: 0 <= i < |calls| ==>
       calls[i].obj == WholeObject(e) && (calls[i].failed <==> !success || i < |calls| - 1)) &&
    (success ==> calls != [])
  }

  method DeleteWhole(bucket: string, exp: Entry, retries: nat, cancellable: bool, api: ObjectLayer,
                     ri: BatchJobInfo)
    returns (cancelled: bool, success: bool, ghost calls: seq<Slot>)
    modifies api, ri
    ensures WholeCalls(exp, calls, success, retries)
    ensures forall i :: 0 <= i < |calls| ==> calls[i].obj == ObjectToDelete(exp.v.name, "")
    ensures success <==> calls != [] && !calls[|calls| - 1].failed
    ensures forall i :: 0 <= i < |calls| - 1 ==> calls[i].failed
    ensures api.wholes == old(api.wholes) + calls && api.slots == old(api.slots)
    ensures ri.Value() == WholeCounted(old(ri.Value()), exp, success)
    ensures (!cancelled && !success ==> |calls| == retries) && (cancelled ==> cancellable)
  {
    success, calls := false, [];
    var attempts := 1;
    while attempts <= retries
      invariant 1 <= attempts <= retries + 1 && |calls| == attempts - 1 && !success
      invariant WholeCalls(exp, calls, false, retries)
      invariant api.wholes == old(api.wholes) + calls && api.slots == old(api.slots)
      invariant ri.Value() == old(ri.Value())
    {
      cancelled := *;
      cancelled := cancelled && cancellable;
      if cancelled {
        ri.TrackMultipleObjectVersions(bucket, exp, success);
        return;
      }
      var err := api.DeleteObject(WholeObject(exp));
      calls := calls + [Slot(WholeObject(exp), err)];
      if !err {
        success := true;
        break;
      }
      attempts := attempts + 1;
    }
    ri.TrackMultipleObjectVersions(bucket, exp, success);
    cancelled := false;
  }

  /** Splitting a batch into whole objects and single versions. */
  method Split(toExpire: seq<Entry>) returns (toExpireAll: seq<Entry>, toDel: seq<ObjectToDelete>, oiCache: Cache)
    ensures toExpireAll == Wholes(toExpire) && toDel == Singles(toExpire) && oiCache == CacheOf(toExpire)
  {
    toExpireAll, toDel, oiCache := [], [], map[];
    for i := 0 to |toExpire|
      invariant toExpireAll == Wholes(toExpire[..i]) && toDel == Singles(toExpire[..i])
      invariant oiCache == CacheOf(toExpire[..i])
    {
      assert toExpire[..i + 1][..i] == toExpire[..i];
      var exp := toExpire[i];
      if exp.expireAll {
        toExpireAll := toExpireAll + [exp];
        continue;
      }
      toDel := toDel + [ToDelete(exp)];
      oiCache := oiCache[CacheKey(ToDelete(exp)) := exp.v];
    }
    assert toExpire[..|toExpire|] == toExpire;
  }

  lemma NoWholes(c: Counters, exps: seq<Entry>)
    ensures WholesTally(c, exps, []) == c
  {
  }

  lemma OneWholeMore(c: Counters, exps: seq<Entry>, outcomes: seq<bool>, success: bool)
    requires |outcomes| < |exps|
    ensures WholesTally(c, exps, outcomes + [success]) ==
            WholeCounted(WholesTally(c, exps, outcomes), exps[|outcomes|], success)
  {
    assert (outcomes + [success])[..|outcomes|] == outcomes;
  }

  method DeleteWholes(bucket: string, exps: seq<Entry>, retries: nat, cancellable: bool, api: ObjectLayer,
                      ri: BatchJobInfo)
    returns (cancelled: bool, ghost outcomes: seq<bool>, ghost calls: seq<seq<Slot>>)
    modifies api, ri
    ensures |outcomes| == |calls| <= |exps| && (!cancelled ==> |outcomes| == |exps|)
    ensures cancelled ==> cancellable
    ensures !cancelled ==> forall i :: 0 <= i < |calls| && !outcomes[i] ==> |calls[i]| == retries
    ensures forall i :: 0 <= i < |calls| ==> WholeCalls(exps[i], calls[i], outcomes[i], retries)
    ensures api.wholes == old(api.wholes) + Flatten(calls) && api.slots == old(api.slots)
    ensures ri.Value() == WholesTally(old(ri.Value()), exps, outcomes)
  {
    outcomes, calls := [], [];
    hide WholesTally, WholeCalls;
    NoWholes(ri.Value(), exps);
    for i := 0 to |exps|
      invariant |outcomes| == |calls| == i
      invariant forall k :: 0 <= k < |calls| ==> WholeCalls(exps[k], calls[k], outcomes[k], retries)
      invariant forall k :: 0 <= k < |calls| && !outcomes[k] ==> |calls[k]| == retries
      invariant api.wholes == old(api.wholes) + Flatten(calls) && api.slots == old(api.slots)
      invariant ri.Value() == WholesTally(old(ri.Value()), exps, outcomes)
    {
      var success;
      ghost var mine;
      cancelled, success, mine := DeleteWhole(bucket, exps[i], retries, cancellable, api, ri);
      FlattenSnoc(calls, mine);
      OneWholeMore(old(ri.Value()), exps, outcomes, success);
      outcomes, calls := outcomes + [success], calls + [mine];
      if cancelled {
        return;
      }
    }
    cancelled := false;
  }

  function RetryAttempts(configured: int): nat {
    if configured <= 0 then DEFAULT_RETRIES else configured
  }

  /** One worker: the record of its calls explains the object layer's log and the counters completely. */
  method Work(bucket: string, toExpire: seq<Entry>, configuredRetries: int, cancellable: bool, api: ObjectLayer,
              ri: BatchJobInfo)
    returns (cancelled: bool, ghost outcomes: seq<bool>, ghost calls: seq<seq<Slot>>, ghost trace: seq<seq<Slot>>)
    modifies api, ri
    ensures |outcomes| == |calls| <= |Wholes(toExpire)|
    ensures forall i :: 0 <= i < |calls| ==>
              WholeCalls(Wholes(toExpire)[i], calls[i], outcomes[i], RetryAttempts(configuredRetries))
    ensures IsTrace(Singles(toExpire), trace) && |trace| <= RetryAttempts(configuredRetries)
    ensures api.wholes == old(api.wholes) + Flatten(calls) && api.slots == old(api.slots) + Flatten(trace)
    ensures ri.Value() ==
            TraceTally(WholesTally(old(ri.Value()), Wholes(toExpire), outcomes), CacheOf(toExpire), trace)
    ensures !cancelled ==> |outcomes| == |Wholes(toExpire)| && Finished(trace, RetryAttempts(configuredRetries))
    ensures !cancelled ==>
              Persistent(trace, if configuredRetries > 0 then configuredRetries else 3) &&
              forall i :: 0 <= i < |calls| && !outcomes[i] ==>
                |calls[i]| == if configuredRetries > 0 then configuredRetries else 3
    ensures cancelled ==> cancellable
  {
    var retryAttempts := RetryAttempts(configuredRetries);
    var toExpireAll, toDel, oiCache := Split(toExpire);
    trace := [];
    cancelled, outcomes, calls := DeleteWholes(bucket, toExpireAll, retryAttempts, cancellable, api, ri);
    if cancelled {
      return;
    }
    cancelled, trace := DeleteVersions(bucket, toDel, oiCache, retryAttempts, cancellable, api, ri);
  }

  // ---- conservation for a whole batch ----

  /** The versions that the whole-object entries with this outcome stand for. */
  function WholeVersions(es: seq<Entry>, outcomes: seq<bool>, which: bool): int
    requires |outcomes| <= |es|
  {
    if outcomes == [] then 0
    else
      var last := |outcomes| - 1;
      WholeVersions(es, outcomes[..last], which) + if outcomes[last] == which then es[last].v.numVersions else 0
  }

  /** The versions a batch stands for. */
  function BatchVersions(es: seq<Entry>): int {
    if es == [] then 0
    else BatchVersions(es[..|es| - 1]) + if es[|es| - 1].expireAll then es[|es| - 1].v.numVersions else 1
  }

  lemma {:induction false} WholesConserve(c: Counters, es: seq<Entry>, outcomes: seq<bool>)
    requires |outcomes| <= |es|
    ensures WholesTally(c, es, outcomes).Gone() == c.Gone() + WholeVersions(es, outcomes, true)
    ensures WholesTally(c, es, outcomes).Missed() == c.Missed() + WholeVersions(es, outcomes, false)
  {
    if outcomes != [] {
      WholesConserve(c, es, outcomes[..|outcomes| - 1]);
    }
  }

  lemma {:induction false} SinglesCached(es: seq<Entry>)
    ensures AllCached(CacheOf(es), Singles(es))
  {
    if es != [] {
      SinglesCached(es[..|es| - 1]);
      var before := Singles(es[..|es| - 1]);
      assert forall i :: 0 <= i < |before| ==> Singles(es)[i] == before[i];
    }
  }

  /** With distinct keys, the cache gives every single version its own info. */
  lemma {:induction false} CacheIsExact(es: seq<Entry>, i: nat)
    requires forall i, j :: 0 <= i < j < |es| && !es[i].expireAll && !es[j].expireAll ==>
               CacheKey(ToDelete(es[i])) != CacheKey(ToDelete(es[j]))
    requires i < |es| && !es[i].expireAll
    ensures CacheKey(ToDelete(es[i])) in CacheOf(es) && CacheOf(es)[CacheKey(ToDelete(es[i]))] == es[i].v
  {
    if i < |es| - 1 {
      CacheIsExact(es[..|es| - 1], i);
    }
  }

  lemma {:induction false} BatchSplits(es: seq<Entry>, outcomes: seq<bool>)
    requires |outcomes| == |Wholes(es)|
    ensures BatchVersions(es) == WholeVersions(Wholes(es), outcomes, true) +
                                 WholeVersions(Wholes(es), outcomes, false) + |Singles(es)|
    decreases |es|
  {
    if es == [] {
      assert outcomes == [];
    } else {
      var init, e := es[..|es| - 1], es[|es| - 1];
      if e.expireAll {
        var less := outcomes[..|outcomes| - 1];
        BatchSplits(init, less);
        WholeVersionsLocal(Wholes(init), [e], less, true);
        WholeVersionsLocal(Wholes(init), [e], less, false);
      } else {
        assert Wholes(es) == Wholes(init);
        BatchSplits(init, outcomes);
      }
    }
  }

  lemma {:induction false} WholeVersionsLocal(es: seq<Entry>, more: seq<Entry>, outcomes: seq<bool>, which: bool)
    requires |outcomes| <= |es|
    ensures WholeVersions(es + more, outcomes, which) == WholeVersions(es, outcomes, which)
  {
    if outcomes != [] {
      WholeVersionsLocal(es, more, outcomes[..|outcomes| - 1], which);
    }
  }

  /**
   * Conservation for a worker's batch that was not cancelled: every version it stands for is counted exactly once,
   * as deleted if its last call succeeded and as failed otherwise, whatever the pattern of failures and retries
   * and whatever the delete-marker counts of the whole-object entries.
   */
  lemma BatchConserves(c: Counters, es: seq<Entry>, outcomes: seq<bool>, trace: seq<seq<Slot>>)
    requires |outcomes| == |Wholes(es)| && IsTrace(Singles(es), trace) && trace != []
    ensures var t := TraceTally(WholesTally(c, Wholes(es), outcomes), CacheOf(es), trace);
            t.Gone() - c.Gone() == WholeVersions(Wholes(es), outcomes, true) + |Successes(trace)| &&
            t.Missed() - c.Missed() == WholeVersions(Wholes(es), outcomes, false) + |Next(Singles(es), trace)| &&
            (t.Gone() - c.Gone()) + (t.Missed() - c.Missed()) == BatchVersions(es)
  {
    var w := WholesTally(c, Wholes(es), outcomes);
    WholesConserve(c, Wholes(es), outcomes);
    SinglesCached(es);
    RetriesConserve(w, CacheOf(es), Singles(es), trace);
    BatchSplits(es, outcomes);
  }
}
