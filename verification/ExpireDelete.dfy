/**
 * The delete workers of a batch-expire job: chunked deletion, retries, and the job's counters (cmd/batch-expire.go,
 * cmd/batch-handlers.go).
 */
module ExpireDelete {
  import opened Bytes
  import opened ExpireWalk

  datatype ObjectToDelete = ObjectToDelete(name: string, versionID: string)

  /** One position of a DeleteObjects answer: the object asked for, and whether its error is non-nil. */
  datatype Slot = Slot(obj: ObjectToDelete, failed: bool)

  const MAX_DELETE_LIST := 1000
  const DEFAULT_RETRIES := 3

  // ---- slots ----

  function Slots(objs: seq<ObjectToDelete>, errs: seq<bool>): (s: seq<Slot>)
    requires |errs| == |objs|
    ensures |s| == |objs| && forall i :: 0 <= i < |s| ==> s[i] == Slot(objs[i], errs[i])
  {
    seq(|objs|, i requires 0 <= i < |objs| => Slot(objs[i], errs[i]))
  }

  function Objs(slots: seq<Slot>): (objs: seq<ObjectToDelete>)
    ensures |objs| == |slots| && forall i :: 0 <= i < |slots| ==> objs[i] == slots[i].obj
  {
    seq(|slots|, i requires 0 <= i < |slots| => slots[i].obj)
  }

  /** The objects of the slots with (failed == which), in order. */
  function Pick(slots: seq<Slot>, which: bool): seq<ObjectToDelete> {
    if slots == [] then []
    else Pick(slots[..|slots| - 1], which) +
         if slots[|slots| - 1].failed == which then [slots[|slots| - 1].obj] else []
  }

  // ---- the job's counters ----

  datatype Counters = Counters(attempts: int, objects: int, deleteMarkers: int, objectsFailed: int,
                               deleteMarkersFailed: int, bytesTransferred: int, bytesFailed: int)
  {
    /** Items counted as deleted. */
    function Gone(): int { objects + deleteMarkers }

    /** Items counted as failed. */
    function Missed(): int { objectsFailed + deleteMarkersFailed }
  }

  function ItemCounted(c: Counters, size: int, dmarker: bool, success: bool, attempt: int): Counters {
    var again := attempt > 1;
    var c := c.(attempts := c.attempts + 1);
    if success then
      var c := if dmarker then c.(deleteMarkers := c.deleteMarkers + 1)
               else c.(objects := c.objects + 1, bytesTransferred := c.bytesTransferred + size);
      if !again then c
      else if dmarker then c.(deleteMarkersFailed := c.deleteMarkersFailed - 1)
      else c.(objectsFailed := c.objectsFailed - 1, bytesFailed := c.bytesFailed + size)
    else if again then c
    else if dmarker then c.(deleteMarkersFailed := c.deleteMarkersFailed + 1)
    else c.(objectsFailed := c.objectsFailed + 1, bytesFailed := c.bytesFailed + size)
  }

  function WholeCounted(c: Counters, e: Entry, success: bool): Counters {
    var plain := e.v.numVersions - e.deleteMarkerCount;
    if success then c.(objects := c.objects + plain, deleteMarkers := c.deleteMarkers + e.deleteMarkerCount)
    else c.(objectsFailed := c.objectsFailed + plain,
            deleteMarkersFailed := c.deleteMarkersFailed + e.deleteMarkerCount)
  }

  /** batchJobInfo, as far as the expiry workers use it. */
  class BatchJobInfo {
    var bucket: string
    var object_: string
    var attempts: int
    var objects: int
    var deleteMarkers: int
    var objectsFailed: int
    var deleteMarkersFailed: int
    var bytesTransferred: int
    var bytesFailed: int
    var complete: bool
    var failed: bool

    ghost function Value(): Counters
      reads this
    {
      Counters(attempts, objects, deleteMarkers, objectsFailed, deleteMarkersFailed, bytesTransferred, bytesFailed)
    }

    /** The end of a job that was not cancelled: with no count below zero it is either complete or failed. */
    method Finish(walkFailed: bool)
      modifies this`complete, this`failed
      ensures complete <==> !walkFailed && objectsFailed == 0
      ensures objectsFailed >= 0 ==> failed == !complete
    {
      complete := !walkFailed && objectsFailed == 0;
      failed := walkFailed || objectsFailed > 0;
    }

    method CountItem(size: int, dmarker: bool, success: bool, attempt: int)
      modifies this
      ensures attempts == old(attempts) + 1
      ensures objects == old(objects) + if success && !dmarker then 1 else 0
      ensures deleteMarkers == old(deleteMarkers) + if success && dmarker then 1 else 0
      ensures objectsFailed ==
              old(objectsFailed) + if dmarker || success == (attempt <= 1) then 0 else if success then -1 else 1
      ensures deleteMarkersFailed ==
              old(deleteMarkersFailed) + if !dmarker || success == (attempt <= 1) then 0 else if success then -1 else 1
      ensures bytesTransferred == old(bytesTransferred) + if success && !dmarker then size else 0
      ensures bytesFailed == old(bytesFailed) + if dmarker || success == (attempt <= 1) then 0 else size
      ensures Value() == ItemCounted(old(Value()), size, dmarker, success, attempt)
      ensures bucket == old(bucket) && object_ == old(object_)
    {
      attempts := attempts + 1;
      if success {
        if dmarker {
          deleteMarkers := deleteMarkers + 1;
        } else {
          objects := objects + 1;
          bytesTransferred := bytesTransferred + size;
        }
        if attempt > 1 {
          if dmarker {
            deleteMarkersFailed := deleteMarkersFailed - 1;
          } else {
            objectsFailed := objectsFailed - 1;
            bytesFailed := bytesFailed + size;
          }
        }
      } else {
        if attempt > 1 {
          return;
        }
        if dmarker {
          deleteMarkersFailed := deleteMarkersFailed + 1;
        } else {
          objectsFailed := objectsFailed + 1;
          bytesFailed := bytesFailed + size;
        }
      }
    }

    method TrackCurrentBucketObject(bucketName: string, info: Version, success: bool, attempt: int)
      modifies this
      ensures Value() == ItemCounted(old(Value()), info.size, info.deleteMarker, success, attempt)
      ensures (bucket, object_) == if success then (bucketName, info.name) else (old(bucket), old(object_))
    {
      if success {
        bucket, object_ := bucketName, info.name;
      }
      CountItem(info.size, info.deleteMarker, success, attempt);
    }

    method TrackMultipleObjectVersions(bucketName: string, info: Entry, success: bool)
      modifies this
      ensures objects == old(objects) + if success then info.v.numVersions - info.deleteMarkerCount else 0
      ensures deleteMarkers == old(deleteMarkers) + if success then info.deleteMarkerCount else 0
      ensures objectsFailed == old(objectsFailed) + if success then 0 else info.v.numVersions - info.deleteMarkerCount
      ensures deleteMarkersFailed == old(deleteMarkersFailed) + if success then 0 else info.deleteMarkerCount
      ensures attempts == old(attempts)
      ensures bytesTransferred == old(bytesTransferred) && bytesFailed == old(bytesFailed)
      ensures Value() == WholeCounted(old(Value()), info, success)
      ensures (bucket, object_) == if success then (bucketName, info.v.name) else (old(bucket), old(object_))
    {
      if success {
        bucket, object_ := bucketName, info.v.name;
        objects := objects + info.v.numVersions - info.deleteMarkerCount;
        deleteMarkers := deleteMarkers + info.deleteMarkerCount;
      } else {
        objectsFailed := objectsFailed + info.v.numVersions - info.deleteMarkerCount;
        deleteMarkersFailed := deleteMarkersFailed + info.deleteMarkerCount;
      }
    }
  }

  // ---- the object layer: any outcome, one answer per object ----

  class ObjectLayer {
    ghost var slots: seq<Slot>     // every position answered by DeleteObjects, in order
    ghost var wholes: seq<Slot>    // every DeleteObject call on a whole object, in order

    method DeleteObjects(objs: seq<ObjectToDelete>) returns (errs: seq<bool>)
      requires |objs| <= MAX_DELETE_LIST
      modifies this
      ensures |errs| == |objs|
      ensures slots == old(slots) + Slots(objs, errs) && wholes == old(wholes)
    {
      assert |seq(|objs|, _ => false)| == |objs|;
      errs :| |errs| == |objs|;
      slots := slots + Slots(objs, errs);
    }

    method DeleteObject(obj: ObjectToDelete) returns (err: bool)
      modifies this
      ensures wholes == old(wholes) + [Slot(obj, err)] && slots == old(slots)
    {
      err := *;
      wholes := wholes + [Slot(obj, err)];
    }
  }

  lemma SlotsConcat(a: seq<ObjectToDelete>, x: seq<bool>, b: seq<ObjectToDelete>, y: seq<bool>)
    requires |x| == |a| && |y| == |b|
    ensures Slots(a + b, x + y) == Slots(a, x) + Slots(b, y)
  {
  }

  /** Chunked deletion: terminates, and answers one error per object, in order. */
  method Expire(api: ObjectLayer, objs: seq<ObjectToDelete>) returns (allErrs: seq<bool>)
    modifies api
    ensures |allErrs| == |objs|
    ensures api.slots == old(api.slots) + Slots(objs, allErrs)
    ensures api.wholes == old(api.wholes)
  {
    allErrs := [];
    var objsToDel := objs;
    ghost var asked: seq<ObjectToDelete> := [];
    while true
      invariant asked + objsToDel == objs && |allErrs| == |asked|
      invariant api.slots == old(api.slots) + Slots(asked, allErrs)
      invariant api.wholes == old(api.wholes)
      decreases |objsToDel|
    {
      var count := |objsToDel|;
      if count == 0 {
        break;
      }
      if count > MAX_DELETE_LIST {
        count := MAX_DELETE_LIST;
      }
      var errs := api.DeleteObjects(objsToDel[..count]);
      SlotsConcat(asked, allErrs, objsToDel[..count], errs);
      allErrs := allErrs + errs;
      asked := asked + objsToDel[..count];
      objsToDel := objsToDel[count..];
    }
    assert asked == objs;
  }

  // ---- the cache from object to its info ----

  type Cache = map<string, Version>

  function CacheKey(o: ObjectToDelete): string {
    o.name + "-" + o.versionID
  }

  function ToDelete(e: Entry): ObjectToDelete {
    ObjectToDelete(e.v.name, e.v.versionID)
  }

  predicate IsHex(c: char) {
    '0' <= c <= '9' || 'a' <= c <= 'f'
  }

  /** The version IDs there are: none without versioning, that of a null version, and UUIDs in their text form. */
  predicate IsVersionID(id: string) {
    id == "" || id == "null" || (|id| == 36 && IsHex(id[35]))
  }

  /** Keys tell objects apart: the last character of a key gives away the length of the version ID. */
  lemma CacheKeyInjective(a: ObjectToDelete, b: ObjectToDelete)
    requires CacheKey(a) == CacheKey(b) && IsVersionID(a.versionID) && IsVersionID(b.versionID)
    ensures a == b
  {
    SameLengthIDs(a, b);
    assert |a.name| == |b.name|;
    assert a.name == CacheKey(a)[..|a.name|] && b.name == CacheKey(b)[..|b.name|];
    assert a.versionID == CacheKey(a)[|a.name| + 1..] && b.versionID == CacheKey(b)[|b.name| + 1..];
  }

  lemma SameLengthIDs(a: ObjectToDelete, b: ObjectToDelete)
    requires CacheKey(a) == CacheKey(b) && IsVersionID(a.versionID) && IsVersionID(b.versionID)
    ensures |a.versionID| == |b.versionID|
  {
    var x, y := CacheKey(a), CacheKey(b);
    assert x[|x| - 1] == if a.versionID == "" then '-' else a.versionID[|a.versionID| - 1];
    assert y[|y| - 1] == if b.versionID == "" then '-' else b.versionID[|b.versionID| - 1];
  }

  /** Identifiers of any other form, which no version has, could share a key. */
  lemma CacheKeyCollides()
    ensures var a, b := ObjectToDelete("a", "b-c"), ObjectToDelete("a-b", "c"); a != b && CacheKey(a) == CacheKey(b)
  {
    var a, b := ObjectToDelete("a", "b-c"), ObjectToDelete("a-b", "c");
    assert |a.name| != |b.name|;
    assert CacheKey(a) == "a-b-c" == CacheKey(b);
  }

  // ---- what a run of attempts adds to the counters ----

  function SlotCounted(c: Counters, cache: Cache, s: Slot, attempt: int): Counters {
    if CacheKey(s.obj) in cache then
      var info := cache[CacheKey(s.obj)];
      ItemCounted(c, info.size, info.deleteMarker, !s.failed, attempt)
    else c
  }

  function AttemptTally(c: Counters, cache: Cache, slots: seq<Slot>, attempt: int): Counters {
    if slots == [] then c
    else SlotCounted(AttemptTally(c, cache, slots[..|slots| - 1], attempt), cache, slots[|slots| - 1], attempt)
  }

  /** The counters after attempts 1, 2, ... answered as in trace. */
  function TraceTally(c: Counters, cache: Cache, trace: seq<seq<Slot>>): Counters {
    if trace == [] then c
    else AttemptTally(TraceTally(c, cache, trace[..|trace| - 1]), cache, trace[|trace| - 1], |trace|)
  }

  /** The objects the next attempt is about: all of them at first, then those whose last attempt failed. */
  function Next(objs: seq<ObjectToDelete>, trace: seq<seq<Slot>>): seq<ObjectToDelete> {
    if trace == [] then objs else Pick(trace[|trace| - 1], true)
  }

  /** Every attempt asks for exactly the objects that were left by the one before, in order. */
  predicate IsTrace(objs: seq<ObjectToDelete>, trace: seq<seq<Slot>>) {
    trace == [] ||
    (IsTrace(objs, trace[..|trace| - 1]) && Objs(trace[|trace| - 1]) == Next(objs, trace[..|trace| - 1]))
  }

  /** The attempts end when nothing is left, or when there are no more attempts. */
  predicate Finished(trace: seq<seq<Slot>>, retries: int) {
    trace != [] && (Pick(trace[|trace| - 1], true) == [] || |trace| == retries)
  }

  predicate SomeFailed(slots: seq<Slot>) {
    exists i :: 0 <= i < |slots| && slots[i].failed
  }

  /** There is another attempt exactly if something failed and not all attempts are used up. */
  predicate Persistent(trace: seq<seq<Slot>>, retries: int) {
    0 < |trace| <= retries && (|trace| < retries ==> !SomeFailed(trace[|trace| - 1])) &&
    forall k :: 0 <= k < |trace| - 1 ==> SomeFailed(trace[k])
  }

  lemma {:induction false} NoneLeftExactly(slots: seq<Slot>)
    ensures Pick(slots, true) != [] <==> SomeFailed(slots)
  {
    if slots != [] {
      var n := |slots| - 1;
      NoneLeftExactly(slots[..n]);
      if SomeFailed(slots[..n]) {
        var i :| 0 <= i < n && slots[..n][i].failed;
        assert slots[i].failed;
      }
      if i :| 0 <= i < n && slots[i].failed {
        assert slots[..n][i].failed;
      }
    }
  }

  lemma AttemptTallySnoc(c: Counters, cache: Cache, slots: seq<Slot>, i: nat, attempt: int)
    requires i < |slots|
    ensures AttemptTally(c, cache, slots[..i + 1], attempt) ==
            SlotCounted(AttemptTally(c, cache, slots[..i], attempt), cache, slots[i], attempt)
    ensures forall which :: Pick(slots[..i + 1], which) ==
                            Pick(slots[..i], which) + if slots[i].failed == which then [slots[i].obj] else []
  {
    assert slots[..i + 1][..i] == slots[..i];
  }

  lemma {:induction false} PickLength(slots: seq<Slot>, which: bool)
    ensures |Pick(slots, which)| <= |slots|
  {
    if slots != [] {
      PickLength(slots[..|slots| - 1], which);
    }
  }

  /**
   * Reading one attempt's errors: position i of the errors belongs to toDelCopy[i], while toDel, cut to
   * length 0, is refilled in place with the objects to retry.
   */
  method ReadErrors(bucket: string, toDel: array<ObjectToDelete>, toDelCopy: array<ObjectToDelete>, errs: seq<bool>,
                    cache: Cache, attempts: nat, retries: nat, ri: BatchJobInfo)
    returns (failed: nat, n: nat)
    requires toDel != toDelCopy && |errs| <= toDel.Length == toDelCopy.Length
    modifies toDel, ri
    ensures ri.Value() == AttemptTally(old(ri.Value()), cache, Slots(toDelCopy[..|errs|], errs), attempts)
    ensures failed == |Pick(Slots(toDelCopy[..|errs|], errs), true)| && n <= |errs|
    ensures attempts != retries ==> toDel[..n] == Pick(Slots(toDelCopy[..|errs|], errs), true)
  {
    ghost var slots := Slots(toDelCopy[..|errs|], errs);
    failed, n := 0, 0;
    for i := 0 to |errs|
      invariant failed == |Pick(slots[..i], true)| && n <= i
      invariant attempts != retries ==> n == failed && toDel[..n] == Pick(slots[..i], true)
      invariant ri.Value() == AttemptTally(old(ri.Value()), cache, slots[..i], attempts)
    {
      AttemptTallySnoc(old(ri.Value()), cache, slots, i, attempts);
      var o := toDelCopy[i];
      if errs[i] {
        failed := failed + 1;
        if CacheKey(o) in cache {
          ri.TrackCurrentBucketObject(bucket, cache[CacheKey(o)], false, attempts);
        }
        if attempts != retries {
          toDel[n] := o;
          n := n + 1;
        }
      } else {
        if CacheKey(o) in cache {
          ri.TrackCurrentBucketObject(bucket, cache[CacheKey(o)], true, attempts);
        }
      }
    }
    assert slots[..|errs|] == slots;
  }

  lemma TraceSnoc(c: Counters, cache: Cache, objs: seq<ObjectToDelete>, trace: seq<seq<Slot>>, slots: seq<Slot>)
    requires IsTrace(objs, trace) && Objs(slots) == Next(objs, trace)
    ensures IsTrace(objs, trace + [slots])
    ensures TraceTally(c, cache, trace + [slots]) ==
            AttemptTally(TraceTally(c, cache, trace), cache, slots, |trace| + 1)
    ensures Flatten(trace + [slots]) == Flatten(trace) + slots
    ensures Next(objs, trace + [slots]) == Pick(slots, true)
  {
    assert (trace + [slots])[..|trace|] == trace;
  }

  /** One attempt: toDel is saved in toDelCopy, deleted, and replaced by what failed. */
  method Attempt(bucket: string, toDel: array<ObjectToDelete>, count: nat, toDelCopy: array<ObjectToDelete>,
                 cache: Cache, attempts: nat, retries: nat, api: ObjectLayer, ri: BatchJobInfo)
    returns (failed: nat, n: nat, ghost slots: seq<Slot>)
    requires toDel != toDelCopy && count <= toDel.Length == toDelCopy.Length
    modifies toDel, toDelCopy, api, ri
    ensures Objs(slots) == old(toDel[..count])
    ensures api.slots == old(api.slots) + slots && api.wholes == old(api.wholes)
    ensures ri.Value() == AttemptTally(old(ri.Value()), cache, slots, attempts)
    ensures failed == |Pick(slots, true)| && n <= count
    ensures attempts != retries ==> toDel[..n] == Pick(slots, true)
  {
    forall i | 0 <= i < count {
      toDelCopy[i] := toDel[i];
    }
    assert toDelCopy[..count] == toDel[..count];
    var errs := Expire(api, toDel[..count]);
    slots := Slots(toDelCopy[..count], errs);
    failed, n := ReadErrors(bucket, toDel, toDelCopy, errs, cache, attempts, retries, ri);
  }

  /**
   * The retry loop; `trace` records what each attempt asked for and got. It is cut short only if the context is
   * cancelled at some time.
   */
  method DeleteVersions(bucket: string, objs: seq<ObjectToDelete>, cache: Cache, retries: nat,
                        cancellable: bool, api: ObjectLayer, ri: BatchJobInfo)
    returns (cancelled: bool, ghost trace: seq<seq<Slot>>)
    requires retries > 0
    modifies api, ri
    ensures IsTrace(objs, trace) && |trace| <= retries
    ensures api.slots == old(api.slots) + Flatten(trace) && api.wholes == old(api.wholes)
    ensures ri.Value() == TraceTally(old(ri.Value()), cache, trace)
    ensures (!cancelled ==> Finished(trace, retries)) && (cancelled ==> cancellable)
    ensures !cancelled ==> Persistent(trace, retries)
  {
    var toDel := new ObjectToDelete[|objs|](i requires 0 <= i < |objs| => objs[i]);
    var toDelCopy := new ObjectToDelete[|objs|](_ => ObjectToDelete("", ""));
    assert toDel[..|objs|] == objs;
    cancelled, trace := Retry(bucket, objs, toDel, toDelCopy, cache, retries, cancellable, api, ri);
  }

  method Retry(bucket: string, ghost objs: seq<ObjectToDelete>, toDel: array<ObjectToDelete>,
               toDelCopy: array<ObjectToDelete>, cache: Cache, retries: nat, cancellable: bool,
               api: ObjectLayer, ri: BatchJobInfo)
    returns (cancelled: bool, ghost trace: seq<seq<Slot>>)
    requires retries > 0 && toDel != toDelCopy && toDel.Length == toDelCopy.Length && toDel[..] == objs
    modifies toDel, toDelCopy, api, ri
    ensures IsTrace(objs, trace) && |trace| <= retries
    ensures api.slots == old(api.slots) + Flatten(trace) && api.wholes == old(api.wholes)
    ensures ri.Value() == TraceTally(old(ri.Value()), cache, trace)
    ensures (!cancelled ==> Finished(trace, retries)) && (cancelled ==> cancellable)
    ensures !cancelled ==> Persistent(trace, retries)
  {
    var n := toDel.Length;
    ghost var before, asked := ri.Value(), api.slots;
    trace := [];
    assert toDel[..n] == Next(objs, trace);
    var attempts := 1;
    assert IsTrace(objs, trace) && Flatten(trace) == [] && TraceTally(before, cache, trace) == before;
    hide IsTrace, TraceTally, AttemptTally, Pick, Flatten, Next, Objs, SomeFailed;
    while attempts <= retries
      invariant 1 <= attempts <= retries + 1 && |trace| == attempts - 1 && 0 <= n <= toDel.Length
      invariant IsTrace(objs, trace)
      invariant attempts <= retries ==> toDel[..n] == Next(objs, trace)
      invariant api.slots == asked + Flatten(trace) && api.wholes == old(api.wholes)
      invariant ri.Value() == TraceTally(before, cache, trace)
      invariant forall k :: 0 <= k < |trace| ==> SomeFailed(trace[k])
    {
      cancelled := *;
      cancelled := cancelled && cancellable;
      if cancelled {
        return;
      }
      var failed;
      ghost var slots;
      failed, n, slots := Attempt(bucket, toDel, n, toDelCopy, cache, attempts, retries, api, ri);
      TraceSnoc(before, cache, objs, trace, slots);
      Associative(asked, Flatten(trace), slots);
      NoneLeftExactly(slots);
      trace := trace + [slots];
      if failed == 0 {
        return false, trace;
      }
      attempts := attempts + 1;
    }
    return false, trace;
  }
}
