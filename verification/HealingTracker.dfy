/**
 * The tracker of one healing drive, updated in place and persisted on the drive
 * (cmd/background-newdisks-heal-ops.go).
 */
module HealingTracker {
  import opened Bytes
  import opened MsgPack
  import opened TrackerFields
  import opened TrackerCodec
  import opened TrackerPrinter
  import opened BucketQueue

  // ---- what the operations do to the persisted fields ----

  /** Go's addition wraps around. */
  function Plus(a: uint64, b: uint64): uint64 {
    (a + b) % CAP8
  }

  function Progressed(t: Tracker, success: bool, skipped: bool, size: uint64): Tracker {
    if success then t.(itemsHealed := Plus(t.itemsHealed, 1), bytesDone := Plus(t.bytesDone, size))
    else if skipped then t.(itemsSkipped := Plus(t.itemsSkipped, 1), bytesSkipped := Plus(t.bytesSkipped, size))
    else t.(itemsFailed := Plus(t.itemsFailed, 1), bytesFailed := Plus(t.bytesFailed, size))
  }

  function Resumed(t: Tracker): Tracker {
    t.(itemsHealed := t.resumeItemsHealed, itemsFailed := t.resumeItemsFailed, itemsSkipped := t.resumeItemsSkipped,
       bytesDone := t.resumeBytesDone, bytesFailed := t.resumeBytesFailed, bytesSkipped := t.resumeBytesSkipped)
  }

  function Completed(t: Tracker, bucket: bytes): Tracker {
    t.(resumeItemsHealed := t.itemsHealed, resumeItemsFailed := t.itemsFailed, resumeItemsSkipped := t.itemsSkipped,
       resumeBytesDone := t.bytesDone, resumeBytesFailed := t.bytesFailed, resumeBytesSkipped := t.bytesSkipped,
       healedBuckets := t.healedBuckets + [bucket], queuedBuckets := Sweep(t.queuedBuckets, 0, bucket))
  }

  function Listed(t: Tracker, names: seq<bytes>): Tracker {
    t.(queuedBuckets := Pending(names, 0, t.healedBuckets))
  }

  /** The skipped items of the last snapshot are not cleared. */
  function Cleared(t: Tracker): Tracker {
    t.(itemsHealed := 0, itemsFailed := 0, bytesDone := 0, bytesFailed := 0, resumeItemsHealed := 0,
       resumeItemsFailed := 0, resumeBytesDone := 0, resumeBytesFailed := 0, itemsSkipped := 0, bytesSkipped := 0,
       healedBuckets := [], objectName := [], bucket := [])
  }

  type Location = (int64, int64, int64)

  predicate Unlocated(t: Tracker) {
    t.poolIndex < 0 || t.setIndex < 0 || t.diskIndex < 0
  }

  function Located(t: Tracker, at: Location): Tracker {
    t.(poolIndex := at.0, setIndex := at.1, diskIndex := at.2)
  }

  /** What `save` does before it writes: an unknown location is looked up if it can be, and the time is noted. */
  function Stamped(t: Tracker, lookup: Option<Location>, now: Instant): Tracker {
    var located := if Unlocated(t) && lookup.Some? then Located(t, lookup.value) else t;
    located.(lastUpdate := now)
  }

  /** What `update` does before it saves, on a drive with this identity and location. */
  function Identified(t: Tracker, id: bytes, at: Location): Tracker {
    if t.id == [] || Unlocated(t) then Located(t, at).(id := id) else t
  }

  // ---- the drive ----

  class Drive {
    const id: bytes
    const location: Location
    var file: Option<bytes>   // .healing.bin

    constructor (id: bytes, location: Location)
      ensures this.id == id && this.location == location && file == None
    {
      this.id, this.location, file := id, location, None;
    }

    method WriteAll(b: bytes, accepts: bool) returns (ok: bool)
      modifies this
      ensures ok == accepts && file == if accepts then Some(b) else old(file)
    {
      if accepts {
        file := Some(b);
      }
      return accepts;
    }
  }

  const ZERO_TIME: Instant := Time(-62135596800, 0)

  const ZERO: Tracker := Tracker(
    [], 0, 0, 0, [], [], ZERO_TIME, ZERO_TIME, 0, 0, 0, 0, 0, 0, [], [], 0, 0, 0, 0, 0, 0, [], [], [], 0, 0, 0,
    false
  )

  datatype LoadError = NoDrive | NoDriveId | NotFound | Corrupt | WrongDrive

  // ---- the tracker ----

  class HealingTracker {
    var h: Tracker   // the persisted struct

    /** newHealingTracker: everything zero. */
    constructor ()
      ensures h == ZERO
    {
      h := ZERO;
    }

    method UpdateProgress(success: bool, skipped: bool, size: uint64)
      modifies this
      ensures success ==>
                h == old(h).(itemsHealed := (old(h).itemsHealed + 1) % CAP8,
                             bytesDone := (old(h).bytesDone + size) % CAP8)
      ensures !success && skipped ==>
                h == old(h).(itemsSkipped := (old(h).itemsSkipped + 1) % CAP8,
                             bytesSkipped := (old(h).bytesSkipped + size) % CAP8)
      ensures !success && !skipped ==>
                h == old(h).(itemsFailed := (old(h).itemsFailed + 1) % CAP8,
                             bytesFailed := (old(h).bytesFailed + size) % CAP8)
      ensures h == Progressed(old(h), success, skipped, size)
    {
      if success {
        h := h.(itemsHealed := Plus(h.itemsHealed, 1));
        h := h.(bytesDone := Plus(h.bytesDone, size));
      } else if skipped {
        h := h.(itemsSkipped := Plus(h.itemsSkipped, 1));
        h := h.(bytesSkipped := Plus(h.bytesSkipped, size));
      } else {
        h := h.(itemsFailed := Plus(h.itemsFailed, 1));
        h := h.(bytesFailed := Plus(h.bytesFailed, size));
      }
    }

    method Resume()
      modifies this
      ensures h == Resumed(old(h))
    {
      h := h.(itemsHealed := h.resumeItemsHealed);
      h := h.(itemsFailed := h.resumeItemsFailed);
      h := h.(itemsSkipped := h.resumeItemsSkipped);
      h := h.(bytesDone := h.resumeBytesDone);
      h := h.(bytesFailed := h.resumeBytesFailed);
      h := h.(bytesSkipped := h.resumeBytesSkipped);
    }

    method ResetHealing()
      modifies this
      ensures h.itemsHealed == h.itemsFailed == h.itemsSkipped == h.bytesDone == h.bytesFailed == h.bytesSkipped == 0
      ensures h.resumeItemsHealed == h.resumeItemsFailed == h.resumeBytesDone == h.resumeBytesFailed == 0
      ensures h.healedBuckets == [] && h.bucket == [] && h.objectName == []
      ensures h.queuedBuckets == old(h).queuedBuckets && h.retryAttempts == old(h).retryAttempts
      ensures h.resumeItemsSkipped == old(h).resumeItemsSkipped && h.resumeBytesSkipped == old(h).resumeBytesSkipped
      ensures h == Cleared(old(h))
    {
      h := h.(itemsHealed := 0);
      h := h.(itemsFailed := 0);
      h := h.(bytesDone := 0);
      h := h.(bytesFailed := 0);
      h := h.(resumeItemsHealed := 0);
      h := h.(resumeItemsFailed := 0);
      h := h.(resumeBytesDone := 0);
      h := h.(resumeBytesFailed := 0);
      h := h.(itemsSkipped := 0);
      h := h.(bytesSkipped := 0);
      h := h.(healedBuckets := [], objectName := [], bucket := []);
    }

    method IsHealed(name: bytes) returns (healed: bool)
      ensures healed <==> name in h.healedBuckets
    {
      healed := name in h.healedBuckets;
    }

    /**
     * Takes a snapshot of the counters and moves the bucket from the queued to the healed ones, deleting it in the
     * array behind the queue. The program panics exactly on a queue that ends with the bucket and has it elsewhere,
     * too.
     */
    method BucketDone(name: bytes) returns (panicked: bool)
      modifies this
      ensures panicked <==> Panics(old(h).queuedBuckets, name)
      ensures !panicked ==>
                h.healedBuckets == old(h).healedBuckets + [name] &&
                h.itemsHealed == h.resumeItemsHealed == old(h).itemsHealed &&
                h.itemsFailed == h.resumeItemsFailed == old(h).itemsFailed &&
                h.itemsSkipped == h.resumeItemsSkipped == old(h).itemsSkipped &&
                h.bytesDone == h.resumeBytesDone == old(h).bytesDone &&
                h.bytesFailed == h.resumeBytesFailed == old(h).bytesFailed &&
                h.bytesSkipped == h.resumeBytesSkipped == old(h).bytesSkipped
      ensures !panicked ==> h == Completed(old(h), name)
    {
      h := h.(resumeItemsHealed := h.itemsHealed);
      h := h.(resumeItemsFailed := h.itemsFailed);
      h := h.(resumeItemsSkipped := h.itemsSkipped);
      h := h.(resumeBytesDone := h.bytesDone);
      h := h.(resumeBytesFailed := h.bytesFailed);
      h := h.(resumeBytesSkipped := h.bytesSkipped);
      h := h.(healedBuckets := h.healedBuckets + [name]);
      var q := h.queuedBuckets;
      var backing := new bytes[|q|](i requires 0 <= i < |q| => q[i]);
      assert backing[..|q|] == q;
      var m;
      m, panicked := DeleteInPlace(backing, |q|, name);
      if !panicked {
        h := h.(queuedBuckets := backing[..m]);
      }
    }

    /** The queue becomes all names that are not healed yet, in order. */
    method SetQueuedBuckets(names: seq<bytes>)
      modifies this
      ensures forall x :: x in h.queuedBuckets <==> x in names && x !in old(h).healedBuckets
      ensures exists at :: Subsequence(h.queuedBuckets, names, at)
      ensures h == Listed(old(h), names)
    {
      var queue: seq<bytes> := [];
      for i := 0 to |names|
        invariant h == old(h)
        invariant queue + Pending(names, i, h.healedBuckets) == Pending(names, 0, h.healedBuckets)
      {
        if names[i] !in h.healedBuckets {
          ghost var more := Pending(names, i + 1, h.healedBuckets);
          assert queue + ([names[i]] + more) == queue + [names[i]] + more;
          queue := queue + [names[i]];
        }
      }
      assert queue + [] == queue;
      ghost var at := PendingInOrder(names, 0, h.healedBuckets);
      forall x ensures x in queue <==> x in names && x !in h.healedBuckets {
        PendingElements(names, 0, h.healedBuckets, x);
        assert names[0..] == names;
      }
      h := h.(queuedBuckets := queue);
    }

    // ---- printing ----

    method PrintIdentity(front: bytes) returns (o: bytes)
      requires EncodableTracker(h) && front == Front(h, 0)
      ensures o == Front(h, 4)
    {
      hide AppendString, AppendInt, AppendUint64, AppendTime, AppendList, AppendBool, KeyBytes, Front, Encodable;
      o := front;
      FrontStep(h, 0, ID);
      o := o + (AppendString(KeyBytes(ID)) + AppendString(h.id));
      FrontStep(h, 1, PoolIndex);
      o := o + (AppendString(KeyBytes(PoolIndex)) + AppendInt(h.poolIndex));
      FrontStep(h, 2, SetIndex);
      o := o + (AppendString(KeyBytes(SetIndex)) + AppendInt(h.setIndex));
      FrontStep(h, 3, DiskIndex);
      o := o + (AppendString(KeyBytes(DiskIndex)) + AppendInt(h.diskIndex));
    }

    method PrintOrigin(front: bytes) returns (o: bytes)
      requires EncodableTracker(h) && front == Front(h, 4)
      ensures o == Front(h, 8)
    {
      hide AppendString, AppendInt, AppendUint64, AppendTime, AppendList, AppendBool, KeyBytes, Front, Encodable;
      o := front;
      FrontStep(h, 4, Path);
      o := o + (AppendString(KeyBytes(Path)) + AppendString(h.path));
      FrontStep(h, 5, Endpoint);
      o := o + (AppendString(KeyBytes(Endpoint)) + AppendString(h.endpoint));
      FrontStep(h, 6, Started);
      o := o + (AppendString(KeyBytes(Started)) + AppendTime(h.started));
      FrontStep(h, 7, LastUpdate);
      o := o + (AppendString(KeyBytes(LastUpdate)) + AppendTime(h.lastUpdate));
    }

    method PrintTotals(front: bytes) returns (o: bytes)
      requires EncodableTracker(h) && front == Front(h, 8)
      ensures o == Front(h, 12)
    {
      hide AppendString, AppendInt, AppendUint64, AppendTime, AppendList, AppendBool, KeyBytes, Front, Encodable;
      o := front;
      FrontStep(h, 8, ObjectsTotalCount);
      o := o + (AppendString(KeyBytes(ObjectsTotalCount)) + AppendUint64(h.objectsTotalCount));
      FrontStep(h, 9, ObjectsTotalSize);
      o := o + (AppendString(KeyBytes(ObjectsTotalSize)) + AppendUint64(h.objectsTotalSize));
      FrontStep(h, 10, ItemsHealed);
      o := o + (AppendString(KeyBytes(ItemsHealed)) + AppendUint64(h.itemsHealed));
      FrontStep(h, 11, ItemsFailed);
      o := o + (AppendString(KeyBytes(ItemsFailed)) + AppendUint64(h.itemsFailed));
    }

    method PrintBytesAndCursor(front: bytes) returns (o: bytes)
      requires EncodableTracker(h) && front == Front(h, 12)
      ensures o == Front(h, 16)
    {
      hide AppendString, AppendInt, AppendUint64, AppendTime, AppendList, AppendBool, KeyBytes, Front, Encodable;
      o := front;
      FrontStep(h, 12, BytesDone);
      o := o + (AppendString(KeyBytes(BytesDone)) + AppendUint64(h.bytesDone));
      FrontStep(h, 13, BytesFailed);
      o := o + (AppendString(KeyBytes(BytesFailed)) + AppendUint64(h.bytesFailed));
      FrontStep(h, 14, Bucket);
      o := o + (AppendString(KeyBytes(Bucket)) + AppendString(h.bucket));
      FrontStep(h, 15, Object);
      o := o + (AppendString(KeyBytes(Object)) + AppendString(h.objectName));
    }

    method PrintResumeItems(front: bytes) returns (o: bytes)
      requires EncodableTracker(h) && front == Front(h, 16)
      ensures o == Front(h, 19)
    {
      hide AppendString, AppendInt, AppendUint64, AppendTime, AppendList, AppendBool, KeyBytes, Front, Encodable;
      o := front;
      FrontStep(h, 16, ResumeItemsHealed);
      o := o + (AppendString(KeyBytes(ResumeItemsHealed)) + AppendUint64(h.resumeItemsHealed));
      FrontStep(h, 17, ResumeItemsFailed);
      o := o + (AppendString(KeyBytes(ResumeItemsFailed)) + AppendUint64(h.resumeItemsFailed));
      FrontStep(h, 18, ResumeItemsSkipped);
      o := o + (AppendString(KeyBytes(ResumeItemsSkipped)) + AppendUint64(h.resumeItemsSkipped));
    }

    method PrintResumeBytes(front: bytes) returns (o: bytes)
      requires EncodableTracker(h) && front == Front(h, 19)
      ensures o == Front(h, 22)
    {
      hide AppendString, AppendInt, AppendUint64, AppendTime, AppendList, AppendBool, KeyBytes, Front, Encodable;
      o := front;
      FrontStep(h, 19, ResumeBytesDone);
      o := o + (AppendString(KeyBytes(ResumeBytesDone)) + AppendUint64(h.resumeBytesDone));
      FrontStep(h, 20, ResumeBytesFailed);
      o := o + (AppendString(KeyBytes(ResumeBytesFailed)) + AppendUint64(h.resumeBytesFailed));
      FrontStep(h, 21, ResumeBytesSkipped);
      o := o + (AppendString(KeyBytes(ResumeBytesSkipped)) + AppendUint64(h.resumeBytesSkipped));
    }

    method PrintBuckets(front: bytes) returns (o: bytes)
      requires EncodableTracker(h) && front == Front(h, 22)
      ensures o == Front(h, 25)
    {
      hide AppendString, AppendInt, AppendUint64, AppendTime, AppendList, AppendBool, KeyBytes, Front, Encodable;
      o := front;
      FrontStep(h, 22, QueuedBuckets);
      o := o + (AppendString(KeyBytes(QueuedBuckets)) + AppendList(h.queuedBuckets));
      FrontStep(h, 23, HealedBuckets);
      o := o + (AppendString(KeyBytes(HealedBuckets)) + AppendList(h.healedBuckets));
      FrontStep(h, 24, HealID);
      o := o + (AppendString(KeyBytes(HealID)) + AppendString(h.healID));
    }

    method PrintSkipped(front: bytes) returns (o: bytes)
      requires EncodableTracker(h) && front == Front(h, 25)
      ensures o == Front(h, 29)
    {
      hide AppendString, AppendInt, AppendUint64, AppendTime, AppendList, AppendBool, KeyBytes, Front, Encodable;
      o := front;
      FrontStep(h, 25, ItemsSkipped);
      o := o + (AppendString(KeyBytes(ItemsSkipped)) + AppendUint64(h.itemsSkipped));
      FrontStep(h, 26, BytesSkipped);
      o := o + (AppendString(KeyBytes(BytesSkipped)) + AppendUint64(h.bytesSkipped));
      FrontStep(h, 27, RetryAttempts);
      o := o + (AppendString(KeyBytes(RetryAttempts)) + AppendUint64(h.retryAttempts));
      FrontStep(h, 28, Finished);
      o := o + (AppendString(KeyBytes(Finished)) + AppendBool(h.finished));
    }

    method MarshalMsg() returns (o: bytes)
      requires EncodableTracker(h)
      ensures o == Encode(h)
    {
      o := PrintIdentity(HEADER);
      o := PrintOrigin(o);
      o := PrintTotals(o);
      o := PrintBytesAndCursor(o);
      o := PrintResumeItems(o);
      o := PrintResumeBytes(o);
      o := PrintBuckets(o);
      o := PrintSkipped(o);
      WholeFront(h);
    }

    /** The size announced beforehand: it suffices. */
    method Msgsize() returns (s: nat)
      ensures s == 588 + |h.id| + |h.path| + |h.endpoint| + |h.bucket| + |h.objectName| + |h.healID| +
                   StringsSize(h.queuedBuckets) + StringsSize(h.healedBuckets)
      ensures s == AnnouncedSize(h)
      ensures EncodableTracker(h) ==> |Encode(h)| <= s
    {
      var q := SizeOfStrings(h.queuedBuckets);
      var d := SizeOfStrings(h.healedBuckets);
      s := SizeBeforeLists(h) + ARRAY_HEADER_SIZE + q + 14 + ARRAY_HEADER_SIZE + d + SizeBehindLists(h);
      if EncodableTracker(h) {
        EncodeFits(h);
      }
    }

    static method SizeOfStrings(l: seq<bytes>) returns (s: nat)
      ensures s == StringsSize(l)
    {
      s := 0;
      for i := 0 to |l|
        invariant s == StringsSize(l[..i])
      {
        s := s + STRING_PREFIX_SIZE + |l[i]|;
        assert l[..i + 1][..i] == l[..i];
      }
      assert l[..|l|] == l;
    }

    // ---- parsing ----

    /** One turn of the parser's loop: the switch over the key. */
    method ParsePair(bts: bytes) returns (rest: Option<bytes>)
      modifies this
      ensures DecodePair(old(h), bts) == if rest.Some? then Ok(h, rest.value) else Fail
    {
      var key := ReadMapKey(bts);
      if key.Fail? {
        return None;
      }
      var f := FieldOf(key.value);
      if f.None? {
        return Skip(key.rest);
      }
      var v := ReadValue(KindOf(f.value), key.rest);
      if v.Fail? {
        return None;
      }
      h := Set(h, f.value, v.value);
      return Some(v.rest);
    }

    /** Parses into this tracker, and returns the input behind the message. */
    method UnmarshalMsg(bts: bytes) returns (rest: Option<bytes>)
      modifies this
      ensures Decode(old(h), bts) == if rest.Some? then Ok(h, rest.value) else Fail
    {
      hide ReadMapHeader, DecodePair;
      var header := ReadMapHeader(bts);
      if header.Fail? {
        return None;
      }
      var n, b := header.value, header.rest;
      while n > 0
        invariant Decode(old(h), bts) == DecodePairs(h, n, b)
        decreases n
      {
        n := n - 1;
        var p := ParsePair(b);
        if p.None? {
          return None;
        }
        b := p.value;
      }
      return Some(b);
    }

    // ---- persistence ----

    /** Under the lock: the location and the time are filled in, and the tracker is marshalled. */
    method Prepare(lookup: Option<Location>, now: Instant) returns (b: bytes)
      requires EncodableTracker(h)
      modifies this
      ensures h.lastUpdate == now
      ensures (h.poolIndex, h.setIndex, h.diskIndex) ==
              if (old(h).poolIndex < 0 || old(h).setIndex < 0 || old(h).diskIndex < 0) && lookup.Some?
              then lookup.value
              else (old(h).poolIndex, old(h).setIndex, old(h).diskIndex)
      ensures h == Stamped(old(h), lookup, now) && EncodableTracker(h) && b == Encode(h)
    {
      if (h.poolIndex < 0 || h.setIndex < 0 || h.diskIndex < 0) && lookup.Some? {
        h := h.(poolIndex := lookup.value.0, setIndex := lookup.value.1, diskIndex := lookup.value.2);
      }
      h := h.(lastUpdate := now);
      b := MarshalMsg();
    }

    /** Marshals the tracker, and then, without the lock, writes it; `writes` says whether the drive accepts it. */
    method Save(drive: Drive, lookup: Option<Location>, now: Instant, writes: bool) returns (ok: bool)
      requires EncodableTracker(h)
      modifies this, drive
      ensures h == Stamped(old(h), lookup, now) && EncodableTracker(h)
      ensures ok == writes && drive.file == if writes then Some(Encode(h)) else old(drive.file)
    {
      var b := Prepare(lookup, now);
      ok := drive.WriteAll(b, writes);
    }

    method Update(drive: Drive, lookup: Option<Location>, now: Instant, writes: bool) returns (ok: bool)
      requires EncodableTracker(Identified(h, drive.id, drive.location))
      modifies this, drive
      ensures old(h).id == [] || old(h).poolIndex < 0 || old(h).setIndex < 0 || old(h).diskIndex < 0 ==>
                h.id == drive.id &&
                (0 <= drive.location.0 && 0 <= drive.location.1 && 0 <= drive.location.2 ==>
                   (h.poolIndex, h.setIndex, h.diskIndex) == drive.location)
      ensures old(h).id != [] && 0 <= old(h).poolIndex && 0 <= old(h).setIndex && 0 <= old(h).diskIndex ==>
                h == old(h).(lastUpdate := now)
      ensures h == Stamped(Identified(old(h), drive.id, drive.location), lookup, now) && EncodableTracker(h)
      ensures ok == writes && drive.file == if writes then Some(Encode(h)) else old(drive.file)
    {
      if h.id == [] || h.poolIndex < 0 || h.setIndex < 0 || h.diskIndex < 0 {
        h := h.(id := drive.id);
        h := h.(poolIndex := drive.location.0, setIndex := drive.location.1, diskIndex := drive.location.2);
      }
      ok := Save(drive, lookup, now, writes);
    }
  }

  /** What a load gives for the contents of a drive's file. */
  function Loaded(file: Option<bytes>, driveId: bytes): Result {
    if file.None? then Failure(NotFound)
    else
      var p := Decode(ZERO, file.value);
      if p.Fail? then Failure(Corrupt)
      else if p.value.id != driveId && p.value.id != [] then Failure(WrongDrive)
      else Success(p.value.(id := driveId))
  }

  datatype Result = Success(t: Tracker) | Failure(e: LoadError)

  /** Loads the tracker of a drive; `knowsId` says whether the drive tells its identity. */
  method LoadHealingTracker(drive: Drive?, knowsId: bool) returns (tracker: HealingTracker?, e: Option<LoadError>)
    ensures drive == null <==> e == Some(NoDrive)
    ensures drive != null && !knowsId <==> e == Some(NoDriveId)
    ensures tracker == null <==> e.Some?
    ensures e == Some(NotFound) <==> drive != null && knowsId && drive.file == None
    ensures e == Some(Corrupt) <==>
              drive != null && knowsId && drive.file.Some? && Decode(ZERO, drive.file.value).Fail?
    ensures e == Some(WrongDrive) <==>
              drive != null && knowsId && drive.file.Some? && Decode(ZERO, drive.file.value).Ok? &&
              Decode(ZERO, drive.file.value).value.id != drive.id && Decode(ZERO, drive.file.value).value.id != []
    ensures tracker != null ==>
              drive.file.Some? && Decode(ZERO, drive.file.value).Ok? &&
              tracker.h == Decode(ZERO, drive.file.value).value.(id := drive.id)
    ensures tracker != null ==> fresh(tracker) && Loaded(drive.file, drive.id) == Success(tracker.h)
    ensures drive != null && knowsId && tracker == null ==> Loaded(drive.file, drive.id) == Failure(e.value)
  {
    if drive == null {
      return null, Some(NoDrive);
    }
    if !knowsId {
      return null, Some(NoDriveId);
    }
    if drive.file.None? {
      return null, Some(NotFound);
    }
    var t := new HealingTracker();
    var rest := t.UnmarshalMsg(drive.file.value);
    if rest.None? {
      return null, Some(Corrupt);
    }
    if t.h.id != drive.id && t.h.id != [] {
      return null, Some(WrongDrive);
    }
    t.h := t.h.(id := drive.id);
    return t, None;
  }

  /** What was saved is what a later load gives, whole. */
  lemma LoadRestoresSaved(t: Tracker, driveId: bytes)
    requires EncodableTracker(t) && (t.id == driveId || t.id == [])
    ensures Loaded(Some(Encode(t)), driveId) == Success(t.(id := driveId))
  {
    RoundTrip(ZERO, t, []);
    assert Encode(t) + [] == Encode(t);
  }
}
