/**
 * The printer of the healing tracker, field by field, and the size it announces
 * (cmd/background-newdisks-heal-ops_gen.go).
 */
module TrackerPrinter {
  import opened Bytes
  import opened MsgPack
  import opened TrackerFields
  import opened TrackerCodec

  // ---- printing field by field ----

  /** The header and the first k pairs. */
  ghost function Front(t: Tracker, k: nat): bytes
    requires EncodableTracker(t) && k <= 29
  {
    PairsOfDescribe(t);
    if k == 0 then HEADER else Front(t, k - 1) + EncodePair(PairsOf(t)[k - 1])
  }

  lemma {:induction false} FrontRest(t: Tracker, k: nat)
    requires EncodableTracker(t) && k <= 29
    ensures ValidPairs(PairsOf(t)) && Front(t, k) + EncodeFrom(PairsOf(t), k) == Encode(t)
  {
    PairsOfDescribe(t);
    hide EncodePair, PairsOf, ValidPair, EncodableTracker, Describes;
    if k > 0 {
      FrontRest(t, k - 1);
      Associative(Front(t, k - 1), EncodePair(PairsOf(t)[k - 1]), EncodeFrom(PairsOf(t), k));
      hide ValidPairs;
    }
  }

  lemma WholeFront(t: Tracker)
    requires EncodableTracker(t)
    ensures Front(t, 29) == Encode(t)
  {
    FrontRest(t, 29);
    assert Front(t, 29) + [] == Front(t, 29);
  }

  /** How each field of the struct is printed. */
  function PrintedField(t: Tracker, f: Field): bytes
    requires EncodableTracker(t)
  {
    match f
    case ID => AppendString(t.id)
    case PoolIndex => AppendInt(t.poolIndex)
    case SetIndex => AppendInt(t.setIndex)
    case DiskIndex => AppendInt(t.diskIndex)
    case Path => AppendString(t.path)
    case Endpoint => AppendString(t.endpoint)
    case Started => AppendTime(t.started)
    case LastUpdate => AppendTime(t.lastUpdate)
    case ObjectsTotalCount => AppendUint64(t.objectsTotalCount)
    case ObjectsTotalSize => AppendUint64(t.objectsTotalSize)
    case ItemsHealed => AppendUint64(t.itemsHealed)
    case ItemsFailed => AppendUint64(t.itemsFailed)
    case BytesDone => AppendUint64(t.bytesDone)
    case BytesFailed => AppendUint64(t.bytesFailed)
    case Bucket => AppendString(t.bucket)
    case Object => AppendString(t.objectName)
    case ResumeItemsHealed => AppendUint64(t.resumeItemsHealed)
    case ResumeItemsFailed => AppendUint64(t.resumeItemsFailed)
    case ResumeItemsSkipped => AppendUint64(t.resumeItemsSkipped)
    case ResumeBytesDone => AppendUint64(t.resumeBytesDone)
    case ResumeBytesFailed => AppendUint64(t.resumeBytesFailed)
    case ResumeBytesSkipped => AppendUint64(t.resumeBytesSkipped)
    case QueuedBuckets => AppendList(t.queuedBuckets)
    case HealedBuckets => AppendList(t.healedBuckets)
    case HealID => AppendString(t.healID)
    case ItemsSkipped => AppendUint64(t.itemsSkipped)
    case BytesSkipped => AppendUint64(t.bytesSkipped)
    case RetryAttempts => AppendUint64(t.retryAttempts)
    case Finished => AppendBool(t.finished)
  }

  lemma PrintedIsValue(t: Tracker, f: Field)
    requires EncodableTracker(t)
    ensures Encodable(Get(t, f)) && PrintedField(t, f) == AppendValue(Get(t, f))
  {
    EncodableField(t, f);
    hide AppendString, AppendInt, AppendUint64, AppendTime, AppendList, AppendBool, EncodableTracker, Encodable;
  }

  lemma FrontStep(t: Tracker, k: nat, f: Field)
    requires EncodableTracker(t) && k < 29 && Ord(f) == k
    ensures Front(t, k + 1) == Front(t, k) + (AppendString(KeyBytes(f)) + PrintedField(t, f))
  {
    PrintedIsValue(t, f);
    FieldAt(f);
    AllEncodable(t);
    PairOfField(t, f);
    hide Encodable, Ord, Get, AppendString, AppendValue, PrintedField, KeyBytes, EncodableTracker, PairOf, EncodePair;
  }

  // ---- the size announced beforehand ----

  const STRING_PREFIX_SIZE := 5
  const INT_SIZE := 9
  const UINT64_SIZE := 9
  const TIME_SIZE := 15
  const BOOL_SIZE := 1
  const ARRAY_HEADER_SIZE := 5

  function StringsSize(l: seq<bytes>): nat {
    if l == [] then 0 else StringsSize(l[..|l| - 1]) + STRING_PREFIX_SIZE + |l[|l| - 1]|
  }

  /** Every string takes its bytes and five more. */
  lemma {:induction false} StringsSizeConcat(a: seq<bytes>, b: seq<bytes>)
    ensures StringsSize(a + b) == StringsSize(a) + StringsSize(b) && forall x :: StringsSize([x]) == 5 + |x|
  {
    assert forall x: bytes :: [x][..0] == [];
    if b == [] {
      assert a + b == a;
    } else {
      assert (a + b)[..|a + b| - 1] == a + b[..|b| - 1];
      StringsSizeConcat(a, b[..|b| - 1]);
    }
  }

  /** Room for the header, and for each name and value, up to the name of the first list. */
  function SizeBeforeLists(t: Tracker): nat {
    3 + 3 + STRING_PREFIX_SIZE + |t.id| + 10 + INT_SIZE + 9 + INT_SIZE + 10 + INT_SIZE + 5 + STRING_PREFIX_SIZE +
    |t.path| + 9 + STRING_PREFIX_SIZE + |t.endpoint| + 8 + TIME_SIZE + 11 + TIME_SIZE + 18 + UINT64_SIZE + 17 +
    UINT64_SIZE + 12 + UINT64_SIZE + 12 + UINT64_SIZE + 10 + UINT64_SIZE + 12 + UINT64_SIZE + 7 +
    STRING_PREFIX_SIZE + |t.bucket| + 7 + STRING_PREFIX_SIZE + |t.objectName| + 18 + UINT64_SIZE + 18 + UINT64_SIZE +
    19 + UINT64_SIZE + 16 + UINT64_SIZE + 18 + UINT64_SIZE + 19 + UINT64_SIZE + 14
  }

  function SizeBehindLists(t: Tracker): nat {
    7 + STRING_PREFIX_SIZE + |t.healID| + 13 + UINT64_SIZE + 13 + UINT64_SIZE + 14 + UINT64_SIZE + 9 + BOOL_SIZE
  }

  function AnnouncedSize(t: Tracker): nat {
    SizeBeforeLists(t) + ARRAY_HEADER_SIZE + StringsSize(t.queuedBuckets) +
    14 + ARRAY_HEADER_SIZE + StringsSize(t.healedBuckets) + SizeBehindLists(t)
  }

  lemma {:induction false} StringsBounded(l: seq<bytes>)
    requires forall x :: x in l ==> |x| < CAP4
    ensures |AppendStrings(l)| <= StringsSize(l)
  {
    if l != [] {
      StringsBounded(l[..|l| - 1]);
      StringRoundTrip(l[|l| - 1], []);
    }
  }

  function ValueBound(v: Value): nat {
    match v
    case Str(s) => STRING_PREFIX_SIZE + |s|
    case Int(_) => INT_SIZE
    case Uint(_) => UINT64_SIZE
    case At(_) => TIME_SIZE
    case List(l) => ARRAY_HEADER_SIZE + StringsSize(l)
    case Flag(_) => BOOL_SIZE
  }

  lemma ValueBounded(v: Value)
    requires Encodable(v)
    ensures |AppendValue(v)| <= ValueBound(v)
  {
    hide AppendString, AppendInt, AppendUint64, AppendTime, AppendArrayHeader, AppendStrings, StringsSize;
    match v
    case Str(s) => StringRoundTrip(s, []);
    case Int(i) => IntRoundTrip(i, []);
    case Uint(n) => Uint64RoundTrip(n, []);
    case At(t) => TimeRoundTrip(t, []);
    case List(l) =>
      ArrayHeaderRoundTrip(|l|, []);
      StringsBounded(l);
    case Flag(b) =>
  }

  function NameSize(f: Field): nat {
    1 + SignatureOf(f).0
  }

  lemma NameSizeIs(f: Field)
    ensures |AppendString(KeyBytes(f))| == NameSize(f)
  {
    PrinterAndParserAgree(f);
    Signatures(f);
    hide KeyBytes, KeyName, SignatureOf;
  }

  /** The room for the header and the first k fields. */
  ghost function SizeTo(t: Tracker, k: nat): nat
    requires k <= 29
  {
    if k == 0 then 3 else SizeTo(t, k - 1) + NameSize(FIELDS[k - 1]) + ValueBound(Get(t, FIELDS[k - 1]))
  }

  lemma FieldFits(t: Tracker, f: Field)
    requires EncodableTracker(t)
    ensures Encodable(Get(t, f))
    ensures |AppendString(KeyBytes(f)) + AppendValue(Get(t, f))| <= NameSize(f) + ValueBound(Get(t, f))
  {
    EncodableField(t, f);
    ValueBounded(Get(t, f));
    NameSizeIs(f);
    hide Get, KeyBytes, AppendString, AppendValue, ValueBound, NameSize, EncodableTracker, Encodable;
  }

  lemma {:induction false} FrontBounded(t: Tracker, k: nat)
    requires EncodableTracker(t) && k <= 29
    ensures |Front(t, k)| <= SizeTo(t, k)
  {
    hide Get, Ord, KeyBytes, AppendString, AppendValue, ValueBound, NameSize, EncodableTracker, Encodable, PrintedField;
    if k > 0 {
      var f := FIELDS[k - 1];
      FrontBounded(t, k - 1);
      FieldFits(t, f);
      OrdOf(k - 1);
      FrontStep(t, k - 1, f);
      PrintedIsValue(t, f);
      hide Front;
    }
  }

  function FieldBound(t: Tracker, f: Field): nat {
    match f
    case ID => STRING_PREFIX_SIZE + |t.id|
    case PoolIndex => INT_SIZE
    case SetIndex => INT_SIZE
    case DiskIndex => INT_SIZE
    case Path => STRING_PREFIX_SIZE + |t.path|
    case Endpoint => STRING_PREFIX_SIZE + |t.endpoint|
    case Started => TIME_SIZE
    case LastUpdate => TIME_SIZE
    case ObjectsTotalCount => UINT64_SIZE
    case ObjectsTotalSize => UINT64_SIZE
    case ItemsHealed => UINT64_SIZE
    case ItemsFailed => UINT64_SIZE
    case BytesDone => UINT64_SIZE
    case BytesFailed => UINT64_SIZE
    case Bucket => STRING_PREFIX_SIZE + |t.bucket|
    case Object => STRING_PREFIX_SIZE + |t.objectName|
    case ResumeItemsHealed => UINT64_SIZE
    case ResumeItemsFailed => UINT64_SIZE
    case ResumeItemsSkipped => UINT64_SIZE
    case ResumeBytesDone => UINT64_SIZE
    case ResumeBytesFailed => UINT64_SIZE
    case ResumeBytesSkipped => UINT64_SIZE
    case QueuedBuckets => ARRAY_HEADER_SIZE + StringsSize(t.queuedBuckets)
    case HealedBuckets => ARRAY_HEADER_SIZE + StringsSize(t.healedBuckets)
    case HealID => STRING_PREFIX_SIZE + |t.healID|
    case ItemsSkipped => UINT64_SIZE
    case BytesSkipped => UINT64_SIZE
    case RetryAttempts => UINT64_SIZE
    case Finished => BOOL_SIZE
  }

  lemma FieldBoundIs(t: Tracker, f: Field)
    ensures FieldBound(t, f) == ValueBound(Get(t, f))
  {
    hide StringsSize;
  }

  lemma SizeStep(t: Tracker, k: nat, f: Field)
    requires k < 29 && Ord(f) == k
    ensures SizeTo(t, k + 1) == SizeTo(t, k) + NameSize(f) + FieldBound(t, f)
  {
    FieldAt(f);
    FieldBoundIs(t, f);
    hide FieldBound, ValueBound, Get, Ord, NameSize;
  }

  lemma SizeSteps0(t: Tracker)
    ensures SizeTo(t, 6) == SizeTo(t, 0) +
      3 + STRING_PREFIX_SIZE + |t.id| + 10 + INT_SIZE + 9 + INT_SIZE + 10 + INT_SIZE +
      5 + STRING_PREFIX_SIZE + |t.path| + 9 + STRING_PREFIX_SIZE + |t.endpoint|
  {
    hide SizeTo, StringsSize, ValueBound, Get;
    SizeStep(t, 0, ID);
    SizeStep(t, 1, PoolIndex);
    SizeStep(t, 2, SetIndex);
    SizeStep(t, 3, DiskIndex);
    SizeStep(t, 4, Path);
    SizeStep(t, 5, Endpoint);
  }

  lemma SizeSteps6(t: Tracker)
    ensures SizeTo(t, 12) == SizeTo(t, 6) +
      8 + TIME_SIZE + 11 + TIME_SIZE + 18 + UINT64_SIZE + 17 + UINT64_SIZE + 12 + UINT64_SIZE + 12 + UINT64_SIZE
  {
    hide SizeTo, StringsSize, ValueBound, Get;
    SizeStep(t, 6, Started);
    SizeStep(t, 7, LastUpdate);
    SizeStep(t, 8, ObjectsTotalCount);
    SizeStep(t, 9, ObjectsTotalSize);
    SizeStep(t, 10, ItemsHealed);
    SizeStep(t, 11, ItemsFailed);
  }

  lemma SizeSteps12(t: Tracker)
    ensures SizeTo(t, 16) == SizeTo(t, 12) +
      10 + UINT64_SIZE + 12 + UINT64_SIZE + 7 + STRING_PREFIX_SIZE + |t.bucket| +
      7 + STRING_PREFIX_SIZE + |t.objectName|
  {
    hide SizeTo, StringsSize, ValueBound, Get;
    SizeStep(t, 12, BytesDone);
    SizeStep(t, 13, BytesFailed);
    SizeStep(t, 14, Bucket);
    SizeStep(t, 15, Object);
  }

  lemma SizeSteps16(t: Tracker)
    ensures SizeTo(t, 19) == SizeTo(t, 16) +
      18 + UINT64_SIZE + 18 + UINT64_SIZE + 19 + UINT64_SIZE
  {
    hide SizeTo, StringsSize, ValueBound, Get;
    SizeStep(t, 16, ResumeItemsHealed);
    SizeStep(t, 17, ResumeItemsFailed);
    SizeStep(t, 18, ResumeItemsSkipped);
  }

  lemma SizeSteps19(t: Tracker)
    ensures SizeTo(t, 22) == SizeTo(t, 19) +
      16 + UINT64_SIZE + 18 + UINT64_SIZE + 19 + UINT64_SIZE
  {
    hide SizeTo, StringsSize, ValueBound, Get;
    SizeStep(t, 19, ResumeBytesDone);
    SizeStep(t, 20, ResumeBytesFailed);
    SizeStep(t, 21, ResumeBytesSkipped);
  }

  lemma SizeSteps22(t: Tracker)
    ensures SizeTo(t, 24) == SizeTo(t, 22) +
      14 + ARRAY_HEADER_SIZE + StringsSize(t.queuedBuckets) +
      14 + ARRAY_HEADER_SIZE + StringsSize(t.healedBuckets)
  {
    hide SizeTo, StringsSize, ValueBound, Get;
    SizeStep(t, 22, QueuedBuckets);
    SizeStep(t, 23, HealedBuckets);
  }

  lemma SizeSteps24(t: Tracker)
    ensures SizeTo(t, 26) == SizeTo(t, 24) +
      7 + STRING_PREFIX_SIZE + |t.healID| + 13 + UINT64_SIZE
  {
    hide SizeTo, StringsSize, ValueBound, Get;
    SizeStep(t, 24, HealID);
    SizeStep(t, 25, ItemsSkipped);
  }

  lemma SizeSteps26(t: Tracker)
    ensures SizeTo(t, 29) == SizeTo(t, 26) +
      13 + UINT64_SIZE + 14 + UINT64_SIZE + 9 + BOOL_SIZE
  {
    hide SizeTo, StringsSize, ValueBound, Get;
    SizeStep(t, 26, BytesSkipped);
    SizeStep(t, 27, RetryAttempts);
    SizeStep(t, 28, Finished);
  }

  /** The printed tracker never outgrows the announced size. */
  lemma EncodeFits(t: Tracker)
    requires EncodableTracker(t)
    ensures |Encode(t)| <= AnnouncedSize(t)
  {
    WholeFront(t);
    FrontBounded(t, 29);
    SizeSteps0(t);
    SizeSteps6(t);
    SizeSteps12(t);
    SizeSteps16(t);
    SizeSteps19(t);
    SizeSteps22(t);
    SizeSteps24(t);
    SizeSteps26(t);
    assert SizeTo(t, 0) == 3;
    hide SizeTo, StringsSize, Encode, Front;
  }
}
