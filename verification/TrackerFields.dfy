/** The persisted fields of the healing tracker, and their names (cmd/background-newdisks-heal-ops.go). */
module TrackerFields {
  import opened Bytes
  import opened MsgPack

  type Instant = t: Time | ValidTime(t) witness Time(0, 0)

  /** The 29 persisted fields. */
  datatype Tracker = Tracker(
    id: bytes, poolIndex: int64, setIndex: int64, diskIndex: int64, path: bytes, endpoint: bytes,
    started: Instant, lastUpdate: Instant, objectsTotalCount: uint64, objectsTotalSize: uint64,
    itemsHealed: uint64, itemsFailed: uint64, bytesDone: uint64, bytesFailed: uint64, bucket: bytes,
    objectName: bytes, resumeItemsHealed: uint64, resumeItemsFailed: uint64, resumeItemsSkipped: uint64,
    resumeBytesDone: uint64, resumeBytesFailed: uint64, resumeBytesSkipped: uint64, queuedBuckets: seq<bytes>,
    healedBuckets: seq<bytes>, healID: bytes, itemsSkipped: uint64, bytesSkipped: uint64,
    retryAttempts: uint64, finished: bool
  )

  datatype Field =
    | ID | PoolIndex | SetIndex | DiskIndex | Path | Endpoint | Started | LastUpdate | ObjectsTotalCount
    | ObjectsTotalSize | ItemsHealed | ItemsFailed | BytesDone | BytesFailed | Bucket | Object
    | ResumeItemsHealed | ResumeItemsFailed | ResumeItemsSkipped | ResumeBytesDone | ResumeBytesFailed
    | ResumeBytesSkipped | QueuedBuckets | HealedBuckets | HealID | ItemsSkipped | BytesSkipped | RetryAttempts
    | Finished

  /** The fields in the order in which they are written. */
  const FIELDS: seq<Field> := [
    ID, PoolIndex, SetIndex, DiskIndex, Path, Endpoint, Started, LastUpdate, ObjectsTotalCount,
    ObjectsTotalSize, ItemsHealed, ItemsFailed, BytesDone, BytesFailed, Bucket, Object, ResumeItemsHealed,
    ResumeItemsFailed, ResumeItemsSkipped, ResumeBytesDone, ResumeBytesFailed, ResumeBytesSkipped,
    QueuedBuckets, HealedBuckets, HealID, ItemsSkipped, BytesSkipped, RetryAttempts, Finished
  ]

  datatype Kind = StrKind | IntKind | UintKind | AtKind | ListKind | FlagKind

  datatype Value =
    Str(s: bytes) | Int(i: int64) | Uint(n: uint64) | At(t: Instant) | List(l: seq<bytes>) | Flag(b: bool)
  {
    function Kind(): Kind {
      match this
      case Str(_) => StrKind
      case Int(_) => IntKind
      case Uint(_) => UintKind
      case At(_) => AtKind
      case List(_) => ListKind
      case Flag(_) => FlagKind
    }
  }

  function KindOf(f: Field): Kind {
    match f
    case ID => StrKind
    case PoolIndex => IntKind
    case SetIndex => IntKind
    case DiskIndex => IntKind
    case Path => StrKind
    case Endpoint => StrKind
    case Started => AtKind
    case LastUpdate => AtKind
    case Bucket => StrKind
    case Object => StrKind
    case QueuedBuckets => ListKind
    case HealedBuckets => ListKind
    case HealID => StrKind
    case Finished => FlagKind
    case _ => UintKind
  }

  /** The place of a field in the order. */
  function Ord(f: Field): (k: nat)
    ensures k < 29
  {
    match f
    case ID => 0
    case PoolIndex => 1
    case SetIndex => 2
    case DiskIndex => 3
    case Path => 4
    case Endpoint => 5
    case Started => 6
    case LastUpdate => 7
    case ObjectsTotalCount => 8
    case ObjectsTotalSize => 9
    case ItemsHealed => 10
    case ItemsFailed => 11
    case BytesDone => 12
    case BytesFailed => 13
    case Bucket => 14
    case Object => 15
    case ResumeItemsHealed => 16
    case ResumeItemsFailed => 17
    case ResumeItemsSkipped => 18
    case ResumeBytesDone => 19
    case ResumeBytesFailed => 20
    case ResumeBytesSkipped => 21
    case QueuedBuckets => 22
    case HealedBuckets => 23
    case HealID => 24
    case ItemsSkipped => 25
    case BytesSkipped => 26
    case RetryAttempts => 27
    case Finished => 28
  }

  function Get(t: Tracker, f: Field): Value {
    match f
    case ID => Str(t.id)
    case PoolIndex => Int(t.poolIndex)
    case SetIndex => Int(t.setIndex)
    case DiskIndex => Int(t.diskIndex)
    case Path => Str(t.path)
    case Endpoint => Str(t.endpoint)
    case Started => At(t.started)
    case LastUpdate => At(t.lastUpdate)
    case ObjectsTotalCount => Uint(t.objectsTotalCount)
    case ObjectsTotalSize => Uint(t.objectsTotalSize)
    case ItemsHealed => Uint(t.itemsHealed)
    case ItemsFailed => Uint(t.itemsFailed)
    case BytesDone => Uint(t.bytesDone)
    case BytesFailed => Uint(t.bytesFailed)
    case Bucket => Str(t.bucket)
    case Object => Str(t.objectName)
    case ResumeItemsHealed => Uint(t.resumeItemsHealed)
    case ResumeItemsFailed => Uint(t.resumeItemsFailed)
    case ResumeItemsSkipped => Uint(t.resumeItemsSkipped)
    case ResumeBytesDone => Uint(t.resumeBytesDone)
    case ResumeBytesFailed => Uint(t.resumeBytesFailed)
    case ResumeBytesSkipped => Uint(t.resumeBytesSkipped)
    case QueuedBuckets => List(t.queuedBuckets)
    case HealedBuckets => List(t.healedBuckets)
    case HealID => Str(t.healID)
    case ItemsSkipped => Uint(t.itemsSkipped)
    case BytesSkipped => Uint(t.bytesSkipped)
    case RetryAttempts => Uint(t.retryAttempts)
    case Finished => Flag(t.finished)
  }

  lemma GetKind(t: Tracker, f: Field)
    ensures Get(t, f).Kind() == KindOf(f)
  {
  }

  function Set(t: Tracker, f: Field, v: Value): Tracker
    requires v.Kind() == KindOf(f)
  {
    match f
    case ID => t.(id := v.s)
    case PoolIndex => t.(poolIndex := v.i)
    case SetIndex => t.(setIndex := v.i)
    case DiskIndex => t.(diskIndex := v.i)
    case Path => t.(path := v.s)
    case Endpoint => t.(endpoint := v.s)
    case Started => t.(started := v.t)
    case LastUpdate => t.(lastUpdate := v.t)
    case ObjectsTotalCount => t.(objectsTotalCount := v.n)
    case ObjectsTotalSize => t.(objectsTotalSize := v.n)
    case ItemsHealed => t.(itemsHealed := v.n)
    case ItemsFailed => t.(itemsFailed := v.n)
    case BytesDone => t.(bytesDone := v.n)
    case BytesFailed => t.(bytesFailed := v.n)
    case Bucket => t.(bucket := v.s)
    case Object => t.(objectName := v.s)
    case ResumeItemsHealed => t.(resumeItemsHealed := v.n)
    case ResumeItemsFailed => t.(resumeItemsFailed := v.n)
    case ResumeItemsSkipped => t.(resumeItemsSkipped := v.n)
    case ResumeBytesDone => t.(resumeBytesDone := v.n)
    case ResumeBytesFailed => t.(resumeBytesFailed := v.n)
    case ResumeBytesSkipped => t.(resumeBytesSkipped := v.n)
    case QueuedBuckets => t.(queuedBuckets := v.l)
    case HealedBuckets => t.(healedBuckets := v.l)
    case HealID => t.(healID := v.s)
    case ItemsSkipped => t.(itemsSkipped := v.n)
    case BytesSkipped => t.(bytesSkipped := v.n)
    case RetryAttempts => t.(retryAttempts := v.n)
    case Finished => t.(finished := v.b)
  }

  lemma FieldAt0(f: Field)
    requires 0 <= Ord(f) < 10
    ensures FIELDS[Ord(f)] == f
  {
  }

  lemma FieldAt10(f: Field)
    requires 10 <= Ord(f) < 20
    ensures FIELDS[Ord(f)] == f
  {
  }

  lemma FieldAt20(f: Field)
    requires 20 <= Ord(f) < 29
    ensures FIELDS[Ord(f)] == f
  {
  }

  lemma FieldAt(f: Field)
    ensures FIELDS[Ord(f)] == f
  {
    hide Ord;
    if Ord(f) < 10 {
      FieldAt0(f);
    } else if Ord(f) < 20 {
      FieldAt10(f);
    } else {
      FieldAt20(f);
    }
  }

  lemma GetSet0(t: Tracker, f: Field, v: Value, g: Field)
    requires 0 <= Ord(f) < 4 && v.Kind() == KindOf(f)
    ensures Get(Set(t, f, v), g) == if g == f then v else Get(t, g)
  {
  }

  lemma GetSet4(t: Tracker, f: Field, v: Value, g: Field)
    requires 4 <= Ord(f) < 8 && v.Kind() == KindOf(f)
    ensures Get(Set(t, f, v), g) == if g == f then v else Get(t, g)
  {
  }

  lemma GetSet8(t: Tracker, f: Field, v: Value, g: Field)
    requires 8 <= Ord(f) < 12 && v.Kind() == KindOf(f)
    ensures Get(Set(t, f, v), g) == if g == f then v else Get(t, g)
  {
  }

  lemma GetSet12(t: Tracker, f: Field, v: Value, g: Field)
    requires 12 <= Ord(f) < 16 && v.Kind() == KindOf(f)
    ensures Get(Set(t, f, v), g) == if g == f then v else Get(t, g)
  {
  }

  lemma GetSet16(t: Tracker, f: Field, v: Value, g: Field)
    requires 16 <= Ord(f) < 20 && v.Kind() == KindOf(f)
    ensures Get(Set(t, f, v), g) == if g == f then v else Get(t, g)
  {
  }

  lemma GetSet20(t: Tracker, f: Field, v: Value, g: Field)
    requires 20 <= Ord(f) < 24 && v.Kind() == KindOf(f)
    ensures Get(Set(t, f, v), g) == if g == f then v else Get(t, g)
  {
  }

  lemma GetSet24(t: Tracker, f: Field, v: Value, g: Field)
    requires 24 <= Ord(f) < 27 && v.Kind() == KindOf(f)
    ensures Get(Set(t, f, v), g) == if g == f then v else Get(t, g)
  {
  }

  lemma GetSet27(t: Tracker, f: Field, v: Value, g: Field)
    requires 27 <= Ord(f) < 29 && v.Kind() == KindOf(f)
    ensures Get(Set(t, f, v), g) == if g == f then v else Get(t, g)
  {
  }

  /** Assigning a field gives it the value, and leaves the other fields alone. */
  lemma GetSet(t: Tracker, f: Field, v: Value, g: Field)
    requires v.Kind() == KindOf(f)
    ensures Get(Set(t, f, v), g) == if g == f then v else Get(t, g)
  {
    hide Get, Set, Ord, KindOf;
    if Ord(f) < 4 {
      GetSet0(t, f, v, g);
    } else if Ord(f) < 8 {
      GetSet4(t, f, v, g);
    } else if Ord(f) < 12 {
      GetSet8(t, f, v, g);
    } else if Ord(f) < 16 {
      GetSet12(t, f, v, g);
    } else if Ord(f) < 20 {
      GetSet16(t, f, v, g);
    } else if Ord(f) < 24 {
      GetSet20(t, f, v, g);
    } else if Ord(f) < 27 {
      GetSet24(t, f, v, g);
    } else {
      GetSet27(t, f, v, g);
    }
  }

  lemma SameFields0(t: Tracker, u: Tracker)
    requires forall f: Field :: Get(t, f) == Get(u, f)
    ensures t.id == u.id && t.poolIndex == u.poolIndex && t.setIndex == u.setIndex &&
            t.diskIndex == u.diskIndex && t.path == u.path && t.endpoint == u.endpoint
  {
    assert Get(t, ID) == Get(u, ID);
    assert Get(t, PoolIndex) == Get(u, PoolIndex);
    assert Get(t, SetIndex) == Get(u, SetIndex);
    assert Get(t, DiskIndex) == Get(u, DiskIndex);
    assert Get(t, Path) == Get(u, Path);
    assert Get(t, Endpoint) == Get(u, Endpoint);
  }

  lemma SameFields6(t: Tracker, u: Tracker)
    requires forall f: Field :: Get(t, f) == Get(u, f)
    ensures t.started == u.started && t.lastUpdate == u.lastUpdate &&
            t.objectsTotalCount == u.objectsTotalCount && t.objectsTotalSize == u.objectsTotalSize &&
            t.itemsHealed == u.itemsHealed && t.itemsFailed == u.itemsFailed
  {
    assert Get(t, Started) == Get(u, Started);
    assert Get(t, LastUpdate) == Get(u, LastUpdate);
    assert Get(t, ObjectsTotalCount) == Get(u, ObjectsTotalCount);
    assert Get(t, ObjectsTotalSize) == Get(u, ObjectsTotalSize);
    assert Get(t, ItemsHealed) == Get(u, ItemsHealed);
    assert Get(t, ItemsFailed) == Get(u, ItemsFailed);
  }

  lemma SameFields12(t: Tracker, u: Tracker)
    requires forall f: Field :: Get(t, f) == Get(u, f)
    ensures t.bytesDone == u.bytesDone && t.bytesFailed == u.bytesFailed && t.bucket == u.bucket &&
            t.objectName == u.objectName && t.resumeItemsHealed == u.resumeItemsHealed &&
            t.resumeItemsFailed == u.resumeItemsFailed
  {
    assert Get(t, BytesDone) == Get(u, BytesDone);
    assert Get(t, BytesFailed) == Get(u, BytesFailed);
    assert Get(t, Bucket) == Get(u, Bucket);
    assert Get(t, Object) == Get(u, Object);
    assert Get(t, ResumeItemsHealed) == Get(u, ResumeItemsHealed);
    assert Get(t, ResumeItemsFailed) == Get(u, ResumeItemsFailed);
  }

  lemma SameFields18(t: Tracker, u: Tracker)
    requires forall f: Field :: Get(t, f) == Get(u, f)
    ensures t.resumeItemsSkipped == u.resumeItemsSkipped && t.resumeBytesDone == u.resumeBytesDone &&
            t.resumeBytesFailed == u.resumeBytesFailed && t.resumeBytesSkipped == u.resumeBytesSkipped &&
            t.queuedBuckets == u.queuedBuckets && t.healedBuckets == u.healedBuckets
  {
    assert Get(t, ResumeItemsSkipped) == Get(u, ResumeItemsSkipped);
    assert Get(t, ResumeBytesDone) == Get(u, ResumeBytesDone);
    assert Get(t, ResumeBytesFailed) == Get(u, ResumeBytesFailed);
    assert Get(t, ResumeBytesSkipped) == Get(u, ResumeBytesSkipped);
    assert Get(t, QueuedBuckets) == Get(u, QueuedBuckets);
    assert Get(t, HealedBuckets) == Get(u, HealedBuckets);
  }

  lemma SameFields24(t: Tracker, u: Tracker)
    requires forall f: Field :: Get(t, f) == Get(u, f)
    ensures t.healID == u.healID && t.itemsSkipped == u.itemsSkipped && t.bytesSkipped == u.bytesSkipped &&
            t.retryAttempts == u.retryAttempts && t.finished == u.finished
  {
    assert Get(t, HealID) == Get(u, HealID);
    assert Get(t, ItemsSkipped) == Get(u, ItemsSkipped);
    assert Get(t, BytesSkipped) == Get(u, BytesSkipped);
    assert Get(t, RetryAttempts) == Get(u, RetryAttempts);
    assert Get(t, Finished) == Get(u, Finished);
  }

  lemma SameFieldsSameTracker(t: Tracker, u: Tracker)
    requires forall f: Field :: Get(t, f) == Get(u, f)
    ensures t == u
  {
    hide Get;
    SameFields0(t, u);
    SameFields6(t, u);
    SameFields12(t, u);
    SameFields18(t, u);
    SameFields24(t, u);
  }

  function KeyName(f: Field): string {
    match f
    case ID => "ID"
    case PoolIndex => "PoolIndex"
    case SetIndex => "SetIndex"
    case DiskIndex => "DiskIndex"
    case Path => "Path"
    case Endpoint => "Endpoint"
    case Started => "Started"
    case LastUpdate => "LastUpdate"
    case ObjectsTotalCount => "ObjectsTotalCount"
    case ObjectsTotalSize => "ObjectsTotalSize"
    case ItemsHealed => "ItemsHealed"
    case ItemsFailed => "ItemsFailed"
    case BytesDone => "BytesDone"
    case BytesFailed => "BytesFailed"
    case Bucket => "Bucket"
    case Object => "Object"
    case ResumeItemsHealed => "ResumeItemsHealed"
    case ResumeItemsFailed => "ResumeItemsFailed"
    case ResumeItemsSkipped => "ResumeItemsSkipped"
    case ResumeBytesDone => "ResumeBytesDone"
    case ResumeBytesFailed => "ResumeBytesFailed"
    case ResumeBytesSkipped => "ResumeBytesSkipped"
    case QueuedBuckets => "QueuedBuckets"
    case HealedBuckets => "HealedBuckets"
    case HealID => "HealID"
    case ItemsSkipped => "ItemsSkipped"
    case BytesSkipped => "BytesSkipped"
    case RetryAttempts => "RetryAttempts"
    case Finished => "Finished"
  }

  // Which member of the struct is stored under which name.

  lemma {:induction false} StoredUnder0(t: Tracker)
    ensures KeyName(ID) == "ID" && Get(t, ID) == Str(t.id)
    ensures KeyName(PoolIndex) == "PoolIndex" && Get(t, PoolIndex) == Int(t.poolIndex)
    ensures KeyName(SetIndex) == "SetIndex" && Get(t, SetIndex) == Int(t.setIndex)
    ensures KeyName(DiskIndex) == "DiskIndex" && Get(t, DiskIndex) == Int(t.diskIndex)
    ensures KeyName(Path) == "Path" && Get(t, Path) == Str(t.path)
  {
  }

  lemma {:induction false} StoredUnder5(t: Tracker)
    ensures KeyName(Endpoint) == "Endpoint" && Get(t, Endpoint) == Str(t.endpoint)
    ensures KeyName(Started) == "Started" && Get(t, Started) == At(t.started)
    ensures KeyName(LastUpdate) == "LastUpdate" && Get(t, LastUpdate) == At(t.lastUpdate)
    ensures KeyName(ObjectsTotalCount) == "ObjectsTotalCount" && Get(t, ObjectsTotalCount) == Uint(t.objectsTotalCount)
    ensures KeyName(ObjectsTotalSize) == "ObjectsTotalSize" && Get(t, ObjectsTotalSize) == Uint(t.objectsTotalSize)
  {
  }

  lemma {:induction false} StoredUnder10(t: Tracker)
    ensures KeyName(ItemsHealed) == "ItemsHealed" && Get(t, ItemsHealed) == Uint(t.itemsHealed)
    ensures KeyName(ItemsFailed) == "ItemsFailed" && Get(t, ItemsFailed) == Uint(t.itemsFailed)
    ensures KeyName(BytesDone) == "BytesDone" && Get(t, BytesDone) == Uint(t.bytesDone)
    ensures KeyName(BytesFailed) == "BytesFailed" && Get(t, BytesFailed) == Uint(t.bytesFailed)
    ensures KeyName(Bucket) == "Bucket" && Get(t, Bucket) == Str(t.bucket)
  {
  }

  lemma {:induction false} StoredUnder15(t: Tracker)
    ensures KeyName(Object) == "Object" && Get(t, Object) == Str(t.objectName)
    ensures KeyName(ResumeItemsHealed) == "ResumeItemsHealed" && Get(t, ResumeItemsHealed) == Uint(t.resumeItemsHealed)
    ensures KeyName(ResumeItemsFailed) == "ResumeItemsFailed" && Get(t, ResumeItemsFailed) == Uint(t.resumeItemsFailed)
    ensures KeyName(ResumeItemsSkipped) == "ResumeItemsSkipped" &&
            Get(t, ResumeItemsSkipped) == Uint(t.resumeItemsSkipped)
    ensures KeyName(ResumeBytesDone) == "ResumeBytesDone" && Get(t, ResumeBytesDone) == Uint(t.resumeBytesDone)
  {
  }

  lemma {:induction false} StoredUnder20(t: Tracker)
    ensures KeyName(ResumeBytesFailed) == "ResumeBytesFailed" && Get(t, ResumeBytesFailed) == Uint(t.resumeBytesFailed)
    ensures KeyName(ResumeBytesSkipped) == "ResumeBytesSkipped" &&
            Get(t, ResumeBytesSkipped) == Uint(t.resumeBytesSkipped)
    ensures KeyName(QueuedBuckets) == "QueuedBuckets" && Get(t, QueuedBuckets) == List(t.queuedBuckets)
    ensures KeyName(HealedBuckets) == "HealedBuckets" && Get(t, HealedBuckets) == List(t.healedBuckets)
    ensures KeyName(HealID) == "HealID" && Get(t, HealID) == Str(t.healID)
  {
  }

  lemma {:induction false} StoredUnder25(t: Tracker)
    ensures KeyName(ItemsSkipped) == "ItemsSkipped" && Get(t, ItemsSkipped) == Uint(t.itemsSkipped)
    ensures KeyName(BytesSkipped) == "BytesSkipped" && Get(t, BytesSkipped) == Uint(t.bytesSkipped)
    ensures KeyName(RetryAttempts) == "RetryAttempts" && Get(t, RetryAttempts) == Uint(t.retryAttempts)
    ensures KeyName(Finished) == "Finished" && Get(t, Finished) == Flag(t.finished)
  {
  }

  function CharAt(s: string, i: nat): char {
    if i < |s| then s[i] else '.'
  }

  /** Length and three characters, which differ for any two names. */
  function Signature(s: string): (nat, char, char, char) {
    (|s|, CharAt(s, 0), CharAt(s, 6), CharAt(s, 11))
  }

  function SignatureOf(f: Field): (nat, char, char, char) {
    match f
    case ID => (2, 'I', '.', '.')
    case PoolIndex => (9, 'P', 'd', '.')
    case SetIndex => (8, 'S', 'e', '.')
    case DiskIndex => (9, 'D', 'd', '.')
    case Path => (4, 'P', '.', '.')
    case Endpoint => (8, 'E', 'n', '.')
    case Started => (7, 'S', 'd', '.')
    case LastUpdate => (10, 'L', 'd', '.')
    case ObjectsTotalCount => (17, 'O', 's', 'l')
    case ObjectsTotalSize => (16, 'O', 's', 'l')
    case ItemsHealed => (11, 'I', 'e', '.')
    case ItemsFailed => (11, 'I', 'a', '.')
    case BytesDone => (9, 'B', 'o', '.')
    case BytesFailed => (11, 'B', 'a', '.')
    case Bucket => (6, 'B', '.', '.')
    case Object => (6, 'O', '.', '.')
    case ResumeItemsHealed => (17, 'R', 'I', 'H')
    case ResumeItemsFailed => (17, 'R', 'I', 'F')
    case ResumeItemsSkipped => (18, 'R', 'I', 'S')
    case ResumeBytesDone => (15, 'R', 'B', 'D')
    case ResumeBytesFailed => (17, 'R', 'B', 'F')
    case ResumeBytesSkipped => (18, 'R', 'B', 'S')
    case QueuedBuckets => (13, 'Q', 'B', 't')
    case HealedBuckets => (13, 'H', 'B', 't')
    case HealID => (6, 'H', '.', '.')
    case ItemsSkipped => (12, 'I', 'k', 'd')
    case BytesSkipped => (12, 'B', 'k', 'd')
    case RetryAttempts => (13, 'R', 't', 't')
    case Finished => (8, 'F', 'e', '.')
  }

  lemma Signatures(f: Field)
    ensures Signature(KeyName(f)) == SignatureOf(f)
  {
  }

  lemma NamesDiffer(f: Field, g: Field)
    requires KeyName(f) == KeyName(g)
    ensures f == g
  {
    Signatures(f);
    Signatures(g);
    hide KeyName, Signature;
  }

  // ---- names ----

  /** The name as the printer writes it. */
  function KeyBytes(f: Field): (key: bytes)
    ensures |key| <= 18
  {
    match f
    case ID => [0x49, 0x44]
    case PoolIndex => [0x50, 0x6f, 0x6f, 0x6c, 0x49, 0x6e, 0x64, 0x65, 0x78]
    case SetIndex => [0x53, 0x65, 0x74, 0x49, 0x6e, 0x64, 0x65, 0x78]
    case DiskIndex => [0x44, 0x69, 0x73, 0x6b, 0x49, 0x6e, 0x64, 0x65, 0x78]
    case Path => [0x50, 0x61, 0x74, 0x68]
    case Endpoint => [0x45, 0x6e, 0x64, 0x70, 0x6f, 0x69, 0x6e, 0x74]
    case Started => [0x53, 0x74, 0x61, 0x72, 0x74, 0x65, 0x64]
    case LastUpdate => [0x4c, 0x61, 0x73, 0x74, 0x55, 0x70, 0x64, 0x61, 0x74, 0x65]
    case ObjectsTotalCount =>
      [0x4f, 0x62, 0x6a, 0x65, 0x63, 0x74, 0x73, 0x54, 0x6f, 0x74, 0x61, 0x6c, 0x43, 0x6f, 0x75, 0x6e, 0x74]
    case ObjectsTotalSize =>
      [0x4f, 0x62, 0x6a, 0x65, 0x63, 0x74, 0x73, 0x54, 0x6f, 0x74, 0x61, 0x6c, 0x53, 0x69, 0x7a, 0x65]
    case ItemsHealed => [0x49, 0x74, 0x65, 0x6d, 0x73, 0x48, 0x65, 0x61, 0x6c, 0x65, 0x64]
    case ItemsFailed => [0x49, 0x74, 0x65, 0x6d, 0x73, 0x46, 0x61, 0x69, 0x6c, 0x65, 0x64]
    case BytesDone => [0x42, 0x79, 0x74, 0x65, 0x73, 0x44, 0x6f, 0x6e, 0x65]
    case BytesFailed => [0x42, 0x79, 0x74, 0x65, 0x73, 0x46, 0x61, 0x69, 0x6c, 0x65, 0x64]
    case Bucket => [0x42, 0x75, 0x63, 0x6b, 0x65, 0x74]
    case Object => [0x4f, 0x62, 0x6a, 0x65, 0x63, 0x74]
    case ResumeItemsHealed =>
      [0x52, 0x65, 0x73, 0x75, 0x6d, 0x65, 0x49, 0x74, 0x65, 0x6d, 0x73, 0x48, 0x65, 0x61, 0x6c, 0x65, 0x64]
    case ResumeItemsFailed =>
      [0x52, 0x65, 0x73, 0x75, 0x6d, 0x65, 0x49, 0x74, 0x65, 0x6d, 0x73, 0x46, 0x61, 0x69, 0x6c, 0x65, 0x64]
    case ResumeItemsSkipped =>
      [0x52, 0x65, 0x73, 0x75, 0x6d, 0x65, 0x49, 0x74, 0x65, 0x6d, 0x73, 0x53, 0x6b, 0x69, 0x70, 0x70, 0x65, 0x64]
    case ResumeBytesDone => [0x52, 0x65, 0x73, 0x75, 0x6d, 0x65, 0x42, 0x79, 0x74, 0x65, 0x73, 0x44, 0x6f, 0x6e, 0x65]
    case ResumeBytesFailed =>
      [0x52, 0x65, 0x73, 0x75, 0x6d, 0x65, 0x42, 0x79, 0x74, 0x65, 0x73, 0x46, 0x61, 0x69, 0x6c, 0x65, 0x64]
    case ResumeBytesSkipped =>
      [0x52, 0x65, 0x73, 0x75, 0x6d, 0x65, 0x42, 0x79, 0x74, 0x65, 0x73, 0x53, 0x6b, 0x69, 0x70, 0x70, 0x65, 0x64]
    case QueuedBuckets => [0x51, 0x75, 0x65, 0x75, 0x65, 0x64, 0x42, 0x75, 0x63, 0x6b, 0x65, 0x74, 0x73]
    case HealedBuckets => [0x48, 0x65, 0x61, 0x6c, 0x65, 0x64, 0x42, 0x75, 0x63, 0x6b, 0x65, 0x74, 0x73]
    case HealID => [0x48, 0x65, 0x61, 0x6c, 0x49, 0x44]
    case ItemsSkipped => [0x49, 0x74, 0x65, 0x6d, 0x73, 0x53, 0x6b, 0x69, 0x70, 0x70, 0x65, 0x64]
    case BytesSkipped => [0x42, 0x79, 0x74, 0x65, 0x73, 0x53, 0x6b, 0x69, 0x70, 0x70, 0x65, 0x64]
    case RetryAttempts => [0x52, 0x65, 0x74, 0x72, 0x79, 0x41, 0x74, 0x74, 0x65, 0x6d, 0x70, 0x74, 0x73]
    case Finished => [0x46, 0x69, 0x6e, 0x69, 0x73, 0x68, 0x65, 0x64]
  }

  /** A Go string of single-byte characters. */
  function TextOf(key: bytes): (s: string)
    ensures |s| == |key|
  {
    seq(|key|, i requires 0 <= i < |key| => key[i] as char)
  }

  lemma Agree0(f: Field)
    requires 0 <= Ord(f) < 5
    ensures TextOf(KeyBytes(f)) == KeyName(f)
  {
  }

  lemma Agree5(f: Field)
    requires 5 <= Ord(f) < 9
    ensures TextOf(KeyBytes(f)) == KeyName(f)
  {
  }

  lemma Agree9(f: Field)
    requires 9 <= Ord(f) < 13
    ensures TextOf(KeyBytes(f)) == KeyName(f)
  {
  }

  lemma Agree13(f: Field)
    requires 13 <= Ord(f) < 17
    ensures TextOf(KeyBytes(f)) == KeyName(f)
  {
  }

  lemma Agree17(f: Field)
    requires 17 <= Ord(f) < 20
    ensures TextOf(KeyBytes(f)) == KeyName(f)
  {
  }

  lemma Agree20(f: Field)
    requires 20 <= Ord(f) < 23
    ensures TextOf(KeyBytes(f)) == KeyName(f)
  {
  }

  lemma Agree23(f: Field)
    requires 23 <= Ord(f) < 29
    ensures TextOf(KeyBytes(f)) == KeyName(f)
  {
  }

  /** The names that the printer writes are those the parser looks for. */
  lemma PrinterAndParserAgree(f: Field)
    ensures TextOf(KeyBytes(f)) == KeyName(f)
  {
    hide KeyName, TextOf, KeyBytes, Ord;
    if Ord(f) < 5 {
      Agree0(f);
    } else if Ord(f) < 9 {
      Agree5(f);
    } else if Ord(f) < 13 {
      Agree9(f);
    } else if Ord(f) < 17 {
      Agree13(f);
    } else if Ord(f) < 20 {
      Agree17(f);
    } else if Ord(f) < 23 {
      Agree20(f);
    } else {
      Agree23(f);
    }
  }

  /** The parser's switch: the field of a name, from the k-th on. */
  function FieldFrom(name: string, k: nat): (f: Option<Field>)
    requires k <= 29
    ensures f.Some? ==> KeyName(f.value) == name
    ensures f.None? ==> forall i :: k <= i < 29 ==> KeyName(FIELDS[i]) != name
    decreases 29 - k
  {
    if k == 29 then None
    else if KeyName(FIELDS[k]) == name then Some(FIELDS[k])
    else FieldFrom(name, k + 1)
  }

  function FieldOf(key: bytes): Option<Field> {
    FieldFrom(TextOf(key), 0)
  }

  lemma FieldOfKey(f: Field)
    ensures FieldOf(KeyBytes(f)) == Some(f)
  {
    PrinterAndParserAgree(f);
    FieldAt(f);
    hide KeyName, TextOf, KeyBytes, FieldFrom, Ord;
    assert KeyName(FIELDS[Ord(f)]) == KeyName(f);
    var g := FieldFrom(TextOf(KeyBytes(f)), 0);
    if g.Some? {
      NamesDiffer(f, g.value);
    }
  }
}
