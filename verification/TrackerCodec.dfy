/**
 * The persisted form of the healing tracker: a MessagePack map from field names to values, and its parser
 * (cmd/background-newdisks-heal-ops_gen.go).
 */
module TrackerCodec {
  import opened Bytes
  import opened MsgPack
  import opened MsgPackObjects
  import opened TrackerFields

  // ---- values ----

  /** Lengths are written in at most 32 bits. */
  predicate Encodable(v: Value) {
    match v
    case Str(s) => |s| < CAP4
    case List(l) => |l| < CAP4 && forall x :: x in l ==> |x| < CAP4
    case _ => true
  }

  function AppendList(l: seq<bytes>): bytes
    requires Encodable(List(l))
  {
    AppendArrayHeader(|l|) + AppendStrings(l)
  }

  function AppendValue(v: Value): bytes
    requires Encodable(v)
  {
    match v
    case Str(s) => AppendString(s)
    case Int(i) => AppendInt(i)
    case Uint(n) => AppendUint64(n)
    case At(t) => AppendTime(t)
    case List(l) => AppendList(l)
    case Flag(b) => AppendBool(b)
  }

  function ReadList(b: bytes): Parsed<seq<bytes>> {
    var n := ReadArrayHeader(b);
    if n.Ok? then ReadStrings([], n.value, n.rest) else Fail
  }

  /** The parser of a field's type. */
  function ReadValue(kind: Kind, b: bytes): (v: Parsed<Value>)
    ensures v.Ok? ==> v.value.Kind() == kind
  {
    match kind
    case StrKind => (var p := ReadString(b); if p.Ok? then Ok(Str(p.value), p.rest) else Fail)
    case IntKind => (var p := ReadInt(b); if p.Ok? then Ok(Int(p.value), p.rest) else Fail)
    case UintKind => (var p := ReadUint64(b); if p.Ok? then Ok(Uint(p.value), p.rest) else Fail)
    case AtKind => (var p := ReadTime(b); if p.Ok? && ValidTime(p.value) then Ok(At(p.value), p.rest) else Fail)
    case ListKind => (var p := ReadList(b); if p.Ok? then Ok(List(p.value), p.rest) else Fail)
    case FlagKind => (var p := ReadBool(b); if p.Ok? then Ok(Flag(p.value), p.rest) else Fail)
  }

  lemma ListRoundTrip(l: seq<bytes>, rest: bytes)
    requires Encodable(List(l))
    ensures ReadList(AppendList(l) + rest) == Ok(l, rest)
  {
    ArrayHeaderRoundTrip(|l|, AppendStrings(l) + rest);
    StringsRoundTrip([], l, rest);
    assert AppendList(l) + rest == AppendArrayHeader(|l|) + (AppendStrings(l) + rest);
    assert [] + l == l;
  }

  lemma ValueRoundTrip(v: Value, rest: bytes)
    requires Encodable(v)
    ensures ReadValue(v.Kind(), AppendValue(v) + rest) == Ok(v, rest)
  {
    hide AppendString, AppendInt, AppendUint64, AppendTime, AppendList;
    hide ReadString, ReadInt, ReadUint64, ReadTime, ReadList;
    match v
    case Str(s) => StringRoundTrip(s, rest);
    case Int(i) => IntRoundTrip(i, rest);
    case Uint(n) => Uint64RoundTrip(n, rest);
    case At(t) => TimeRoundTrip(t, rest);
    case List(l) => ListRoundTrip(l, rest);
    case Flag(b) => assert (AppendBool(b) + rest)[1..] == rest;
  }

  // ---- values in any format ----

  /** The object, in whatever format, stands for the value. */
  predicate Denotes(o: Obj, v: Value) {
    Fits(o) &&
    match v
    case Str(s) => o.StrObj? && o.s == s
    case Int(i) => IsInteger(o) && IntOf(o) == i
    case Uint(n) => IsInteger(o) && IntOf(o) == n
    case At(t) => o == TimeObj(t)
    case List(l) => o.ArrObj? && DenoteTexts(o.items, l)
    case Flag(b) => o == BoolObj(b)
  }

  predicate DenoteTexts(items: seq<Obj>, l: seq<bytes>) {
    |items| == |l| && forall k :: 0 <= k < |l| ==> items[k].StrObj? && items[k].s == l[k]
  }

  lemma {:induction false} ReadsOneText(before: seq<Text>, o: Obj, n: nat, more: bytes)
    requires Fits(o) && o.StrObj?
    ensures |o.s| < CAP4 && ReadStrings(before, n + 1, Written(o) + more) == ReadStrings(before + [o.s], n, more)
  {
    ReadsText(o, more);
    hide ReadString, Written, Fits;
  }

  lemma {:induction false} FirstText(items: seq<Obj>, l: seq<bytes>)
    requires AllFit(items) && DenoteTexts(items, l) && items != []
    ensures Fits(items[0]) && items[0].StrObj? && items[0].s == l[0]
    ensures AllFit(items[1..]) && DenoteTexts(items[1..], l[1..]) && l == [l[0]] + l[1..]
    ensures AllWritten(items) == Written(items[0]) + AllWritten(items[1..])
  {
    hide Fits, Written;
  }

  lemma {:induction false} ReadsTexts(before: seq<Text>, items: seq<Obj>, l: seq<bytes>, rest: bytes)
    requires AllFit(items) && DenoteTexts(items, l)
    ensures forall x :: x in l ==> |x| < CAP4
    ensures ReadStrings(before, |items|, AllWritten(items) + rest) == Ok(before + l, rest)
    decreases |items|
  {
    if items == [] {
      assert l == [] && before + l == before && AllWritten(items) + rest == rest;
    } else {
      var more := AllWritten(items[1..]) + rest;
      FirstText(items, l);
      hide *;
      ReadsOneText(before, items[0], |items| - 1, more);
      Associative(Written(items[0]), AllWritten(items[1..]), rest);
      ReadsTexts(before + [l[0]], items[1..], l[1..], rest);
      Associative(before, [l[0]], l[1..]);
    }
  }

  lemma {:induction false} ReadsTextList(o: Obj, l: seq<bytes>, rest: bytes)
    requires Fits(o) && o.ArrObj? && DenoteTexts(o.items, l)
    ensures ReadList(Written(o) + rest) == Ok(l, rest)
  {
    NestedParts(o, rest);
    ReadsHeader(o, AllWritten(o.items) + rest);
    ReadsTexts([], o.items, l, rest);
    assert [] + l == l;
    hide Written, Flat, AllWritten, ReadArrayHeader, ReadStrings, DenoteTexts;
  }

  /** The parser of a field's type reads every format that a value can have. */
  lemma {:induction false} ReadsDenoted(o: Obj, v: Value, rest: bytes)
    requires Denotes(o, v)
    ensures ReadValue(v.Kind(), Written(o) + rest) == Ok(v, rest)
  {
    hide ReadString, ReadInteger, ReadTime, ReadList, Fits, Written, DenoteTexts, IntOf, IsInteger, TimeObj;
    match v
    case Str(s) => ReadsText(o, rest);
    case Int(_) => ReadsInteger(o, rest);
    case Uint(_) => ReadsInteger(o, rest);
    case At(t) =>
      TimeIsWritten(t);
      TimeRoundTrip(t, rest);
    case List(l) => ReadsTextList(o, l, rest);
    case Flag(b) => ReadsBool(b, rest);
  }

  /** The object as which a list is written: an array of strings, each in its smallest format. */
  function TextObjs(l: seq<bytes>): (items: seq<Obj>)
    requires forall x :: x in l ==> |x| < CAP4
    ensures |items| == |l| && forall k :: 0 <= k < |l| ==> items[k] == SmallestStr(l[k])
  {
    seq(|l|, k requires 0 <= k < |l| => SmallestStr(l[k]))
  }

  /** The object as which a value is written. */
  function ObjOf(v: Value): Obj
    requires Encodable(v)
  {
    match v
    case Str(s) => SmallestStr(s)
    case Int(i) => SmallestInt(i)
    case Uint(n) => SmallestUint(n)
    case At(t) => TimeObj(t)
    case List(l) => SmallestArr(TextObjs(l))
    case Flag(b) => BoolObj(b)
  }

  lemma {:induction false} TextsWritten(l: seq<bytes>)
    requires forall x :: x in l ==> |x| < CAP4
    ensures AllFit(TextObjs(l)) && AllWritten(TextObjs(l)) == AppendStrings(l)
    decreases |l|
  {
    hide Written, AppendString, SmallestStr, Fits;
    if l != [] {
      var init, last := l[..|l| - 1], l[|l| - 1];
      TextsWritten(init);
      StringIsSmallest(last, Nil);
      assert TextObjs(l) == TextObjs(init) + [SmallestStr(last)];
      AllWrittenSnoc(TextObjs(init), SmallestStr(last));
    }
  }

  lemma {:induction false} AllWrittenSnoc(items: seq<Obj>, o: Obj)
    requires AllFit(items) && Fits(o)
    ensures AllFit(items + [o]) && AllWritten(items + [o]) == AllWritten(items) + Written(o)
    decreases |items|
  {
    hide Written, Fits;
    if items == [] {
      assert items + [o] == [o] && [o][1..] == [];
      assert AllWritten([o]) == Written(o) + AllWritten([]);
    } else {
      assert (items + [o])[1..] == items[1..] + [o];
      AllWrittenSnoc(items[1..], o);
      Associative(Written(items[0]), AllWritten(items[1..]), Written(o));
    }
  }

  lemma {:induction false} ListIsWritten(l: seq<bytes>)
    requires Encodable(List(l))
    ensures Denotes(SmallestArr(TextObjs(l)), List(l)) && AppendList(l) == Written(SmallestArr(TextObjs(l)))
  {
    TextsWritten(l);
    ArrayHeaderIsSmallest(TextObjs(l), Nil);
    WrittenParts(SmallestArr(TextObjs(l)));
    hide Written, Flat, AllWritten, AllFit, Fits, AppendArrayHeader, AppendStrings;
  }

  /** A value is written as an object that stands for it. */
  lemma {:induction false} ValueIsWritten(v: Value)
    requires Encodable(v)
    ensures Denotes(ObjOf(v), v) && AppendValue(v) == Written(ObjOf(v))
  {
    hide AppendString, AppendInt, AppendUint64, AppendTime, AppendList, Written, Fits, IntOf, TimeObj, TextObjs,
         DenoteTexts;
    match v
    case Str(s) => StringIsSmallest(s, Nil);
    case Int(i) => IntIsSmallest(i, Nil);
    case Uint(n) => UintIsSmallest(n, Nil);
    case At(t) => TimeIsWritten(t);
    case List(l) => ListIsWritten(l);
    case Flag(b) => BoolIsWritten(b);
  }

  // ---- key/value pairs ----

  /**
   * A pair of the map: a value for a field, or any one object under a name that no field has; name, value and object
   * in any format.
   */
  datatype Pair =
    | Known(f: Field, v: Value, key: Obj, obj: Obj)
    | Unknown(name: bytes, key: Obj, obj: Obj)

  /** A map key: a string, or a binary. */
  predicate Names(key: Obj, name: bytes) {
    Fits(key) && (key.StrObj? || key.BinObj?) && key.s == name
  }

  predicate ValidPair(p: Pair) {
    match p
    case Known(f, v, key, obj) => v.Kind() == KindOf(f) && Names(key, KeyBytes(f)) && Denotes(obj, v)
    case Unknown(name, key, obj) => FieldOf(name).None? && Names(key, name) && Fits(obj)
  }

  function EncodePair(p: Pair): bytes
    requires ValidPair(p)
  {
    Written(p.key) + Written(p.obj)
  }

  /** The effect of a pair on a tracker. */
  function Assign(t: Tracker, p: Pair): Tracker
    requires ValidPair(p)
  {
    if p.Known? then Set(t, p.f, p.v) else t
  }

  /** The value for a field whose key was read. */
  function DecodeField(t: Tracker, f: Field, b: bytes): Parsed<Tracker> {
    var v := ReadValue(KindOf(f), b);
    if v.Ok? then Ok(Set(t, f, v.value), v.rest) else Fail
  }

  /** One turn of the parser's loop. */
  function DecodePair(t: Tracker, b: bytes): Parsed<Tracker> {
    var key := ReadMapKey(b);
    if key.Fail? then Fail
    else
      var f := FieldOf(key.value);
      if f.Some? then DecodeField(t, f.value, key.rest)
      else
        var rest := Skip(key.rest);
        if rest.Some? then Ok(t, rest.value) else Fail
  }

  lemma {:induction false} PairRoundTrip(t: Tracker, p: Pair, rest: bytes)
    requires ValidPair(p)
    ensures DecodePair(t, EncodePair(p) + rest) == Ok(Assign(t, p), rest)
  {
    assert Fits(p.obj);
    hide Written, ReadMapKey, ReadValue, FieldOf, Skip, Set, KindOf, KeyBytes, Denotes, Fits;
    var more := Written(p.obj) + rest;
    ReadsText(p.key, more);
    Associative(Written(p.key), Written(p.obj), rest);
    match p
    case Known(f, v, _, obj) =>
      FieldOfKey(f);
      ReadsDenoted(obj, v, rest);
    case Unknown(_, _, obj) => SkipsWhole(obj, rest);
  }

  // ---- whole messages ----

  ghost predicate ValidPairs(ps: seq<Pair>) {
    forall i :: 0 <= i < |ps| ==> ValidPair(ps[i])
  }

  /** The pairs from the i-th on, one behind the other. */
  ghost function EncodeFrom(ps: seq<Pair>, i: nat): bytes
    requires ValidPairs(ps) && i <= |ps|
    decreases |ps| - i
  {
    if i == |ps| then [] else EncodePair(ps[i]) + EncodeFrom(ps, i + 1)
  }

  ghost function AssignFrom(t: Tracker, ps: seq<Pair>, i: nat): Tracker
    requires ValidPairs(ps) && i <= |ps|
    decreases |ps| - i
  {
    if i == |ps| then t else AssignFrom(Assign(t, ps[i]), ps, i + 1)
  }

  /** n turns of the parser's loop. */
  function DecodePairs(t: Tracker, n: nat, b: bytes): Parsed<Tracker>
    decreases n
  {
    if n == 0 then Ok(t, b)
    else
      var p := DecodePair(t, b);
      if p.Ok? then DecodePairs(p.value, n - 1, p.rest) else Fail
  }

  /** The parser: fields that the message lacks keep what they were in `t`. */
  function Decode(t: Tracker, b: bytes): Parsed<Tracker> {
    var n := ReadMapHeader(b);
    if n.Ok? then DecodePairs(t, n.value, n.rest) else Fail
  }

  lemma {:induction false} PairsRoundTrip(t: Tracker, ps: seq<Pair>, i: nat, rest: bytes)
    requires ValidPairs(ps) && i <= |ps|
    ensures DecodePairs(t, |ps| - i, EncodeFrom(ps, i) + rest) == Ok(AssignFrom(t, ps, i), rest)
    decreases |ps| - i
  {
    hide DecodePair, EncodePair, Assign, ValidPair;
    if i == |ps| {
      assert EncodeFrom(ps, i) + rest == rest;
    } else {
      var more := EncodeFrom(ps, i + 1) + rest;
      PairRoundTrip(t, ps[i], more);
      assert EncodeFrom(ps, i) + rest == EncodePair(ps[i]) + more;
      PairsRoundTrip(Assign(t, ps[i]), ps, i + 1, rest);
    }
  }

  // ---- the laws of the codec ----

  ghost predicate Gives(ps: seq<Pair>, t: Tracker, f: Field) {
    exists i :: 0 <= i < |ps| && IsFor(ps[i], f) && ps[i].v == Get(t, f)
  }

  /** The pairs give each field at least once, with the value that it has in the tracker, in any order. */
  ghost predicate Describes(ps: seq<Pair>, t: Tracker) {
    (forall i :: 0 <= i < |ps| && ps[i].Known? ==> ps[i].v == Get(t, ps[i].f)) &&
    (forall f: Field :: Gives(ps, t, f))
  }

  predicate IsFor(p: Pair, f: Field) {
    p.Known? && p.f == f
  }

  lemma AssignGet(u: Tracker, p: Pair, f: Field)
    requires ValidPair(p)
    ensures Get(Assign(u, p), f) == if IsFor(p, f) then p.v else Get(u, f)
  {
    if p.Known? {
      GetSet(u, p.f, p.v, f);
    }
  }

  /** A field that no pair gives keeps its value. */
  lemma {:induction false} Untouched(u: Tracker, ps: seq<Pair>, i: nat, f: Field)
    requires ValidPairs(ps) && i <= |ps|
    requires forall j :: i <= j < |ps| ==> !IsFor(ps[j], f)
    ensures Get(AssignFrom(u, ps, i), f) == Get(u, f)
    decreases |ps| - i
  {
    hide Get, Assign, ValidPair;
    if i < |ps| {
      AssignGet(u, ps[i], f);
      Untouched(Assign(u, ps[i]), ps, i + 1, f);
    }
  }

  /** Of several pairs for a field the last one wins. */
  lemma {:induction false} LastWins(u: Tracker, ps: seq<Pair>, i: nat, k: nat, f: Field)
    requires ValidPairs(ps) && i <= k < |ps| && IsFor(ps[k], f)
    requires forall j :: k < j < |ps| ==> !IsFor(ps[j], f)
    ensures Get(AssignFrom(u, ps, i), f) == ps[k].v
    decreases k - i
  {
    hide Get, Assign, ValidPair;
    AssignGet(u, ps[i], f);
    if i == k {
      Untouched(Assign(u, ps[i]), ps, i + 1, f);
    } else {
      LastWins(Assign(u, ps[i]), ps, i + 1, k, f);
    }
  }

  lemma {:induction false} LastIndex(ps: seq<Pair>, n: nat, f: Field) returns (k: nat)
    requires n <= |ps| && exists i :: 0 <= i < n && IsFor(ps[i], f)
    ensures k < n && IsFor(ps[k], f) && forall j :: k < j < n ==> !IsFor(ps[j], f)
  {
    if IsFor(ps[n - 1], f) {
      k := n - 1;
    } else {
      k := LastIndex(ps, n - 1, f);
    }
  }

  lemma DescribedField(u: Tracker, ps: seq<Pair>, t: Tracker, f: Field)
    requires ValidPairs(ps) && Describes(ps, t)
    ensures Get(AssignFrom(u, ps, 0), f) == Get(t, f)
  {
    hide Get, ValidPairs;
    assert Gives(ps, t, f);
    var i :| 0 <= i < |ps| && IsFor(ps[i], f) && ps[i].v == Get(t, f);
    var k := LastIndex(ps, |ps|, f);
    LastWins(u, ps, 0, k, f);
  }

  lemma {:induction false} OrdOf0(k: nat)
    requires k < 10
    ensures Ord(FIELDS[k]) == k
  {
  }

  lemma {:induction false} OrdOf10(k: nat)
    requires 10 <= k < 20
    ensures Ord(FIELDS[k]) == k
  {
  }

  lemma {:induction false} OrdOf20(k: nat)
    requires 20 <= k < 29
    ensures Ord(FIELDS[k]) == k
  {
  }

  lemma {:induction false} OrdOf(k: nat)
    requires k < 29
    ensures Ord(FIELDS[k]) == k
  {
    hide *;
    if k < 10 {
      OrdOf0(k);
    } else if k < 20 {
      OrdOf10(k);
    } else {
      OrdOf20(k);
    }
  }

  /** Keys and objects of the pairs from the i-th on, in turn. */
  ghost function Entries(ps: seq<Pair>, i: nat): (items: seq<Obj>)
    requires ValidPairs(ps) && i <= |ps|
    ensures |items| == 2 * (|ps| - i)
    decreases |ps| - i
  {
    if i == |ps| then [] else [ps[i].key, ps[i].obj] + Entries(ps, i + 1)
  }

  lemma {:induction false} AllWrittenTwo(a: Obj, b: Obj, items: seq<Obj>)
    requires Fits(a) && Fits(b) && AllFit(items)
    ensures AllFit([a, b] + items) && AllWritten([a, b] + items) == Written(a) + Written(b) + AllWritten(items)
  {
    hide Written, Fits;
    assert ([a, b] + items)[1..] == [b] + items && ([b] + items)[1..] == items;
    assert AllWritten([b] + items) == Written(b) + AllWritten(items);
    Associative(Written(a), Written(b), AllWritten(items));
  }

  lemma {:induction false} EntriesWritten(ps: seq<Pair>, i: nat)
    requires ValidPairs(ps) && i <= |ps|
    ensures AllFit(Entries(ps, i)) && AllWritten(Entries(ps, i)) == EncodeFrom(ps, i)
    decreases |ps| - i
  {
    hide Written, Fits, KindOf, KeyBytes, FieldOf;
    if i < |ps| {
      assert ValidPair(ps[i]);
      EntriesWritten(ps, i + 1);
      AllWrittenTwo(ps[i].key, ps[i].obj, Entries(ps, i + 1));
      hide AllWritten;
    }
  }

  /** The message that is a map of these pairs, in any format. */
  ghost function MapOf(width: nat, ps: seq<Pair>): Obj
    requires ValidPairs(ps)
  {
    MapObj(width, Entries(ps, 0))
  }

  lemma {:induction false} MapWritten(width: nat, ps: seq<Pair>, rest: bytes)
    requires ValidPairs(ps) && Fits(MapOf(width, ps))
    ensures Written(MapOf(width, ps)) + rest == Flat(MapOf(width, ps)) + (EncodeFrom(ps, 0) + rest)
    ensures ReadMapHeader(Written(MapOf(width, ps)) + rest) == Ok(|ps|, EncodeFrom(ps, 0) + rest)
  {
    EntriesWritten(ps, 0);
    NestedParts(MapOf(width, ps), rest);
    ReadsHeader(MapOf(width, ps), EncodeFrom(ps, 0) + rest);
    hide Written, Flat, AllWritten, Fits, ReadMapHeader, EncodeFrom, ValidPairs;
  }

  /**
   * Whatever the order of the pairs, with repetitions, with unknown names and any objects under them in between,
   * whatever the formats of the map, its names and its values, and whatever the tracker that is decoded into: the
   * result is the described tracker, and exactly the message is consumed.
   */
  lemma {:induction false} AnyOrderDecodes(start: Tracker, width: nat, ps: seq<Pair>, t: Tracker, rest: bytes)
    requires ValidPairs(ps) && Describes(ps, t) && Fits(MapOf(width, ps))
    ensures Decode(start, Written(MapOf(width, ps)) + rest) == Ok(t, rest)
  {
    MapWritten(width, ps, rest);
    PairsRoundTrip(start, ps, 0, rest);
    forall f: Field ensures Get(AssignFrom(start, ps, 0), f) == Get(t, f) {
      DescribedField(start, ps, t, f);
    }
    SameFieldsSameTracker(AssignFrom(start, ps, 0), t);
    hide Written, Fits, ValidPairs, Describes, EncodeFrom, AssignFrom, Get, ReadMapHeader, DecodePairs;
  }

  /** All lengths fit 32 bits. */
  predicate EncodableTracker(t: Tracker) {
    |t.id| < CAP4 && |t.path| < CAP4 && |t.endpoint| < CAP4 && |t.bucket| < CAP4 && |t.objectName| < CAP4 &&
    |t.healID| < CAP4 && Encodable(List(t.queuedBuckets)) && Encodable(List(t.healedBuckets))
  }

  lemma EncodableField(t: Tracker, f: Field)
    requires EncodableTracker(t)
    ensures Encodable(Get(t, f))
  {
    match f
    case ID =>
    case Path =>
    case Endpoint =>
    case Bucket =>
    case Object =>
    case HealID =>
    case QueuedBuckets =>
    case HealedBuckets =>
    case _ =>
  }

  /** The pair that is written for a field. */
  ghost function PairOf(t: Tracker, f: Field): Pair
    requires Encodable(Get(t, f))
  {
    Known(f, Get(t, f), SmallestStr(KeyBytes(f)), ObjOf(Get(t, f)))
  }

  lemma {:induction false} PairOfField(t: Tracker, f: Field)
    requires EncodableTracker(t)
    ensures Encodable(Get(t, f)) && ValidPair(PairOf(t, f))
    ensures EncodePair(PairOf(t, f)) == AppendString(KeyBytes(f)) + AppendValue(Get(t, f))
  {
    EncodableField(t, f);
    GetKind(t, f);
    StringIsSmallest(KeyBytes(f), Nil);
    ValueIsWritten(Get(t, f));
    hide Written, Fits, Get, KeyBytes, KindOf, Denotes, ObjOf, AppendString, AppendValue, EncodableTracker;
  }

  /** The pairs in the printer's order. */
  ghost function PairsOf(t: Tracker): (ps: seq<Pair>)
    requires EncodableTracker(t)
    ensures |ps| == 29
  {
    AllEncodable(t);
    seq(29, i requires 0 <= i < 29 => PairOf(t, FIELDS[i]))
  }

  lemma AllEncodable(t: Tracker)
    requires EncodableTracker(t)
    ensures forall f: Field :: Encodable(Get(t, f))
  {
    forall f: Field ensures Encodable(Get(t, f)) {
      EncodableField(t, f);
    }
  }

  lemma PairsOfDescribe(t: Tracker)
    requires EncodableTracker(t)
    ensures ValidPairs(PairsOf(t)) && Describes(PairsOf(t), t)
  {
    hide Ord, KindOf, Get, EncodableTracker, Encodable, ValidPair;
    AllEncodable(t);
    forall i | 0 <= i < 29 ensures ValidPair(PairsOf(t)[i]) {
      PairOfField(t, FIELDS[i]);
    }
    forall f: Field ensures Gives(PairsOf(t), t, f) {
      FieldAt(f);
      assert PairsOf(t)[Ord(f)] == PairOf(t, f);
    }
  }

  const HEADER: bytes := [0xde, 0x0, 0x1d]

  /** What is written to the drive. */
  ghost function Encode(t: Tracker): bytes
    requires EncodableTracker(t)
  {
    PairsOfDescribe(t);
    HEADER + EncodeFrom(PairsOf(t), 0)
  }

  lemma {:induction false} HeaderIs(items: seq<Obj>)
    requires AllFit(items) && |items| == 58
    ensures Fits(MapObj(2, items)) && Flat(MapObj(2, items)) == HEADER
  {
    Caps();
    hide AllFit, Cap;
    assert BigEndian(29, 2) == BigEndian(0, 1) + [29] && BigEndian(0, 1) == BigEndian(0, 0) + [0];
  }

  /** It is a map of 29 pairs in the 16-bit format. */
  lemma {:induction false} EncodeIsMap(t: Tracker)
    requires EncodableTracker(t)
    ensures ValidPairs(PairsOf(t)) && Fits(MapOf(2, PairsOf(t))) && Encode(t) == Written(MapOf(2, PairsOf(t)))
  {
    PairsOfDescribe(t);
    var ps := PairsOf(t);
    hide PairsOf, ValidPairs, EncodeFrom, AllFit, Written, Entries, AllWritten, EncodableTracker, Describes, Fits, Flat;
    EntriesWritten(ps, 0);
    HeaderIs(Entries(ps, 0));
    WrittenParts(MapOf(2, ps));
  }

  /** Round trip: every tracker is restored, into whatever tracker it is read, and all its bytes are consumed. */
  lemma RoundTrip(start: Tracker, t: Tracker, rest: bytes)
    requires EncodableTracker(t)
    ensures Decode(start, Encode(t) + rest) == Ok(t, rest)
  {
    hide Decode, Fits, Encode, Written, MapOf, ValidPairs, Describes, PairsOf;
    PairsOfDescribe(t);
    EncodeIsMap(t);
    AnyOrderDecodes(start, 2, PairsOf(t), t, rest);
  }

  lemma EncodeInjective(t: Tracker, u: Tracker)
    requires EncodableTracker(t) && EncodableTracker(u) && Encode(t) == Encode(u)
    ensures t == u
  {
    RoundTrip(t, t, []);
    RoundTrip(t, u, []);
  }

  /** Any permutation of the pairs describes the same tracker. */
  lemma PermutedDescribes(ps: seq<Pair>, t: Tracker)
    requires EncodableTracker(t) && multiset(ps) == multiset(PairsOf(t))
    ensures ValidPairs(ps) && Describes(ps, t)
  {
    PairsOfDescribe(t);
    hide Get, ValidPair;
    forall i | 0 <= i < |ps| ensures ps[i] in PairsOf(t) {
      assert ps[i] in multiset(ps);
    }
    forall f: Field ensures Gives(ps, t, f) {
      assert Gives(PairsOf(t), t, f);
      var i :| 0 <= i < 29 && IsFor(PairsOf(t)[i], f) && PairsOf(t)[i].v == Get(t, f);
      assert PairsOf(t)[i] in multiset(PairsOf(t));
      assert PairsOf(t)[i] in ps;
    }
  }
}
