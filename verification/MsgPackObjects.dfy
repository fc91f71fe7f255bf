/**
 * MessagePack objects in any format, as the specification's table of formats lays them out, and what the primitives
 * make of them: every format is skipped whole, and every format of a family is read (MessagePack specification, section
 * "Formats").
 */
module MsgPackObjects {
  import opened Bytes
  import opened MsgPack

  /** An object together with its format; `width` is the number of bytes of its number or length, 0 in a fix format. */
  datatype Obj =
    | Nil
    | BoolObj(b: bool)
    | FixInt(i: int)
    | UintObj(width: nat, n: nat)
    | IntObj(width: nat, i: int)
    | Float(data: bytes)
    | StrObj(width: nat, s: bytes)
    | BinObj(width: nat, s: bytes)
    | FixExt(kind: byte, data: bytes)
    | ExtObj(width: nat, kind: byte, data: bytes)
    | ArrObj(width: nat, items: seq<Obj>)
    | MapObj(width: nat, items: seq<Obj>)   // keys and values in turn

  /** A length that the format can hold: up to `fix` in the fix format. */
  predicate HasRoom(width: nat, n: nat, fix: int) {
    if width == 0 then n <= fix else n < Cap(width)
  }

  predicate Fits(o: Obj) {
    match o
    case Nil => true
    case BoolObj(_) => true
    case FixInt(i) => -32 <= i <= 127
    case UintObj(k, n) => k in {1, 2, 4, 8} && n < Cap(k)
    case IntObj(k, i) => k in {1, 2, 4, 8} && 0 <= 2 * i + Cap(k) && 2 * i < Cap(k)
    case Float(data) => |data| == 4 || |data| == 8
    case StrObj(k, s) => k in {0, 1, 2, 4} && HasRoom(k, |s|, 31)
    case BinObj(k, s) => k in {1, 2, 4} && |s| < Cap(k)
    case FixExt(_, data) => |data| in {1, 2, 4, 8, 16}
    case ExtObj(k, _, data) => k in {1, 2, 4} && |data| < Cap(k)
    case ArrObj(k, items) => k in {0, 2, 4} && HasRoom(k, |items|, 15) && AllFit(items)
    case MapObj(k, items) => k in {0, 2, 4} && |items| % 2 == 0 && HasRoom(k, |items| / 2, 15) && AllFit(items)
  }

  predicate AllFit(items: seq<Obj>) {
    forall k :: 0 <= k < |items| ==> Fits(items[k])
  }

  /** The bytes of an object without the objects nested in it. */
  function Flat(o: Obj): bytes
    requires Fits(o)
  {
    match o
    case Nil => [0xc0]
    case BoolObj(b) => [if b then 0xc3 else 0xc2]
    case FixInt(i) => [if i >= 0 then i else 0x100 + i]
    case UintObj(k, n) =>
      [if k == 1 then 0xcc else if k == 2 then 0xcd else if k == 4 then 0xce else 0xcf] + BigEndian(n, k)
    case IntObj(k, i) =>
      [if k == 1 then 0xd0 else if k == 2 then 0xd1 else if k == 4 then 0xd2 else 0xd3] +
      BigEndian(if i >= 0 then i else i + Cap(k), k)
    case Float(data) => [if |data| == 4 then 0xca else 0xcb] + data
    case StrObj(k, s) =>
      (if k == 0 then [0xa0 + |s|]
       else [if k == 1 then 0xd9 else if k == 2 then 0xda else 0xdb] + BigEndian(|s|, k)) + s
    case BinObj(k, s) => [if k == 1 then 0xc4 else if k == 2 then 0xc5 else 0xc6] + BigEndian(|s|, k) + s
    case FixExt(kind, data) =>
      [if |data| == 1 then 0xd4 else if |data| == 2 then 0xd5 else if |data| == 4 then 0xd6
       else if |data| == 8 then 0xd7 else 0xd8] + [kind] + data
    case ExtObj(k, kind, data) =>
      [if k == 1 then 0xc7 else if k == 2 then 0xc8 else 0xc9] + BigEndian(|data|, k) + ([kind] + data)
    case ArrObj(k, items) =>
      if k == 0 then [0x90 + |items|] else [if k == 2 then 0xdc else 0xdd] + BigEndian(|items|, k)
    case MapObj(k, items) =>
      if k == 0 then [0x80 + |items| / 2] else [if k == 2 then 0xde else 0xdf] + BigEndian(|items| / 2, k)
  }

  function Nested(o: Obj): seq<Obj> {
    match o
    case ArrObj(_, items) => items
    case MapObj(_, items) => items
    case _ => []
  }

  function Written(o: Obj): bytes
    requires Fits(o)
    decreases o
  {
    match o
    case ArrObj(_, items) => Flat(o) + AllWritten(items)
    case MapObj(_, items) => Flat(o) + AllWritten(items)
    case _ => Flat(o)
  }

  function AllWritten(items: seq<Obj>): bytes
    requires AllFit(items)
    decreases items
  {
    if items == [] then [] else Written(items[0]) + AllWritten(items[1..])
  }

  lemma WrittenParts(o: Obj)
    requires Fits(o)
    ensures AllFit(Nested(o)) && Written(o) == Flat(o) + AllWritten(Nested(o))
  {
    if !o.ArrObj? && !o.MapObj? {
      assert Flat(o) + [] == Flat(o);
    }
  }

  // ---- skipping ----

  lemma {:induction false} NumberInFront(lead: byte, n: nat, k: nat, more: bytes)
    requires n < Cap(k)
    ensures var b := [lead] + BigEndian(n, k) + more; |b| >= 1 + k && Number(b[1..1 + k]) == n
  {
    ReadNumberOf(lead, n, k, more);
  }

  /** A length behind the first byte, with what it is the length of. */
  lemma {:induction false} LeadOfSized(lead: byte, k: nat, n: nat, extra: nat, each: nat, more: bytes)
    requires n < Cap(k)
    ensures var b := [lead] + BigEndian(n, k) + more;
            Sized(b, k, extra) == Some(Lead(1 + k + n + extra, 0)) && Counted(b, k, each) == Some(Lead(1 + k, each * n))
  {
    NumberInFront(lead, n, k, more);
    hide Number, BigEndian;
  }

  lemma {:induction false} LeadOfText(o: Obj, more: bytes)
    requires Fits(o) && (o.StrObj? || o.BinObj?)
    ensures LeadOf(Flat(o) + more) == Some(Lead(|Flat(o)|, 0))
  {
    hide Number, BigEndian, Sized;
    if o.StrObj? && o.width == 0 {
      assert (Flat(o) + more)[0] == 0xa0 + |o.s|;
    } else {
      var lead := Flat(o)[0];
      LeadOfSized(lead, o.width, |o.s|, 0, 0, o.s + more);
      assert Flat(o) + more == [lead] + BigEndian(|o.s|, o.width) + (o.s + more);
    }
  }

  lemma {:induction false} LeadOfExt(o: Obj, more: bytes)
    requires Fits(o) && o.ExtObj?
    ensures LeadOf(Flat(o) + more) == Some(Lead(|Flat(o)|, 0))
  {
    hide Number, BigEndian, Sized;
    var lead, tail := Flat(o)[0], [o.kind] + o.data + more;
    LeadOfSized(lead, o.width, |o.data|, 1, 0, tail);
    assert Flat(o) + more == [lead] + BigEndian(|o.data|, o.width) + tail;
  }

  lemma {:induction false} LeadOfList(o: Obj, more: bytes)
    requires Fits(o) && (o.ArrObj? || o.MapObj?)
    ensures LeadOf(Flat(o) + more) == Some(Lead(|Flat(o)|, |o.items|))
  {
    hide Number, BigEndian, Counted, AllFit;
    var n := if o.ArrObj? then |o.items| else |o.items| / 2;
    if o.width > 0 {
      LeadOfSized(Flat(o)[0], o.width, n, 0, if o.ArrObj? then 1 else 2, more);
    }
  }

  /** The first bytes of an object tell its size and how many objects are nested in it. */
  lemma {:induction false} LeadOfFlat(o: Obj, more: bytes)
    requires Fits(o)
    ensures LeadOf(Flat(o) + more) == Some(Lead(|Flat(o)|, |Nested(o)|))
  {
    match o
    case StrObj(_, _) => LeadOfText(o, more);
    case BinObj(_, _) => LeadOfText(o, more);
    case ExtObj(_, _, _) => LeadOfExt(o, more);
    case ArrObj(_, _) => LeadOfList(o, more);
    case MapObj(_, _) => LeadOfList(o, more);
    case _ => LeadOfFixed(o, more);
    hide Fits, Flat, LeadOf;
  }

  lemma {:induction false} LeadOfFixed(o: Obj, more: bytes)
    requires Fits(o) && !o.StrObj? && !o.BinObj? && !o.ExtObj? && !o.ArrObj? && !o.MapObj?
    ensures LeadOf(Flat(o) + more) == Some(Lead(|Flat(o)|, 0))
  {
    hide Number, BigEndian, Sized, Counted;
    assert (Flat(o) + more)[0] == Flat(o)[0];
  }

  lemma {:induction false} SkipsFlat(o: Obj, n: nat, more: bytes)
    requires Fits(o)
    ensures SkipMany(Flat(o) + more, n + 1) == SkipMany(more, |Nested(o)| + n)
  {
    LeadOfFlat(o, more);
    hide LeadOf, Flat, Fits, Nested;
    assert (Flat(o) + more)[|Flat(o)|..] == more;
  }

  lemma {:induction false} NestedParts(o: Obj, rest: bytes)
    requires Fits(o)
    ensures AllFit(Nested(o)) && Written(o) + rest == Flat(o) + (AllWritten(Nested(o)) + rest)
    ensures if o.ArrObj? || o.MapObj? then Nested(o) == o.items else Nested(o) == [] && AllWritten([]) + rest == rest
  {
    WrittenParts(o);
    assert [] + rest == rest;
    hide Flat, Written, Fits;
    Associative(Flat(o), AllWritten(Nested(o)), rest);
  }

  lemma {:induction false} SkipsOne(o: Obj, n: nat, rest: bytes)
    requires Fits(o)
    ensures SkipMany(Written(o) + rest, n + 1) == SkipMany(rest, n)
    decreases o
  {
    hide *;
    NestedParts(o, rest);
    SkipsFlat(o, n, AllWritten(Nested(o)) + rest);
    if o.ArrObj? || o.MapObj? {
      SkipsAll(o.items, n, rest);
    }
  }

  lemma {:induction false} SkipsAll(items: seq<Obj>, n: nat, rest: bytes)
    requires AllFit(items)
    ensures SkipMany(AllWritten(items) + rest, |items| + n) == SkipMany(rest, n)
    decreases items
  {
    hide SkipMany, Written, Fits;
    if items == [] {
      assert [] + rest == rest;
    } else {
      assert AllWritten(items) + rest == Written(items[0]) + (AllWritten(items[1..]) + rest);
      SkipsOne(items[0], |items| - 1 + n, AllWritten(items[1..]) + rest);
      SkipsAll(items[1..], n, rest);
    }
  }

  /** Every object of every format is skipped whole, with what is nested in it, and nothing behind it. */
  lemma {:induction false} SkipsWhole(o: Obj, rest: bytes)
    requires Fits(o)
    ensures Skip(Written(o) + rest) == Some(rest)
  {
    SkipsOne(o, 0, rest);
    hide Written, LeadOf;
  }

  // ---- reading any format of a family ----

  predicate IsInteger(o: Obj) {
    o.FixInt? || o.UintObj? || o.IntObj?
  }

  function IntOf(o: Obj): int
    requires IsInteger(o)
  {
    match o
    case FixInt(i) => i
    case UintObj(_, n) => n
    case IntObj(_, i) => i
  }

  lemma {:induction false} ReadsSigned(k: nat, i: int, rest: bytes)
    requires Fits(IntObj(k, i))
    ensures ReadInteger(Written(IntObj(k, i)) + rest) == Ok(i, rest)
  {
    Caps();
    var lead: byte := if k == 1 then 0xd0 else if k == 2 then 0xd1 else if k == 4 then 0xd2 else 0xd3;
    ReadNumberOf(lead, if i >= 0 then i else i + Cap(k), k, rest);
    hide Number, BigEndian, ReadNumber, Cap;
  }

  lemma {:induction false} ReadsUnsigned(k: nat, n: nat, rest: bytes)
    requires Fits(UintObj(k, n))
    ensures ReadInteger(Written(UintObj(k, n)) + rest) == Ok(n, rest)
  {
    Caps();
    var lead: byte := if k == 1 then 0xcc else if k == 2 then 0xcd else if k == 4 then 0xce else 0xcf;
    ReadNumberOf(lead, n, k, rest);
    hide Number, BigEndian, ReadNumber;
  }

  lemma {:induction false} ReadsFixInt(i: int, rest: bytes)
    requires Fits(FixInt(i))
    ensures ReadInteger(Written(FixInt(i)) + rest) == Ok(i, rest)
  {
    assert (Written(FixInt(i)) + rest)[1..] == rest;
    hide ReadNumber;
  }

  /** An integer in any format is read as the number that it is. */
  lemma {:induction false} ReadsInteger(o: Obj, rest: bytes)
    requires Fits(o) && IsInteger(o)
    ensures ReadInteger(Written(o) + rest) == Ok(IntOf(o), rest)
  {
    match o
    case FixInt(i) => ReadsFixInt(i, rest);
    case UintObj(k, n) => ReadsUnsigned(k, n, rest);
    case IntObj(k, i) => ReadsSigned(k, i, rest);
    hide Fits, Written, ReadInteger;
  }

  /** The length of a string or binary, with the text behind it. */
  lemma {:induction false} ReadsLength(o: Obj, rest: bytes)
    requires Fits(o) && (o.StrObj? || o.BinObj?)
    ensures o.StrObj? ==> StringLength(Written(o) + rest) == Ok(|o.s|, o.s + rest)
    ensures o.BinObj? ==>
              StringLength(Written(o) + rest).Fail? && BinLength(Written(o) + rest) == Ok(|o.s|, o.s + rest)
  {
    hide Number, BigEndian, ReadNumber;
    var b := Written(o) + rest;
    if o.StrObj? && o.width == 0 {
      assert b[1..] == o.s + rest;
    } else {
      var lead := Flat(o)[0];
      assert b == [lead] + BigEndian(|o.s|, o.width) + (o.s + rest);
      ReadNumberOf(lead, |o.s|, o.width, o.s + rest);
    }
  }

  /** A string in any format is read as its text, a binary only where a map key is expected. */
  lemma {:induction false} ReadsText(o: Obj, rest: bytes)
    requires Fits(o) && (o.StrObj? || o.BinObj?)
    ensures |o.s| < CAP4 && ReadMapKey(Written(o) + rest) == Ok(o.s, rest)
    ensures ReadString(Written(o) + rest) == if o.StrObj? then Ok(o.s, rest) else Fail
  {
    Caps();
    ReadsLength(o, rest);
    hide Written, StringLength, BinLength;
    assert (o.s + rest)[..|o.s|] == o.s && (o.s + rest)[|o.s|..] == rest;
  }

  lemma {:induction false} ReadsBool(b: bool, rest: bytes)
    ensures ReadBool(Written(BoolObj(b)) + rest) == Ok(b, rest)
  {
    assert (Written(BoolObj(b)) + rest)[1..] == rest;
  }

  /** The header of an array or map in any format gives its number of elements or pairs. */
  lemma {:induction false} ReadsHeader(o: Obj, rest: bytes)
    requires Fits(o) && (o.ArrObj? || o.MapObj?)
    ensures o.ArrObj? ==> ReadArrayHeader(Flat(o) + rest) == Ok(|o.items|, rest)
    ensures o.MapObj? ==> ReadMapHeader(Flat(o) + rest) == Ok(|o.items| / 2, rest)
  {
    hide Number, BigEndian, ReadNumber, AllFit;
    if o.width == 0 {
      assert (Flat(o) + rest)[1..] == rest;
    } else {
      ReadNumberOf(Flat(o)[0], if o.ArrObj? then |o.items| else |o.items| / 2, o.width, rest);
    }
  }

  /** The first byte tells the family of an object. */
  lemma {:induction false} FirstByte(o: Obj)
    requires Fits(o)
    ensures Flat(o) != []
    ensures var c := Flat(o)[0];
            (IsInteger(o) <==> c <= 0x7f || c >= 0xe0 || 0xcc <= c <= 0xd3) &&
            (o.BoolObj? <==> c == 0xc2 || c == 0xc3) && (o.StrObj? <==> 0xa0 <= c <= 0xbf || 0xd9 <= c <= 0xdb) &&
            (o.BinObj? <==> 0xc4 <= c <= 0xc6) && (o.ArrObj? <==> 0x90 <= c <= 0x9f || 0xdc <= c <= 0xdd) &&
            (o.MapObj? <==> 0x80 <= c <= 0x8f || 0xde <= c <= 0xdf)
  {
    hide BigEndian, AllFit, Cap;
  }

  /** Nothing but the objects of its family is read. */
  lemma {:induction false} ReadsOnlyItsFamily(o: Obj, rest: bytes)
    requires Fits(o)
    ensures var b := Written(o) + rest;
            (ReadInteger(b).Ok? ==> IsInteger(o)) && (ReadBool(b).Ok? ==> o.BoolObj?) &&
            (StringLength(b).Ok? ==> o.StrObj?) && (BinLength(b).Ok? ==> o.BinObj?) &&
            (ReadArrayHeader(b).Ok? ==> o.ArrObj?) && (ReadMapHeader(b).Ok? ==> o.MapObj?)
  {
    WrittenParts(o);
    FirstByte(o);
    assert (Written(o) + rest)[0] == Flat(o)[0];
    hide Written, AllWritten, Flat, Fits, ReadNumber, IsInteger, Nested;
  }

  // ---- writing the smallest format ----

  /** The format that integers are written in: fix, or the smallest signed one. */
  function SmallestInt(i: int64): Obj {
    if -32 <= i <= 127 then FixInt(i)
    else IntObj(if -0x80 <= i < 0x80 then 1 else if -0x8000 <= i < 0x8000 then 2
                else if -0x8000_0000 <= i < 0x8000_0000 then 4 else 8, i)
  }

  function SmallestUint(n: uint64): Obj {
    if n <= 127 then FixInt(n)
    else UintObj(if n < CAP1 then 1 else if n < CAP2 then 2 else if n < CAP4 then 4 else 8, n)
  }

  function SmallestStr(s: Text): Obj {
    StrObj(if |s| <= 31 then 0 else if |s| < CAP1 then 1 else if |s| < CAP2 then 2 else 4, s)
  }

  function SmallestArr(items: seq<Obj>): Obj {
    ArrObj(if |items| <= 15 then 0 else if |items| < CAP2 then 2 else 4, items)
  }

  /** An integer is written as an object that stands for it, and no signed format of it is shorter. */
  lemma {:induction false} IntIsSmallest(i: int64, o: Obj)
    ensures Fits(SmallestInt(i)) && AppendInt(i) == Written(SmallestInt(i)) && IntOf(SmallestInt(i)) == i
    ensures Fits(o) && (o.FixInt? || o.IntObj?) && IntOf(o) == i ==> |AppendInt(i)| <= |Written(o)|
  {
    Caps();
    hide BigEndian;
  }

  lemma {:induction false} UintIsSmallest(n: uint64, o: Obj)
    ensures Fits(SmallestUint(n)) && AppendUint64(n) == Written(SmallestUint(n)) && IntOf(SmallestUint(n)) == n
    ensures Fits(o) && (o.FixInt? || o.UintObj?) && IntOf(o) == n ==> |AppendUint64(n)| <= |Written(o)|
  {
    Caps();
    hide BigEndian;
  }

  lemma {:induction false} StringIsSmallest(s: Text, o: Obj)
    ensures Fits(SmallestStr(s)) && AppendString(s) == Written(SmallestStr(s))
    ensures Fits(o) && o.StrObj? && o.s == s ==> |AppendString(s)| <= |Written(o)|
  {
    Caps();
    hide BigEndian;
  }

  lemma {:induction false} ArrayHeaderIsSmallest(items: seq<Obj>, o: Obj)
    requires |items| < CAP4 && AllFit(items)
    ensures Fits(SmallestArr(items)) && AppendArrayHeader(|items|) == Flat(SmallestArr(items))
    ensures Fits(o) && o.ArrObj? && o.items == items ==> |AppendArrayHeader(|items|)| <= |Flat(o)|
  {
    Caps();
    hide BigEndian, AllFit;
  }

  lemma BoolIsWritten(b: bool)
    ensures Fits(BoolObj(b)) && AppendBool(b) == Written(BoolObj(b))
  {
  }

  /** A time is extension type 5: its seconds in two's complement and its nanoseconds, 12 bytes together. */
  function TimeObj(t: Time): Obj
    requires ValidTime(t)
  {
    ExtObj(1, 5, BigEndian(if t.sec >= 0 then t.sec else t.sec + CAP8, 8) + BigEndian(t.nsec, 4))
  }

  lemma {:induction false} TimeIsWritten(t: Time)
    requires ValidTime(t)
    ensures Fits(TimeObj(t)) && AppendTime(t) == Written(TimeObj(t))
  {
    Caps();
    assert BigEndian(12, 1) == [12] by {
      assert BigEndian(12, 1) == BigEndian(0, 0) + [12];
    }
  }
}
