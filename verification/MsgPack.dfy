/**
 * The MessagePack formats that the generated tracker codec uses: how a value is written in the smallest format
 * of its family, and how any format of the family is read (MessagePack specification, section "Formats").
 */
module MsgPack {
  import opened Bytes

  datatype Parsed<+T> = Ok(value: T, rest: bytes) | Fail

  // ---- big-endian numbers ----

  /** How many numbers k bytes can hold. */
  function Cap(k: nat): (n: nat)
    ensures n >= 1
  {
    if k == 0 then 1 else 256 * Cap(k - 1)
  }

  function BigEndian(n: nat, k: nat): (b: bytes)
    ensures |b| == k
  {
    if k == 0 then [] else BigEndian(n / 256, k - 1) + [n % 256]
  }

  function Number(b: bytes): nat {
    if b == [] then 0 else 256 * Number(b[..|b| - 1]) + b[|b| - 1]
  }

  lemma {:induction false} NumberOfBigEndian(n: nat, k: nat)
    requires n < Cap(k)
    ensures Number(BigEndian(n, k)) == n
  {
    if k > 0 {
      NumberOfBigEndian(n / 256, k - 1);
      assert BigEndian(n, k)[..k - 1] == BigEndian(n / 256, k - 1);
    }
  }

  /** The first byte is the most significant one. */
  lemma {:induction false} MostSignificantFirst(lead: byte, b: bytes)
    ensures Number([lead] + b) == lead * Cap(|b|) + Number(b)
  {
    if b == [] {
      assert ([lead] + b)[..0] == [];
    } else {
      var n := |b| - 1;
      MostSignificantFirst(lead, b[..n]);
      assert ([lead] + b)[..n + 1] == [lead] + b[..n];
    }
  }

  const CAP1 := 0x100
  const CAP2 := 0x1_0000
  const CAP4 := 0x1_0000_0000
  const CAP8 := 0x1_0000_0000_0000_0000

  lemma Caps()
    ensures Cap(1) == CAP1 && Cap(2) == CAP2 && Cap(4) == CAP4 && Cap(8) == CAP8
  {
    assert Cap(1) == 256 * Cap(0);
    assert Cap(2) == 256 * Cap(1);
    assert Cap(3) == 256 * Cap(2);
    assert Cap(4) == 256 * Cap(3);
    assert Cap(5) == 256 * Cap(4);
    assert Cap(6) == 256 * Cap(5);
    assert Cap(7) == 256 * Cap(6);
    assert Cap(8) == 256 * Cap(7);
  }

  /** The number in the k bytes behind the first. */
  function ReadNumber(b: bytes, k: nat): Parsed<nat> {
    if |b| < 1 + k then Fail else Ok(Number(b[1..1 + k]), b[1 + k..])
  }

  lemma ReadNumberOf(lead: byte, n: nat, k: nat, rest: bytes)
    requires n < Cap(k)
    ensures ReadNumber([lead] + BigEndian(n, k) + rest, k) == Ok(n, rest)
  {
    var b := [lead] + BigEndian(n, k) + rest;
    assert b[1..1 + k] == BigEndian(n, k) && b[1 + k..] == rest;
    NumberOfBigEndian(n, k);
  }

  // ---- integers ----

  const INT_MAX := 0x7fff_ffff_ffff_ffff
  const INT_MIN := -0x8000_0000_0000_0000

  type int64 = i: int | INT_MIN <= i <= INT_MAX
  type uint64 = n: int | 0 <= n < CAP8

  /** Two's complement in k bytes of which `cap` is the number of values. */
  function Twos(i: int, cap: nat): (n: int)
    ensures 0 <= 2 * i + cap && 2 * i < cap ==> 0 <= n < cap && (n == i || n == i + cap)
  {
    if i >= 0 then i else i + cap
  }

  function Signed(n: nat, cap: nat): (i: int)
    ensures n < cap && cap % 2 == 0 ==> 0 <= 2 * i + cap && 2 * i < cap && (i == n || i == n - cap)
  {
    if n < cap / 2 then n else n - cap
  }

  function AppendInt(i: int64): bytes {
    if 0 <= i <= 0x7f then [i]
    else if 0 <= i <= 0x7fff then [0xd1] + BigEndian(i, 2)
    else if 0 <= i <= 0x7fff_ffff then [0xd2] + BigEndian(i, 4)
    else if 0 <= i then [0xd3] + BigEndian(i, 8)
    else if i >= -0x20 then [0x100 + i]
    else if i >= -0x80 then [0xd0] + BigEndian(Twos(i, CAP1), 1)
    else if i >= -0x8000 then [0xd1] + BigEndian(Twos(i, CAP2), 2)
    else if i >= -0x8000_0000 then [0xd2] + BigEndian(Twos(i, CAP4), 4)
    else [0xd3] + BigEndian(Twos(i, CAP8), 8)
  }

  function AppendUint64(n: uint64): bytes {
    if n <= 0x7f then [n]
    else if n < CAP1 then [0xcc] + BigEndian(n, 1)
    else if n < CAP2 then [0xcd] + BigEndian(n, 2)
    else if n < CAP4 then [0xce] + BigEndian(n, 4)
    else [0xcf] + BigEndian(n, 8)
  }

  function MapSigned(p: Parsed<nat>, cap: nat): Parsed<int> {
    if p.Ok? then Ok(Signed(p.value, cap), p.rest) else Fail
  }

  /** An integer of any format. */
  function ReadInteger(b: bytes): Parsed<int> {
    if b == [] then Fail
    else if b[0] <= 0x7f then Ok(b[0], b[1..])
    else if b[0] >= 0xe0 then MapSigned(Ok(b[0], b[1..]), CAP1)
    else match b[0]
      case 0xcc => ReadNumber(b, 1)
      case 0xcd => ReadNumber(b, 2)
      case 0xce => ReadNumber(b, 4)
      case 0xcf => ReadNumber(b, 8)
      case 0xd0 => MapSigned(ReadNumber(b, 1), CAP1)
      case 0xd1 => MapSigned(ReadNumber(b, 2), CAP2)
      case 0xd2 => MapSigned(ReadNumber(b, 4), CAP4)
      case 0xd3 => MapSigned(ReadNumber(b, 8), CAP8)
      case _ => Fail
  }

  /** Fails on a number that does not fit. */
  function ReadInt(b: bytes): Parsed<int64> {
    var p := ReadInteger(b);
    if p.Ok? && INT_MIN <= p.value <= INT_MAX then Ok(p.value, p.rest) else Fail
  }

  function ReadUint64(b: bytes): Parsed<uint64> {
    var p := ReadInteger(b);
    if p.Ok? && 0 <= p.value < CAP8 then Ok(p.value, p.rest) else Fail
  }

  lemma IntRoundTrip(i: int64, rest: bytes)
    ensures ReadInt(AppendInt(i) + rest) == Ok(i, rest)
    ensures 1 <= |AppendInt(i)| <= 9
  {
    Caps();
    if -0x20 <= i <= 0x7f {
      assert (AppendInt(i) + rest)[1..] == rest;
    } else if -0x80 <= i < 0 {
      ReadNumberOf(0xd0, Twos(i, CAP1), 1, rest);
    } else if -0x8000 <= i <= 0x7fff {
      ReadNumberOf(0xd1, Twos(i, CAP2), 2, rest);
    } else if -0x8000_0000 <= i <= 0x7fff_ffff {
      ReadNumberOf(0xd2, Twos(i, CAP4), 4, rest);
    } else {
      ReadNumberOf(0xd3, Twos(i, CAP8), 8, rest);
    }
  }

  lemma Uint64RoundTrip(n: uint64, rest: bytes)
    ensures ReadUint64(AppendUint64(n) + rest) == Ok(n, rest)
    ensures 1 <= |AppendUint64(n)| <= 9
  {
    Caps();
    if n <= 0x7f {
      assert (AppendUint64(n) + rest)[1..] == rest;
    } else if n < CAP1 {
      ReadNumberOf(0xcc, n, 1, rest);
    } else if n < CAP2 {
      ReadNumberOf(0xcd, n, 2, rest);
    } else if n < CAP4 {
      ReadNumberOf(0xce, n, 4, rest);
    } else {
      ReadNumberOf(0xcf, n, 8, rest);
    }
  }

  // ---- booleans ----

  function AppendBool(v: bool): bytes {
    if v then [0xc3] else [0xc2]
  }

  function ReadBool(b: bytes): Parsed<bool> {
    if b == [] then Fail
    else if b[0] == 0xc3 then Ok(true, b[1..])
    else if b[0] == 0xc2 then Ok(false, b[1..])
    else Fail
  }

  // ---- strings ----

  function StringHead(n: nat): bytes
    requires n < CAP4
  {
    if n <= 31 then [0xa0 + n]
    else if n < CAP1 then [0xd9] + BigEndian(n, 1)
    else if n < CAP2 then [0xda] + BigEndian(n, 2)
    else [0xdb] + BigEndian(n, 4)
  }

  type Text = s: bytes | |s| < CAP4

  function AppendString(s: Text): bytes {
    StringHead(|s|) + s
  }

  function StringLength(b: bytes): Parsed<nat> {
    if b == [] then Fail
    else if 0xa0 <= b[0] <= 0xbf then Ok(b[0] - 0xa0, b[1..])
    else if b[0] == 0xd9 then ReadNumber(b, 1)
    else if b[0] == 0xda then ReadNumber(b, 2)
    else if b[0] == 0xdb then ReadNumber(b, 4)
    else Fail
  }

  function BinLength(b: bytes): Parsed<nat> {
    if b == [] then Fail
    else if b[0] == 0xc4 then ReadNumber(b, 1)
    else if b[0] == 0xc5 then ReadNumber(b, 2)
    else if b[0] == 0xc6 then ReadNumber(b, 4)
    else Fail
  }

  function Payload(p: Parsed<nat>): Parsed<Text> {
    if p.Ok? && p.value <= |p.rest| && p.value < CAP4 then Ok(p.rest[..p.value], p.rest[p.value..]) else Fail
  }

  function ReadString(b: bytes): Parsed<Text> {
    Payload(StringLength(b))
  }

  /** A map key may be a string or a binary. */
  function ReadMapKey(b: bytes): Parsed<Text> {
    var s := StringLength(b);
    Payload(if s.Ok? then s else BinLength(b))
  }

  lemma StringLengthOf(n: nat, rest: bytes)
    requires n < CAP4
    ensures StringLength(StringHead(n) + rest) == Ok(n, rest)
    ensures 1 <= |StringHead(n)| <= 5
  {
    Caps();
    if n <= 31 {
      assert (StringHead(n) + rest)[1..] == rest;
    } else if n < CAP1 {
      ReadNumberOf(0xd9, n, 1, rest);
    } else if n < CAP2 {
      ReadNumberOf(0xda, n, 2, rest);
    } else {
      ReadNumberOf(0xdb, n, 4, rest);
    }
  }

  lemma StringRoundTrip(s: Text, rest: bytes)
    ensures ReadString(AppendString(s) + rest) == ReadMapKey(AppendString(s) + rest) == Ok(s, rest)
    ensures 1 <= |AppendString(s)| <= 5 + |s|
  {
    StringLengthOf(|s|, s + rest);
    assert AppendString(s) + rest == StringHead(|s|) + (s + rest);
    assert (s + rest)[..|s|] == s && (s + rest)[|s|..] == rest;
  }

  // ---- arrays of strings, map headers ----

  function AppendArrayHeader(n: nat): bytes
    requires n < CAP4
  {
    if n <= 15 then [0x90 + n]
    else if n < CAP2 then [0xdc] + BigEndian(n, 2)
    else [0xdd] + BigEndian(n, 4)
  }

  function ReadArrayHeader(b: bytes): Parsed<nat> {
    if b == [] then Fail
    else if 0x90 <= b[0] <= 0x9f then Ok(b[0] - 0x90, b[1..])
    else if b[0] == 0xdc then ReadNumber(b, 2)
    else if b[0] == 0xdd then ReadNumber(b, 4)
    else Fail
  }

  function ReadMapHeader(b: bytes): Parsed<nat> {
    if b == [] then Fail
    else if 0x80 <= b[0] <= 0x8f then Ok(b[0] - 0x80, b[1..])
    else if b[0] == 0xde then ReadNumber(b, 2)
    else if b[0] == 0xdf then ReadNumber(b, 4)
    else Fail
  }

  lemma ArrayHeaderRoundTrip(n: nat, rest: bytes)
    requires n < CAP4
    ensures ReadArrayHeader(AppendArrayHeader(n) + rest) == Ok(n, rest)
    ensures 1 <= |AppendArrayHeader(n)| <= 5
  {
    Caps();
    if n <= 15 {
      assert (AppendArrayHeader(n) + rest)[1..] == rest;
    } else if n < CAP2 {
      ReadNumberOf(0xdc, n, 2, rest);
    } else {
      ReadNumberOf(0xdd, n, 4, rest);
    }
  }

  function AppendStrings(list: seq<Text>): bytes {
    if list == [] then [] else AppendStrings(list[..|list| - 1]) + AppendString(list[|list| - 1])
  }

  /** Reads n strings behind those of `before`. */
  function ReadStrings(before: seq<Text>, n: nat, b: bytes): Parsed<seq<Text>>
    decreases n
  {
    if n == 0 then Ok(before, b)
    else
      var s := ReadString(b);
      if s.Ok? then ReadStrings(before + [s.value], n - 1, s.rest) else Fail
  }

  lemma {:induction false} StringsRoundTrip(before: seq<Text>, list: seq<Text>, rest: bytes)
    ensures ReadStrings(before, |list|, AppendStrings(list) + rest) == Ok(before + list, rest)
    ensures |list| <= |AppendStrings(list)|
  {
    hide ReadString, ReadStrings, AppendString;
    if list == [] {
      ReadNoStrings(before, rest);
      assert before + list == before && AppendStrings(list) + rest == rest;
    } else {
      var n := |list| - 1;
      var init, last := list[..n], list[n];
      StringRoundTrip(last, rest);
      StringsRoundTrip(before, init, AppendString(last) + rest);
      ReadStringsStep(before, n, AppendStrings(list) + rest);
      Associative(AppendStrings(init), AppendString(last), rest);
      Associative(before, init, [last]);
      assert list == init + [last];
      hide AppendStrings;
    }
  }

  lemma ReadNoStrings(before: seq<Text>, b: bytes)
    ensures ReadStrings(before, 0, b) == Ok(before, b)
  {
  }

  /** Reading n + 1 strings is reading n strings and then one more. */
  lemma {:induction false} ReadStringsStep(before: seq<Text>, n: nat, b: bytes)
    ensures ReadStrings(before, n + 1, b) ==
            var p := ReadStrings(before, n, b);
            if p.Fail? then Fail
            else
              var s := ReadString(p.rest);
              if s.Ok? then Ok(p.value + [s.value], s.rest) else Fail
    decreases n
  {
    if n == 0 {
      var s := ReadString(b);
      if s.Ok? {
        assert ReadStrings(before + [s.value], 0, s.rest) == Ok(before + [s.value], s.rest);
      }
    } else {
      var s := ReadString(b);
      if s.Ok? {
        ReadStringsStep(before + [s.value], n - 1, s.rest);
      }
    }
  }

  // ---- times ----

  /** Seconds since 1970 and nanoseconds. */
  datatype Time = Time(sec: int64, nsec: int)

  const NANOS := 1_000_000_000

  predicate ValidTime(t: Time) {
    0 <= t.nsec < NANOS
  }

  /** Extension type 5 in an ext 8 of 12 bytes. */
  function AppendTime(t: Time): bytes
    requires ValidTime(t)
  {
    [0xc7, 12, 5] + BigEndian(Twos(t.sec, CAP8), 8) + BigEndian(t.nsec, 4)
  }

  /** The nanoseconds read are reduced to less than a second. */
  function ReadTime(b: bytes): Parsed<Time> {
    if |b| < 15 || b[..3] != [0xc7, 12, 5] then Fail
    else
      var nsec := Signed(Number(b[11..15]), CAP4);
      var sec := Signed(Number(b[3..11]), CAP8) + nsec / NANOS;
      if INT_MIN <= sec <= INT_MAX then Ok(Time(sec, nsec % NANOS), b[15..]) else Fail
  }

  lemma TimeRoundTrip(t: Time, rest: bytes)
    requires ValidTime(t)
    ensures ReadTime(AppendTime(t) + rest) == Ok(t, rest)
    ensures |AppendTime(t)| == 15
  {
    Caps();
    var b := AppendTime(t) + rest;
    var sec, nsec := BigEndian(Twos(t.sec, CAP8), 8), BigEndian(t.nsec, 4);
    assert b[..3] == [0xc7, 12, 5] && b[3..11] == sec && b[11..15] == nsec && b[15..] == rest;
    NumberOfBigEndian(Twos(t.sec, CAP8), 8);
    NumberOfBigEndian(t.nsec, 4);
  }

  /** Seconds and nanoseconds of any kind are read as the same point in time. */
  lemma ReadTimeKeeps(b: bytes)
    requires ReadTime(b).Ok?
    ensures var t := ReadTime(b).value;
            ValidTime(t) &&
            t.sec * NANOS + t.nsec == Signed(Number(b[3..11]), CAP8) * NANOS + Signed(Number(b[11..15]), CAP4)
  {
    hide Number, Signed;
  }

  // ---- skipping an object of any kind ----

  /** The size of an object without the objects nested in it, and how many these are. */
  datatype Lead = Lead(size: nat, nested: nat)

  /** A length in the k bytes behind the first, and `extra` bytes more than that. */
  function Sized(b: bytes, k: nat, extra: nat): Option<Lead> {
    if |b| < 1 + k then None else Some(Lead(1 + k + Number(b[1..1 + k]) + extra, 0))
  }

  function Counted(b: bytes, k: nat, each: nat): Option<Lead> {
    if |b| < 1 + k then None else Some(Lead(1 + k, each * Number(b[1..1 + k])))
  }

  function LeadOf(b: bytes): (lead: Option<Lead>)
    ensures lead.Some? ==> lead.value.size >= 1
  {
    if b == [] then None
    else if b[0] <= 0x7f || b[0] >= 0xe0 then Some(Lead(1, 0))
    else if b[0] <= 0x8f then Some(Lead(1, 2 * (b[0] - 0x80)))
    else if b[0] <= 0x9f then Some(Lead(1, b[0] - 0x90))
    else if b[0] <= 0xbf then Some(Lead(1 + b[0] - 0xa0, 0))
    else match b[0]
      case 0xc0 => Some(Lead(1, 0))
      case 0xc2 => Some(Lead(1, 0))
      case 0xc3 => Some(Lead(1, 0))
      case 0xc4 => Sized(b, 1, 0)
      case 0xc5 => Sized(b, 2, 0)
      case 0xc6 => Sized(b, 4, 0)
      case 0xc7 => Sized(b, 1, 1)
      case 0xc8 => Sized(b, 2, 1)
      case 0xc9 => Sized(b, 4, 1)
      case 0xca => Some(Lead(5, 0))
      case 0xcb => Some(Lead(9, 0))
      case 0xcc => Some(Lead(2, 0))
      case 0xcd => Some(Lead(3, 0))
      case 0xce => Some(Lead(5, 0))
      case 0xcf => Some(Lead(9, 0))
      case 0xd0 => Some(Lead(2, 0))
      case 0xd1 => Some(Lead(3, 0))
      case 0xd2 => Some(Lead(5, 0))
      case 0xd3 => Some(Lead(9, 0))
      case 0xd4 => Some(Lead(3, 0))
      case 0xd5 => Some(Lead(4, 0))
      case 0xd6 => Some(Lead(6, 0))
      case 0xd7 => Some(Lead(10, 0))
      case 0xd8 => Some(Lead(18, 0))
      case 0xd9 => Sized(b, 1, 0)
      case 0xda => Sized(b, 2, 0)
      case 0xdb => Sized(b, 4, 0)
      case 0xdc => Counted(b, 2, 1)
      case 0xdd => Counted(b, 4, 1)
      case 0xde => Counted(b, 2, 2)
      case 0xdf => Counted(b, 4, 2)
      case _ => None
  }

  /** Skips n objects with everything nested in them. */
  function SkipMany(b: bytes, n: nat): Option<bytes>
    decreases |b|
  {
    if n == 0 then Some(b)
    else
      var lead := LeadOf(b);
      if lead.None? || lead.value.size > |b| then None
      else SkipMany(b[lead.value.size..], lead.value.nested + n - 1)
  }

  function Skip(b: bytes): Option<bytes> {
    SkipMany(b, 1)
  }

  lemma SizedExtends(b: bytes, k: nat, extra: nat, rest: bytes)
    ensures |b| >= 1 + k ==> (b + rest)[1..1 + k] == b[1..1 + k]
    ensures Sized(b, k, extra).Some? ==> Sized(b + rest, k, extra) == Sized(b, k, extra)
  {
    if |b| >= 1 + k {
      assert (b + rest)[1..1 + k] == b[1..1 + k];
    }
  }

  lemma LeadExtends(b: bytes, rest: bytes)
    requires LeadOf(b).Some?
    ensures LeadOf(b + rest) == LeadOf(b)
  {
    assert b != [] && (b + rest)[0] == b[0];
    SizedExtends(b, 1, 0, rest);
    SizedExtends(b, 2, 0, rest);
    SizedExtends(b, 4, 0, rest);
    SizedExtends(b, 1, 1, rest);
    SizedExtends(b, 2, 1, rest);
    SizedExtends(b, 4, 1, rest);
  }

  /** What follows the skipped objects does not matter. */
  lemma {:induction false} SkipExtends(b: bytes, n: nat, rest: bytes)
    requires SkipMany(b, n).Some?
    ensures SkipMany(b + rest, n) == Some(SkipMany(b, n).value + rest)
    decreases |b|
  {
    hide LeadOf;
    if n > 0 {
      var lead := LeadOf(b).value;
      LeadExtends(b, rest);
      SkipExtends(b[lead.size..], lead.nested + n - 1, rest);
      assert (b + rest)[lead.size..] == b[lead.size..] + rest;
    }
  }
}
